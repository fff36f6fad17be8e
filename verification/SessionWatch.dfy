/**
  The watcher that tells attached clients what the session serves, as a machine of
  interleaved steps. The session, the connection threads and the writers may move
  between any two of the watcher's own steps; the watcher's local variables between
  its lock holds are part of the state. A set takes four or five reads, each under a lock
  of its own, so it may mix moments of the session; `SetMoments` says exactly when.
 */
module SessionWatch {
  import opened Bytes
  import opened AttachedClients
  import opened Session

  /** A queued frame: a repository set, or anything else. */
  datatype Note = SetNote(stamp: Stamp) | OtherNote

  datatype Place =
    | Seeding(read: Read)
    | Waiting
    | Reading(read: Read)
    | Announce | Record
    | TakeOwedSets | Sending

  datatype Watch = Watch(
    history: History,
    registry: Registry<Note>,
    place: Place,
    told: Stamp,
    current: Stamp,
    unsent: seq<nat>,
    poked: bool,
    pokeDue: set<nat>,
    passes: nat)

  datatype Label =
    | SetCatalog(served: Catalog) | SetStored(path: Option<nat>) | SetAccent(accent: nat)
    | Attach(capacity: nat) | Detach(id: nat) | AskForSet(id: nat) | Poke(id: nat)
    | Reply(id: nat) | WriterTakes(id: nat) | WriterEnds(id: nat)
    | WatcherMoves

  const NO_READS := Stamp(0, 0, 0, 0, 0)

  ghost function Init(h: History): Watch {
    Watch(h, EmptyRegistry(), Seeding(ReadList), NO_READS, NO_READS, [], false, {}, 0)
  }

  ghost predicate Ready(s: Watch) {
    NonEmpty(s.history) && InRange(s.history, s.told) && InRange(s.history, s.current)
  }

  ghost function WatcherStep(s: Watch): (next: Watch)
    requires Ready(s)
    ensures Ready(next)
  {
    match s.place
    case Seeding(read) =>
      var p := ReadOne(s.history, s.told, read);
      s.(told := p.stamp, place := if p.next.Some? then Seeding(p.next.value) else Waiting)
    case Waiting => s.(poked := false, place := Reading(ReadList))
    case Reading(read) =>
      var p := ReadOne(s.history, s.current, read);
      s.(current := p.stamp,
         place := if p.next.Some? then Reading(p.next.value)
                  else if ValueAt(s.history, s.told) != ValueAt(s.history, p.stamp) then Announce
                  else TakeOwedSets)
    case Announce => s.(registry := Step(s.registry, Broadcast(SetNote(s.current))), place := Record)
    case Record => s.(told := s.current, place := Waiting, passes := s.passes + 1)
    case TakeOwedSets =>
      s.(unsent := OwedIds(s.registry.clients), registry := Step(s.registry, TakeOwed), place := Sending)
    case Sending =>
      if s.unsent == [] then s.(place := Waiting, passes := s.passes + 1)
      else s.(registry := Step(s.registry, SendTo(s.unsent[0], SetNote(s.current))), unsent := s.unsent[1..])
  }

  ghost function Next(s: Watch, l: Label): (next: Watch)
    requires Ready(s)
    ensures Ready(next)
  {
    match l
    case SetCatalog(served) => s.(history := Entered(s.history.(catalogs := s.history.catalogs + [served])))
    case SetStored(path) => s.(history := Entered(s.history.(stored := s.history.stored + [path])))
    case SetAccent(accent) => s.(history := Entered(s.history.(accents := s.history.accents + [accent])))
    case Attach(capacity) =>
      s.(registry := Step(s.registry, TryConnect(capacity)),
         pokeDue := if |s.registry.clients| < capacity then s.pokeDue + {s.registry.nextId} else s.pokeDue)
    case Detach(id) => s.(registry := Step(s.registry, Disconnect(id)))
    case AskForSet(id) => s.(registry := Step(s.registry, Ask(id)), pokeDue := s.pokeDue + {id})
    case Poke(id) => s.(poked := true, pokeDue := s.pokeDue - {id})
    case Reply(id) => s.(registry := Step(s.registry, SendTo(id, OtherNote)))
    case WriterTakes(id) => s.(registry := Step(s.registry, WriterTake(id)))
    case WriterEnds(id) => s.(registry := Step(s.registry, WriterEnd(id)))
    case WatcherMoves => WatcherStep(s)
  }

  ghost function Run(h: History, labels: seq<Label>): (s: Watch)
    requires NonEmpty(h)
    ensures Ready(s)
  {
    if labels == [] then Init(h) else Next(Run(h, labels[..|labels| - 1]), labels[|labels| - 1])
  }

  // ----------------------------------------------- what one client was told

  /** The sets among the frames of a channel, in order. */
  function Sets(notes: seq<Note>): seq<Stamp> {
    if notes == [] then []
    else
      var n := |notes| - 1;
      Sets(notes[..n]) + if notes[n].SetNote? then [notes[n].stamp] else []
  }

  /** The sets a client's channel ever took. */
  ghost function ToldTo(s: Watch, id: nat): seq<Stamp> {
    Sets(Everything(View(s.registry, id).ch))
  }

  /** The set an operation adds to a client's channel, if any. */
  function Gains(v: Solo<Note>, id: nat, op: Op<Note>): seq<Stamp> {
    if (op.Broadcast? || (op.SendTo? && op.id == id)) && op.f.SetNote? && v.attached && Takes(v.ch)
    then [op.f.stamp]
    else []
  }

  lemma SoloGains(v: Solo<Note>, id: nat, op: Op<Note>)
    ensures Sets(Everything(SoloStep(v, id, op).ch)) == Sets(Everything(v.ch)) + Gains(v, id, op)
  {
    hide SoloStep, Everything, Takes;
    EverythingMoves(v, id, op);
    if OfferedBy(id, op) != [] {
      SetsSnoc(Everything(v.ch), op.f);
    }
  }

  lemma SetsSnoc(notes: seq<Note>, note: Note)
    ensures Sets(notes + [note]) == Sets(notes) + if note.SetNote? then [note.stamp] else []
  {
    assert (notes + [note])[..|notes|] == notes;
  }

  ghost predicate NotAfter(a: Stamp, b: Stamp) {
    && a.list <= b.list && a.stored <= b.stored && a.lookup <= b.lookup && a.first <= b.first
    && a.accent <= b.accent
  }

  /** Sets in the order of what they were read from, read by read, none of them later than `bound`. */
  ghost predicate InOrder(stamps: seq<Stamp>, bound: Stamp) {
    && (forall i :: 0 <= i < |stamps| ==> NotAfter(stamps[i], bound))
    && (forall i, j :: 0 <= i < j < |stamps| ==> NotAfter(stamps[i], stamps[j]))
  }

  /** The last of the sets says what the set read at `t` says. */
  ghost predicate SaysLast(h: History, stamps: seq<Stamp>, t: Stamp)
    requires InRange(h, t)
  {
    && stamps != []
    && InRange(h, stamps[|stamps| - 1])
    && ValueAt(h, stamps[|stamps| - 1]) == ValueAt(h, t)
  }

  /** What the watcher has told everyone who is owed nothing. */
  function Common(s: Watch): Stamp {
    if s.place.Record? then s.current else s.told
  }

  /** The part of a pass that still ends by serving whoever is owed a set when it gets there. */
  predicate WillServe(p: Place) {
    p.Reading? || p.Announce? || p.TakeOwedSets?
  }

  /** Every attached client is owed a set, is about to be sent one, or has the common one. */
  ghost predicate Served(s: Watch, id: nat)
    requires Ready(s)
  {
    var v := View(s.registry, id);
    v.attached ==> v.owed || id in s.unsent || SaysLast(s.history, ToldTo(s, id), Common(s))
  }

  /** A client owed a set has a wake-up coming, or a pass under way that will serve it. */
  ghost predicate NotForgotten(s: Watch, id: nat) {
    View(s.registry, id).owed ==> id in s.pokeDue || s.poked || WillServe(s.place)
  }

  ghost predicate ClientInv(s: Watch, id: nat)
    requires Ready(s)
  {
    && InOrder(ToldTo(s, id), s.current)
    && Served(s, id)
    && NotForgotten(s, id)
    && (View(s.registry, id).owed ==> View(s.registry, id).attached)
    && (s.place.Seeding? ==> ToldTo(s, id) == [] && (View(s.registry, id).attached ==> View(s.registry, id).owed))
  }

  ghost predicate WatcherInv(s: Watch) {
    && Ready(s)
    && WellFormed(s.registry)
    && (s.place.TakeOwedSets? || s.place.Sending? ==> ValueAt(s.history, s.told) == ValueAt(s.history, s.current))
    && (!s.place.Sending? ==> s.unsent == [])
  }

  ghost predicate Inv(s: Watch) {
    && WatcherInv(s)
    && (forall id: nat :: id < s.registry.nextId ==> ClientInv(s, id))
  }

  lemma {:induction false} OwedIdsAre(clients: seq<Attached>)
    ensures forall id :: id in OwedIds(clients) <==> IsOwed(clients, id)
  {
    if clients != [] {
      var n := |clients| - 1;
      OwedIdsAre(clients[..n]);
      assert clients == clients[..n] + [clients[n]];
    }
  }

  /** The operation on the registry a step makes, if it makes one. */
  ghost function Effect(s: Watch, l: Label): Option<Op<Note>> {
    match l
    case SetCatalog(_) => None
    case SetStored(_) => None
    case SetAccent(_) => None
    case Attach(capacity) => Some(TryConnect(capacity))
    case Detach(id) => Some(Disconnect(id))
    case AskForSet(id) => Some(Ask(id))
    case Poke(_) => None
    case Reply(id) => Some(SendTo(id, OtherNote))
    case WriterTakes(id) => Some(WriterTake(id))
    case WriterEnds(id) => Some(WriterEnd(id))
    case WatcherMoves =>
      if s.place.Announce? then Some(Broadcast(SetNote(s.current)))
      else if s.place.TakeOwedSets? then Some(TakeOwed)
      else if s.place.Sending? && s.unsent != [] then Some(SendTo(s.unsent[0], SetNote(s.current)))
      else None
  }

  lemma NextRegistry(s: Watch, l: Label)
    requires Ready(s)
    ensures Next(s, l).registry == if Effect(s, l).Some? then Step(s.registry, Effect(s, l).value) else s.registry
  {
  }

  /** How one client's view and what it was told move in one step. */
  lemma ClientMoves(s: Watch, l: Label, id: nat)
    requires Ready(s) && WellFormed(s.registry) && id < s.registry.nextId
    ensures var v := View(s.registry, id);
            var op := Effect(s, l);
            && View(Next(s, l).registry, id) == (if op.Some? then SoloStep(v, id, op.value) else v)
            && ToldTo(Next(s, l), id) ==
               if op.Some? && Gains(v, id, op.value) != [] then ToldTo(s, id) + Gains(v, id, op.value)
               else ToldTo(s, id)
  {
    hide Next, Step, View, SoloStep, Gains;
    NextRegistry(s, l);
    if Effect(s, l).Some? {
      StepView(s.registry, id, Effect(s, l).value);
      SoloGains(View(s.registry, id), id, Effect(s, l).value);
      assert ToldTo(s, id) + [] == ToldTo(s, id);
    }
  }

  /** A set once read keeps saying what it said, whatever the session does next. */
  lemma ValuesStand(s: Watch, l: Label, t: Stamp)
    requires Ready(s) && InRange(s.history, t)
    ensures InRange(Next(s, l).history, t)
    ensures ValueAt(Next(s, l).history, t) == ValueAt(s.history, t)
  {
  }

  lemma SaysLastStands(s: Watch, l: Label, stamps: seq<Stamp>, t: Stamp)
    requires Ready(s) && InRange(s.history, t) && SaysLast(s.history, stamps, t)
    ensures InRange(Next(s, l).history, t) && SaysLast(Next(s, l).history, stamps, t)
  {
    ValuesStand(s, l, t);
    ValuesStand(s, l, stamps[|stamps| - 1]);
  }

  lemma CurrentAdvances(s: Watch, l: Label)
    requires Ready(s)
    ensures NotAfter(s.current, Next(s, l).current)
  {
  }

  lemma GainsCurrent(s: Watch, l: Label, id: nat)
    requires Effect(s, l).Some?
    ensures var gained := Gains(View(s.registry, id), id, Effect(s, l).value); gained == [] || gained == [s.current]
  {
  }

  lemma InOrderGrows(stamps: seq<Stamp>, bound: Stamp, later: Stamp)
    requires InOrder(stamps, bound) && NotAfter(bound, later)
    ensures InOrder(stamps, later) && InOrder(stamps + [bound], later)
  {
  }

  lemma InOrderStep(s: Watch, l: Label, id: nat)
    requires WatcherInv(s) && id < s.registry.nextId && InOrder(ToldTo(s, id), s.current)
    ensures InOrder(ToldTo(Next(s, l), id), Next(s, l).current)
  {
    hide Next, ToldTo, Step, View, SoloStep, InOrder, NotAfter, Gains;
    CurrentAdvances(s, l);
    ClientMoves(s, l, id);
    InOrderGrows(ToldTo(s, id), s.current, Next(s, l).current);
    if Effect(s, l).Some? {
      GainsCurrent(s, l, id);
    }
  }

  /** A step of anyone but the watcher leaves every client as well served as it was. */
  lemma ServedByOthers(s: Watch, l: Label, id: nat)
    requires WatcherInv(s) && id < s.registry.nextId && Served(s, id) && !l.WatcherMoves?
    requires View(s.registry, id).owed ==> View(s.registry, id).attached
    ensures Served(Next(s, l), id)
    ensures View(Next(s, l).registry, id).owed ==> View(Next(s, l).registry, id).attached
  {
    hide Step, View, ToldTo, SaysLast, Takes, Queued;
    ClientMoves(s, l, id);
    if SaysLast(s.history, ToldTo(s, id), Common(s)) {
      SaysLastStands(s, l, ToldTo(s, id), Common(s));
    }
  }

  /** So does a step of the watcher that sends nothing. */
  lemma ServedByReads(s: Watch, id: nat)
    requires WatcherInv(s) && id < s.registry.nextId && Served(s, id) && Effect(s, WatcherMoves).None?
    requires s.place.Seeding? ==> View(s.registry, id).attached ==> View(s.registry, id).owed
    ensures Served(Next(s, WatcherMoves), id)
  {
    hide Step, ToldTo, View;
    ClientMoves(s, WatcherMoves, id);
  }

  /** And one that does. */
  lemma ServedBySends(s: Watch, id: nat)
    requires WatcherInv(s) && id < s.registry.nextId && Served(s, id) && Effect(s, WatcherMoves).Some?
    requires View(s.registry, id).owed ==> View(s.registry, id).attached
    ensures Served(Next(s, WatcherMoves), id)
    ensures View(Next(s, WatcherMoves).registry, id).owed ==> View(Next(s, WatcherMoves).registry, id).attached
  {
    hide Step, ToldTo, Queued, Takes;
    ClientMoves(s, WatcherMoves, id);
    OwedIdsAre(s.registry.clients);
  }

  lemma ServedByWatcher(s: Watch, id: nat)
    requires WatcherInv(s) && id < s.registry.nextId && Served(s, id)
    requires s.place.Seeding? ==> View(s.registry, id).attached ==> View(s.registry, id).owed
    requires View(s.registry, id).owed ==> View(s.registry, id).attached
    ensures Served(Next(s, WatcherMoves), id)
    ensures View(Next(s, WatcherMoves).registry, id).owed ==> View(Next(s, WatcherMoves).registry, id).attached
  {
    hide Served, View, Next;
    if Effect(s, WatcherMoves).None? {
      NextRegistry(s, WatcherMoves);
      ServedByReads(s, id);
    } else {
      ServedBySends(s, id);
    }
  }

  /** No step loses the wake-up a client is owed. */
  lemma NotForgottenStep(s: Watch, l: Label, id: nat)
    requires WatcherInv(s) && id < s.registry.nextId && NotForgotten(s, id)
    requires View(s.registry, id).owed ==> View(s.registry, id).attached
    ensures NotForgotten(Next(s, l), id)
  {
    hide Step, View, ToldTo, Takes, Queued;
    ClientMoves(s, l, id);
  }

  lemma SeedingStep(s: Watch, l: Label, id: nat)
    requires WatcherInv(s) && id < s.registry.nextId
    requires s.place.Seeding? ==> ToldTo(s, id) == [] && (View(s.registry, id).attached ==> View(s.registry, id).owed)
    ensures Next(s, l).place.Seeding? ==>
              && ToldTo(Next(s, l), id) == []
              && (View(Next(s, l).registry, id).attached ==> View(Next(s, l).registry, id).owed)
  {
    hide Step, View, ToldTo, Takes, Queued;
    ClientMoves(s, l, id);
  }

  lemma WatcherInvStep(s: Watch, l: Label)
    requires WatcherInv(s)
    ensures WatcherInv(Next(s, l))
    ensures s.registry.nextId <= Next(s, l).registry.nextId <= s.registry.nextId + 1
    ensures Next(s, l).registry.nextId > s.registry.nextId ==> l.Attach? && |s.registry.clients| < l.capacity
  {
    hide WellFormed;
    if Effect(s, l).Some? {
      StepKeepsWellFormed(s.registry, Effect(s, l).value);
    }
    NextIdMoves(s, l);
  }

  lemma NextIdMoves(s: Watch, l: Label)
    requires Ready(s)
    ensures Next(s, l).registry.nextId ==
            s.registry.nextId + if l.Attach? && |s.registry.clients| < l.capacity then 1 else 0
  {
  }

  /** A client just admitted is owed a set, and its connection thread is about to wake the watcher. */
  lemma AdmittedInv(s: Watch, l: Label)
    requires WatcherInv(s) && l.Attach? && |s.registry.clients| < l.capacity
    ensures ClientInv(Next(s, l), s.registry.nextId)
  {
    var op: Op<Note> := TryConnect(l.capacity);
    AdmittedView(s.registry, op);
    assert View(Next(s, l).registry, s.registry.nextId) == Solo(true, true, FreshChannel());
    assert Everything(FreshChannel<Note>()) == [];
  }

  lemma InvStep(s: Watch, l: Label)
    requires Inv(s)
    ensures Inv(Next(s, l))
  {
    WatcherInvStep(s, l);
    var next := Next(s, l);
    forall id: nat | id < next.registry.nextId ensures ClientInv(next, id) {
      if id == s.registry.nextId {
        AdmittedInv(s, l);
      } else {
        ClientInvStep(s, l, id);
      }
    }
  }

  lemma ClientInvStep(s: Watch, l: Label, id: nat)
    requires WatcherInv(s) && id < s.registry.nextId && ClientInv(s, id)
    ensures ClientInv(Next(s, l), id)
  {
    hide Next, ToldTo, View, Served, NotForgotten, InOrder;
    InOrderStep(s, l, id);
    if l.WatcherMoves? {
      ServedByWatcher(s, id);
    } else {
      ServedByOthers(s, l, id);
    }
    NotForgottenStep(s, l, id);
    SeedingStep(s, l, id);
  }

  /**
    In every reachable state each attached client is owed a set, is about to be sent
    one, or last got the one everybody has; what it was sent is in order, read by read; and
    if it is owed one, a wake-up is coming or a pass that will serve it is under way.
   */
  lemma {:induction false} EveryoneServed(h: History, labels: seq<Label>)
    requires NonEmpty(h)
    ensures Inv(Run(h, labels))
  {
    if labels == [] {
      assert Init(h).registry.nextId == 0;
    } else {
      var n := |labels| - 1;
      EveryoneServed(h, labels[..n]);
      InvStep(Run(h, labels[..n]), labels[n]);
    }
  }

  // ------------------------------------------------------------ a quiet pass

  predicate Changes(l: Label) {
    l.SetCatalog? || l.SetStored? || l.SetAccent?
  }

  ghost function RunFrom(s: Watch, labels: seq<Label>): (end: Watch)
    requires Ready(s)
    ensures Ready(end)
  {
    if labels == [] then s else Next(RunFrom(s, labels[..|labels| - 1]), labels[|labels| - 1])
  }

  /** The reads made before this one are of the session as it stands. */
  ghost predicate SoFar(h: History, t: Stamp, read: Read)
    requires NonEmpty(h)
  {
    var now := Latest(h);
    !read.ReadList? ==>
      && t.list == now.list
      && (!read.ReadStored? ==> t.stored == now.stored)
      && (read.ReadFirst? && h.stored[now.stored].Some? ==> t.lookup == now.lookup)
      && (read.ReadAccent? ==> t.lookup == now.lookup && t.first == now.first)
  }

  /** The reads of the pass under way that have been made are of the session as it stands. */
  ghost predicate ReadSoFar(s: Watch)
    requires Ready(s)
  {
    && (s.place.Reading? ==> SoFar(s.history, s.current, s.place.read))
    && (s.place.Announce? || s.place.Record? || s.place.TakeOwedSets? || s.place.Sending? ==>
        s.current == Latest(s.history))
  }

  /** Whether the pass under way has already dealt with whoever was attached when it began. */
  predicate DealtWith(s: Watch, start: nat) {
    s.passes > start || s.place.Record? || s.place.Sending?
  }

  /** What holds of the watcher during a pass over a session that stands still. */
  ghost predicate QuietWatcher(s: Watch, h: History, start: nat) {
    && WatcherInv(s)
    && s.history == h
    && s.passes >= start
    && !s.place.Seeding?
    && ReadSoFar(s)
    && (s.passes > start ==> ValueAt(h, s.told) == ValueAt(h, Latest(h)) && !s.place.Announce? && !s.place.Record?)
  }

  /** What holds of a client attached before the pass began. */
  ghost predicate QuietClient(s: Watch, id: nat, start: nat)
    requires Ready(s)
  {
    DealtWith(s, start) && View(s.registry, id).attached ==>
      SaysLast(s.history, ToldTo(s, id), Latest(s.history)) || (s.passes == start && id in s.unsent)
  }

  lemma QuietWatcherStep(s: Watch, l: Label, h: History, start: nat)
    requires QuietWatcher(s, h, start) && !Changes(l)
    ensures QuietWatcher(Next(s, l), h, start)
  {
    hide WellFormed, Step;
    WatcherInvStep(s, l);
  }

  lemma QuietClientStep(s: Watch, l: Label, h: History, start: nat, id: nat)
    requires QuietWatcher(s, h, start) && !Changes(l)
    requires id < s.registry.nextId && ClientInv(s, id) && QuietClient(s, id, start)
    ensures QuietClient(Next(s, l), id, start)
  {
    hide Next, QuietWatcher, QuietClient;
    if l.WatcherMoves? {
      QuietClientSent(s, h, start, id);
    } else {
      QuietClientKept(s, l, h, start, id);
    }
  }

  lemma QuietClientKept(s: Watch, l: Label, h: History, start: nat, id: nat)
    requires QuietWatcher(s, h, start) && !Changes(l) && !l.WatcherMoves?
    requires id < s.registry.nextId && QuietClient(s, id, start)
    ensures QuietClient(Next(s, l), id, start)
  {
    hide Step, View, ToldTo, Takes, Queued, WellFormed, SaysLast;
    ClientMoves(s, l, id);
  }

  lemma QuietClientSent(s: Watch, h: History, start: nat, id: nat)
    requires QuietWatcher(s, h, start)
    requires id < s.registry.nextId && Served(s, id) && QuietClient(s, id, start)
    ensures QuietClient(Next(s, WatcherMoves), id, start)
  {
    hide Step, ToldTo, Queued, Takes, WellFormed;
    ClientMoves(s, WatcherMoves, id);
    OwedIdsAre(s.registry.clients);
  }

  /**
    Once the session stops changing, one full pass of the watcher leaves every client
    that was attached before it, and still is, with the session as it stands.
   */
  lemma {:induction false} QuietPass(s: Watch, labels: seq<Label>, id: nat)
    requires Inv(s) && s.place.Waiting? && id < s.registry.nextId
    requires forall i :: 0 <= i < |labels| ==> !Changes(labels[i])
    ensures var end := RunFrom(s, labels);
            && Inv(end)
            && id < end.registry.nextId
            && QuietWatcher(end, s.history, s.passes)
            && QuietClient(end, id, s.passes)
  {
    if labels != [] {
      var n := |labels| - 1;
      QuietPass(s, labels[..n], id);
      var before := RunFrom(s, labels[..n]);
      InvStep(before, labels[n]);
      WatcherInvStep(before, labels[n]);
      QuietWatcherStep(before, labels[n], s.history, s.passes);
      QuietClientStep(before, labels[n], s.history, s.passes, id);
    }
  }

  /** The same, said of the moment the pass is over. */
  lemma LatestAfterPass(s: Watch, labels: seq<Label>, id: nat)
    requires Inv(s) && s.place.Waiting? && id < s.registry.nextId
    requires forall i :: 0 <= i < |labels| ==> !Changes(labels[i])
    requires RunFrom(s, labels).passes > s.passes
    ensures var end := RunFrom(s, labels);
            View(end.registry, id).attached ==>
              end.history == s.history && SaysLast(s.history, ToldTo(end, id), Latest(s.history))
  {
    QuietPass(s, labels, id);
  }
}
