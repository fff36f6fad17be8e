/**
  When a set the watcher sends is a state the session was really in. Its reads are made one
  after the other while the session moves, so it need not be one. The condition is about
  the reads: that all of them saw one moment. A set whose reads did not may still happen to
  say what some moment showed, where a value came back or did not matter.
 */
module SetMoments {
  import opened Bytes
  import opened Session
  import opened SessionWatch
  import AC = AttachedClients

  ghost predicate NoLater(a: Moment, b: Moment) {
    a.catalog <= b.catalog && a.stored <= b.stored && a.accent <= b.accent
  }

  /** The moments are all different, in order, and the last is the present. */
  ghost predicate Dated(h: History) {
    && NonEmpty(h)
    && h.moments != []
    && h.moments[|h.moments| - 1] == Present(h)
    && forall i, j :: 0 <= i < j < |h.moments| ==> NoLater(h.moments[i], h.moments[j]) && h.moments[i] != h.moments[j]
  }

  lemma MomentsArePast(h: History, m: Moment)
    requires Dated(h) && m in h.moments
    ensures NoLater(m, Present(h))
  {
  }

  lemma DatedStep(s: Watch, l: Label)
    requires Ready(s) && Dated(s.history)
    ensures Dated(Next(s, l).history)
    ensures forall m :: m in Next(s, l).history.moments <==>
              m in s.history.moments || m == Present(Next(s, l).history)
  {
    hide AC.Step, ReadOne;
    var h, next := s.history, Next(s, l).history;
    if Changes(l) {
      assert next.moments == h.moments + [Present(next)];
      forall m | m in h.moments
        ensures NoLater(m, Present(next)) && m != Present(next)
      {
        MomentsArePast(h, m);
      }
    }
  }

  lemma {:induction false} RunDated(h: History, labels: seq<Label>)
    requires Dated(h)
    ensures Dated(Run(h, labels).history)
  {
    if labels != [] {
      hide Next, Dated;
      RunDated(h, labels[..|labels| - 1]);
      DatedStep(Run(h, labels[..|labels| - 1]), labels[|labels| - 1]);
    }
  }

  // ----------------------------------------------------------- torn passes

  /** A pass that has made all its reads and may send them. */
  predicate HasRead(p: Place) {
    p.Announce? || p.Record? || p.TakeOwedSets? || p.Sending?
  }

  /** Whether a change is to a variable the pass at this place has read. */
  predicate ChangesRead(p: Place, l: Label) {
    && p.Reading?
    && ((l.SetCatalog? && !p.read.ReadList?) || (l.SetStored? && !p.read.ReadList? && !p.read.ReadStored?))
  }

  /** And whether to one it is yet to read, or to read again: the focus is looked up in the catalog. */
  predicate ChangesUnread(p: Place, l: Label) {
    && p.Reading?
    && ((l.SetCatalog? && !p.read.ReadAccent?)
        || (l.SetStored? && (p.read.ReadList? || p.read.ReadStored?))
        || l.SetAccent?)
  }

  predicate StartsPass(p: Place, l: Label) {
    l.WatcherMoves? && p.Waiting?
  }

  /** A variable has changed since the pass under way read it, while it was still reading. */
  ghost predicate Overtaken(h: History, labels: seq<Label>)
    requires NonEmpty(h)
  {
    && labels != []
    && var init, last := labels[..|labels| - 1], labels[|labels| - 1];
       var place := Run(h, init).place;
       !StartsPass(place, last) && (Overtaken(h, init) || ChangesRead(place, last))
  }

  /** With that change or after it, a variable changed that it had yet to read. */
  ghost predicate Torn(h: History, labels: seq<Label>)
    requires NonEmpty(h)
  {
    && labels != []
    && var init, last := labels[..|labels| - 1], labels[|labels| - 1];
       var place := Run(h, init).place;
       && !StartsPass(place, last)
       && (Torn(h, init) || (ChangesUnread(place, last) && (Overtaken(h, init) || ChangesRead(place, last))))
  }

  /** The reads made so far, and those to come if nothing changes any more, see one moment. */
  ghost predicate Hopeful(s: Watch)
    requires Ready(s)
  {
    var now, t := Present(s.history), s.current;
    match s.place
    case Reading(read) =>
      (match read
       case ReadList => true
       case ReadStored => t.list == now.catalog
       case ReadLookup => t.list == now.catalog && Moment(t.list, t.stored, now.accent) in s.history.moments
       case ReadFirst =>
         && t.list == now.catalog && Moment(t.list, t.stored, now.accent) in s.history.moments
         && (s.history.stored[t.stored].Some? ==> t.lookup == t.list)
       case ReadAccent =>
         t.list == t.lookup == t.first && Moment(t.list, t.stored, now.accent) in s.history.moments)
    case _ => OneMoment(s.history, t)
  }

  /** Some variable the pass has read is no longer what it was. */
  ghost predicate Behind(s: Watch)
    requires Ready(s) && s.place.Reading?
  {
    var now, t, read := Present(s.history), s.current, s.place.read;
    || (!read.ReadList? && t.list != now.catalog)
    || (!read.ReadList? && !read.ReadStored? && t.stored != now.stored)
  }

  /** Reads see values no newer than the present, and the catalog in order. */
  ghost predicate InStep(s: Watch)
    requires Ready(s)
  {
    var now, t := Present(s.history), s.current;
    && t.list <= now.catalog && t.stored <= now.stored && t.lookup <= now.catalog && t.first <= now.catalog
    && t.accent <= now.accent
    && (s.place.Reading? && s.place.read.ReadFirst? && s.history.stored[t.stored].Some? ==> t.list <= t.lookup)
    && ((s.place.Reading? && s.place.read.ReadAccent?) || HasRead(s.place) ==> t.list <= t.lookup <= t.first)
  }

  ghost predicate TearInv(s: Watch, overtaken: bool, torn: bool)
    requires Ready(s)
  {
    && InStep(s)
    && (s.place.Reading? ==> (overtaken <==> Behind(s)) && (torn ==> overtaken))
    && (s.place.Reading? || HasRead(s.place) ==> (Hopeful(s) <==> !torn))
  }

  /** An old moment that was not gone through will not be. */
  lemma MomentStays(s: Watch, l: Label, m: Moment)
    requires Ready(s) && Dated(s.history) && Changes(l) && NoLater(m, Present(s.history))
    ensures m in Next(s, l).history.moments <==> m in s.history.moments
  {
    DatedStep(s, l);
  }

  /** And one with a value that is new was only gone through if it is the present. */
  lemma MomentNow(s: Watch, l: Label, m: Moment)
    requires Ready(s) && Dated(s.history) && Changes(l) && !NoLater(m, Present(s.history))
    ensures m in Next(s, l).history.moments <==> m == Present(Next(s, l).history)
  {
    DatedStep(s, l);
    if m in s.history.moments {
      MomentsArePast(s.history, m);
    }
  }

  lemma TearByChange(s: Watch, l: Label, overtaken: bool, torn: bool)
    requires Ready(s) && Dated(s.history) && TearInv(s, overtaken, torn) && Changes(l)
    ensures TearInv(Next(s, l), overtaken || ChangesRead(s.place, l),
                    torn || (ChangesUnread(s.place, l) && (overtaken || ChangesRead(s.place, l))))
  {
    hide Dated;
    var now, t := Present(s.history), s.current;
    MomentStays(s, l, Moment(t.list, t.stored, t.accent));
    MomentStays(s, l, Moment(t.list, t.stored, now.accent));
    if l.SetAccent? {
      MomentNow(s, l, Moment(t.list, t.stored, now.accent + 1));
    }
  }

  lemma TearByOthers(s: Watch, l: Label, overtaken: bool, torn: bool)
    requires Ready(s) && Dated(s.history) && TearInv(s, overtaken, torn) && !Changes(l) && !l.WatcherMoves?
    ensures TearInv(Next(s, l), overtaken, torn)
  {
    hide AC.Step, Dated, Hopeful, Behind;
    SamePass(s, Next(s, l));
  }

  lemma SamePass(s: Watch, next: Watch)
    requires Ready(s) && Ready(next)
    requires s.history == next.history && s.place == next.place && s.current == next.current
    ensures Hopeful(s) <==> Hopeful(next)
    ensures s.place.Reading? ==> (Behind(s) <==> Behind(next))
  {
  }

  lemma TearByRead(s: Watch, overtaken: bool, torn: bool)
    requires Ready(s) && Dated(s.history) && TearInv(s, overtaken, torn) && s.place.Reading?
    ensures TearInv(Next(s, WatcherMoves), overtaken, torn)
  {
    hide AC.Step;
    assert Present(s.history) in s.history.moments;
  }

  lemma TearByWatcher(s: Watch, overtaken: bool, torn: bool)
    requires Ready(s) && Dated(s.history) && TearInv(s, overtaken, torn)
    requires !s.place.Waiting? && !s.place.Reading?
    ensures TearInv(Next(s, WatcherMoves), overtaken, torn)
  {
    hide AC.Step, ReadOne, Dated;
  }

  lemma TearByStart(s: Watch, l: Label)
    requires Ready(s) && InStep(s) && StartsPass(s.place, l)
    ensures TearInv(Next(s, l), false, false)
  {
    hide AC.Step, ReadOne;
  }

  lemma {:induction false} RunTear(h: History, labels: seq<Label>)
    requires Dated(h)
    ensures TearInv(Run(h, labels), Overtaken(h, labels), Torn(h, labels))
  {
    if labels != [] {
      hide Next, Hopeful, Behind, InStep, Dated, ReadOne;
      var init, last := labels[..|labels| - 1], labels[|labels| - 1];
      RunTear(h, init);
      RunDated(h, init);
      var s, overtaken, torn := Run(h, init), Overtaken(h, init), Torn(h, init);
      if StartsPass(s.place, last) {
        TearByStart(s, last);
      } else if Changes(last) {
        TearByChange(s, last, overtaken, torn);
      } else if !last.WatcherMoves? {
        TearByOthers(s, last, overtaken, torn);
      } else if s.place.Reading? {
        TearByRead(s, overtaken, torn);
      } else {
        TearByWatcher(s, overtaken, torn);
      }
    }
  }

  // --------------------------------------------------------------- results

  /**
    In every run, the reads behind a set sent to a client saw one moment of the session
    exactly if the pass was not torn: no variable changed after it was read with a
    variable still to be read, the same or another, changing then or later. So without a
    tear the client is shown what the session showed at that moment.
   */
  lemma SentSetIsMomentExactly(h: History, labels: seq<Label>, l: Label, id: nat)
    requires Dated(h) && id < Run(h, labels).registry.nextId
    requires ToldTo(Next(Run(h, labels), l), id) != ToldTo(Run(h, labels), id)
    ensures var s := Run(h, labels);
            && ToldTo(Next(s, l), id) == ToldTo(s, id) + [s.current]
            && (OneMoment(s.history, s.current) <==> !Torn(h, labels))
            && (!Torn(h, labels) ==>
                var m := Moment(s.current.list, s.current.stored, s.current.accent);
                m in s.history.moments && ValueAt(s.history, s.current) == ShownAt(s.history, m))
  {
    hide Next, AC.Step, AC.View, Gains, ToldTo, Torn, Overtaken, ValueAt, ShownAt;
    EveryoneServed(h, labels);
    RunTear(h, labels);
    var s := Run(h, labels);
    ClientMoves(s, l, id);
    GainsSet(s, l, id);
    GainsCurrent(s, l, id);
    if !Torn(h, labels) {
      OneMomentShows(s.history, s.current);
    }
  }

  /** Only a pass that has made all its reads sends sets. */
  lemma GainsSet(s: Watch, l: Label, id: nat)
    requires Effect(s, l).Some? && Gains(AC.View(s.registry, id), id, Effect(s, l).value) != []
    ensures l.WatcherMoves? && HasRead(s.place)
  {
  }

  /** Whether a set was read at the moment with that number. */
  ghost predicate ReadAt(h: History, t: Stamp, p: nat) {
    && p < |h.moments| && t.list == t.lookup == t.first
    && h.moments[p] == Moment(t.list, t.stored, t.accent)
  }

  /** Sets that are moments reach each client in the order the session went through them. */
  lemma MomentsArriveInOrder(h: History, labels: seq<Label>, id: nat, i: nat, j: nat, p: nat, q: nat)
    requires Dated(h) && id < Run(h, labels).registry.nextId
    requires i <= j < |ToldTo(Run(h, labels), id)|
    requires ReadAt(Run(h, labels).history, ToldTo(Run(h, labels), id)[i], p)
    requires ReadAt(Run(h, labels).history, ToldTo(Run(h, labels), id)[j], q)
    ensures p <= q
  {
    hide ToldTo, Run;
    EveryoneServed(h, labels);
    RunDated(h, labels);
    var s := Run(h, labels);
    assert ClientInv(s, id);
    assert i < j ==> NotAfter(ToldTo(s, id)[i], ToldTo(s, id)[j]);
  }

  // ------------------------------------------------------------ torn sets

  /** The session as it starts: these repositories, this stored focus, the first accent. */
  function Origin(served: Catalog, stored: Option<nat>): History {
    History([served], [stored], [0], [Moment(0, 0, 0)])
  }

  lemma RunTo(h: History, labels: seq<Label>, k: nat)
    requires NonEmpty(h) && k < |labels|
    ensures Run(h, labels[..k + 1]) == Next(Run(h, labels[..k]), labels[k])
  {
    assert labels[..k + 1][..k] == labels[..k];
  }

  lemma StartOf(h: History)
    requires NonEmpty(h)
    ensures Run(h, []) == Init(h)
  {
  }

  /** The watcher with one client admitted, at some place of its loop. */
  ghost function Midway(place: Place, history: History, current: Stamp): Watch {
    Watch(history, AC.Step(AC.EmptyRegistry(), AC.TryConnect(1)), place, NO_READS, current, [], false, {0}, 0)
  }

  lemma MidwayReads(h: History, t: Stamp, read: Read)
    requires NonEmpty(h) && InRange(h, t)
    ensures var p := ReadOne(h, t, read);
            Next(Midway(Reading(read), h, t), WatcherMoves) ==
            Midway(if p.next.Some? then Reading(p.next.value)
                   else if ValueAt(h, NO_READS) != ValueAt(h, p.stamp) then Announce else TakeOwedSets,
                   h, p.stamp)
  {
    hide AC.Step, ReadOne, ValueAt;
  }

  lemma MidwaySeeds(h: History, read: Read)
    requires NonEmpty(h) && ReadOne(h, NO_READS, read).stamp == NO_READS
    ensures var p := ReadOne(h, NO_READS, read);
            Next(Midway(Seeding(read), h, NO_READS), WatcherMoves) ==
            Midway(if p.next.Some? then Seeding(p.next.value) else Waiting, h, NO_READS)
  {
    hide AC.Step, ReadOne;
  }

  lemma MidwayMoves(place: Place, h: History, t: Stamp, served: Catalog, path: Option<nat>)
    requires NonEmpty(h) && InRange(h, t)
    ensures place.Waiting? ==> Next(Midway(place, h, t), WatcherMoves) == Midway(Reading(ReadList), h, t)
    ensures Next(Midway(place, h, t), SetCatalog(served)) == Midway(place, Served(h, served), t)
    ensures Next(Midway(place, h, t), SetStored(path)) == Midway(place, Stored(h, path), t)
  {
    hide AC.Step, ReadOne;
  }

  ghost function Served(h: History, served: Catalog): (after: History)
    requires NonEmpty(h)
    ensures NonEmpty(after)
  {
    Entered(h.(catalogs := h.catalogs + [served]))
  }

  ghost function Stored(h: History, path: Option<nat>): (after: History)
    requires NonEmpty(h)
    ensures NonEmpty(after)
  {
    Entered(h.(stored := h.stored + [path]))
  }

  lemma FirstAttaches(h: History)
    requires NonEmpty(h)
    ensures Next(Init(h), Attach(1)) == Midway(Seeding(ReadList), h, NO_READS)
  {
    hide AC.Step;
  }

  /** A client attaches, the watcher seeds what it has told, begins a pass and reads the list. */
  const BEGINNING: seq<Label> :=
    [Attach(1), WatcherMoves, WatcherMoves, WatcherMoves, WatcherMoves, WatcherMoves, WatcherMoves]

  lemma Begins(labels: seq<Label>, served: Catalog, path: nat)
    requires BEGINNING <= labels && IdOf(served, path).Some?
    ensures var h := Origin(served, Some(path));
            Run(h, labels[..7]) == Midway(Reading(ReadStored), h, NO_READS)
  {
    hide Run, AC.Step, IdOf, Next, Midway;
    var h := Origin(served, Some(path));
    StartOf(h);
    assert labels[..0] == [];
    assert forall k :: 0 <= k < 7 ==> labels[k] == BEGINNING[k];
    RunTo(h, labels, 0);
    FirstAttaches(h);
    RunTo(h, labels, 1);
    MidwaySeeds(h, ReadList);
    RunTo(h, labels, 2);
    MidwaySeeds(h, ReadStored);
    RunTo(h, labels, 3);
    MidwaySeeds(h, ReadLookup);
    RunTo(h, labels, 4);
    MidwaySeeds(h, ReadAccent);
    RunTo(h, labels, 5);
    MidwayMoves(Waiting, h, NO_READS, served, None);
    RunTo(h, labels, 6);
    MidwayReads(h, NO_READS, ReadList);
  }

  /** Two repositories, the first in front. The list is read; the first is closed; the second is in front. */
  const BOTH: Catalog := [Entry(1, 1), Entry(2, 2)]

  const CLOSING: seq<Label> := BEGINNING + [SetCatalog([Entry(2, 2)])] + seq(4, _ => WatcherMoves)

  const CLOSED := History([BOTH, [Entry(2, 2)]], [Some(1)], [0], [Moment(0, 0, 0), Moment(1, 0, 0)])

  lemma ClosingReads()
    ensures Run(Origin(BOTH, Some(1)), CLOSING) == Midway(Announce, CLOSED, Stamp(0, 0, 1, 1, 0))
  {
    hide Run, AC.Step, Next, Midway;
    var h := Origin(BOTH, Some(1));
    var left := CLOSED.catalogs[1];
    assert IdOf(left, 1) == IdOf(left[1..], 1) == IdOf([], 1) == None;
    Begins(CLOSING, BOTH, 1);
    RunTo(h, CLOSING, 7);
    MidwayMoves(Reading(ReadStored), h, NO_READS, left, None);
    assert Served(h, left) == CLOSED;
    RunTo(h, CLOSING, 8);
    MidwayReads(CLOSED, NO_READS, ReadStored);
    RunTo(h, CLOSING, 9);
    MidwayReads(CLOSED, NO_READS, ReadLookup);
    RunTo(h, CLOSING, 10);
    MidwayReads(CLOSED, Stamp(0, 0, 1, 0, 0), ReadFirst);
    RunTo(h, CLOSING, 11);
    MidwayReads(CLOSED, Stamp(0, 0, 1, 1, 0), ReadAccent);
    assert CLOSING[..12] == CLOSING;
  }

  /** What the client is told when the pass announces its set. */
  lemma Announces(history: History, current: Stamp)
    requires Ready(Midway(Announce, history, current))
    ensures ToldTo(Next(Midway(Announce, history, current), WatcherMoves), 0) == [current]
    ensures Next(Midway(Announce, history, current), WatcherMoves).history == history
  {
    hide AC.Step, AC.Everything, Sets;
    FreshView();
    var s := Midway(Announce, history, current);
    ClientMoves(s, WatcherMoves, 0);
    assert AC.View(s.registry, 0) == AC.Solo(true, true, AC.FreshChannel());
    assert ToldTo(s, 0) == [];
  }

  lemma FreshView()
    ensures var r: AC.Registry<Note> := AC.Step(AC.EmptyRegistry(), AC.TryConnect(1));
            && AC.WellFormed(r) && r.nextId == 1
            && AC.View(r, 0) == AC.Solo(true, true, AC.FreshChannel())
            && Sets(AC.Everything(AC.View(r, 0).ch)) == []
  {
    var op: AC.Op<Note> := AC.TryConnect(1);
    AC.StepKeepsWellFormed(AC.EmptyRegistry(), op);
    AC.AdmittedView(AC.EmptyRegistry(), op);
    assert AC.Everything(AC.FreshChannel<Note>()) == [];
  }

  /**
    One change between two reads is enough: closing the repository in front moves list and
    focus at once, and a client is sent the old list with the new focus, a state the session
    never was in.
   */
  lemma TornSetIsSent()
    ensures var s := Run(Origin(BOTH, Some(1)), CLOSING + [WatcherMoves]);
            && s.history == CLOSED
            && ToldTo(s, 0) == [Stamp(0, 0, 1, 1, 0)]
            && ValueAt(CLOSED, Stamp(0, 0, 1, 1, 0)) == Shown(BOTH, Some(2), 0)
            && forall m :: m in CLOSED.moments ==> Happened(CLOSED, m) && ShownAt(CLOSED, m) != Shown(BOTH, Some(2), 0)
  {
    hide Run, AC.Step, ToldTo, Next;
    ClosingReads();
    var all := CLOSING + [WatcherMoves];
    assert all[..12] == CLOSING && all[..13] == all;
    RunTo(Origin(BOTH, Some(1)), all, 12);
    Announces(CLOSED, Stamp(0, 0, 1, 1, 0));
    assert ShownAt(CLOSED, Moment(0, 0, 0)).focus == Some(1);
    assert ShownAt(CLOSED, Moment(1, 0, 0)).list == [Entry(2, 2)];
  }

  /** Three repositories, the last in front. Its path is read; the second is put in front; the last is closed. */
  const THREE: Catalog := [Entry(3, 3), Entry(1, 1), Entry(2, 2)]

  const SWITCHING: seq<Label> :=
    BEGINNING + [WatcherMoves, SetStored(Some(1)), SetCatalog([Entry(3, 3), Entry(1, 1)])] + seq(3, _ => WatcherMoves)

  const SWITCHED := History([THREE, [Entry(3, 3), Entry(1, 1)]], [Some(2), Some(1)], [0],
                            [Moment(0, 0, 0), Moment(0, 1, 0), Moment(1, 1, 0)])

  lemma SwitchingReads()
    ensures Run(Origin(THREE, Some(2)), SWITCHING) == Midway(Announce, SWITCHED, Stamp(0, 0, 1, 1, 0))
  {
    hide Run, AC.Step, Next, Midway, Served, Stored, IdOf;
    var h := Origin(THREE, Some(2));
    SwitchedIds();
    Begins(SWITCHING, THREE, 2);
    RunTo(h, SWITCHING, 7);
    MidwayReads(h, NO_READS, ReadStored);
    RunTo(h, SWITCHING, 8);
    MidwayMoves(Reading(ReadLookup), h, NO_READS, THREE, Some(1));
    RunTo(h, SWITCHING, 9);
    MidwayMoves(Reading(ReadLookup), Stored(h, Some(1)), NO_READS, SWITCHED.catalogs[1], None);
    SwitchedHistory();
    RunTo(h, SWITCHING, 10);
    MidwayReads(SWITCHED, NO_READS, ReadLookup);
    RunTo(h, SWITCHING, 11);
    MidwayReads(SWITCHED, Stamp(0, 0, 1, 0, 0), ReadFirst);
    RunTo(h, SWITCHING, 12);
    MidwayReads(SWITCHED, Stamp(0, 0, 1, 1, 0), ReadAccent);
    assert SWITCHING[..13] == SWITCHING;
  }

  lemma SwitchedHistory()
    ensures Served(Stored(Origin(THREE, Some(2)), Some(1)), SWITCHED.catalogs[1]) == SWITCHED
  {
    var between := Stored(Origin(THREE, Some(2)), Some(1));
    assert between == History([THREE], [Some(2), Some(1)], [0], [Moment(0, 0, 0), Moment(0, 1, 0)]);
  }

  lemma SwitchedIds()
    ensures IdOf(THREE, 2) == Some(2) && IdOf(THREE, 1) == Some(1)
    ensures IdOf(SWITCHED.catalogs[1], 2) == None && IdOf(SWITCHED.catalogs[1], 1) == Some(1)
  {
    var left := SWITCHED.catalogs[1];
    assert IdOf(THREE, 2) == IdOf(THREE[1..], 2) == IdOf(THREE[1..][1..], 2);
    assert IdOf(THREE, 1) == IdOf(THREE[1..], 1);
    assert IdOf(left, 1) == IdOf(left[1..], 1);
    assert IdOf(left, 2) == IdOf(left[1..], 2) == IdOf([], 2);
  }

  /** The focus alone can be one the session never had, because it too takes several reads. */
  lemma FocusNeverHadIsSent()
    ensures var s := Run(Origin(THREE, Some(2)), SWITCHING + [WatcherMoves]);
            && s.history == SWITCHED
            && ToldTo(s, 0) == [Stamp(0, 0, 1, 1, 0)]
            && ValueAt(SWITCHED, Stamp(0, 0, 1, 1, 0)).focus == Some(3)
            && forall m :: m in SWITCHED.moments ==> Happened(SWITCHED, m) && ShownAt(SWITCHED, m).focus != Some(3)
  {
    hide Run, AC.Step, ToldTo, Next;
    SwitchingReads();
    var all := SWITCHING + [WatcherMoves];
    assert all[..13] == SWITCHING && all[..14] == all;
    RunTo(Origin(THREE, Some(2)), all, 13);
    Announces(SWITCHED, Stamp(0, 0, 1, 1, 0));
    SwitchedIds();
  }
}
