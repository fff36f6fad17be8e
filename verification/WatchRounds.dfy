/** That the watcher gets round, and that it has nothing to say where nothing changed. */
module WatchRounds {
  import opened Session
  import opened SessionWatch
  import AC = AttachedClients

  /** The watcher's flag: raised by a poke, taken down as a pass begins; who is owed what when. */
  lemma FlagExactly(s: Watch, id: nat, capacity: nat)
    requires Ready(s)
    ensures Next(s, Poke(id)) == s.(poked := true, pokeDue := s.pokeDue - {id})
    ensures s.place.Waiting? ==> Next(s, WatcherMoves) == s.(poked := false, place := Reading(ReadList))
    ensures |s.registry.clients| >= capacity ==> Next(s, Attach(capacity)) == s
    ensures |s.registry.clients| < capacity ==> Next(s, Attach(capacity)).pokeDue == s.pokeDue + {s.registry.nextId}
    ensures Next(s, AskForSet(id)).pokeDue == s.pokeDue + {id}
  {
  }

  /** So many moves of the watcher. */
  function Moves(n: nat): (labels: seq<Label>)
    ensures |labels| == n && forall i :: 0 <= i < n ==> labels[i] == WatcherMoves
  {
    seq(n, _ => WatcherMoves)
  }

  lemma {:induction false} RunFromFront(s: Watch, l: Label, labels: seq<Label>)
    requires Ready(s)
    ensures RunFrom(s, [l] + labels) == RunFrom(Next(s, l), labels)
  {
    hide Next;
    if labels == [] {
      assert [l] + labels == [l] && [l][..0] == [];
    } else {
      var n := |labels| - 1;
      assert ([l] + labels)[..n + 1] == [l] + labels[..n];
      RunFromFront(s, l, labels[..n]);
    }
  }

  /** How far the pass is from its end. */
  function ToGo(s: Watch): nat {
    match s.place
    case Seeding(_) => 20
    case Waiting => 10
    case Reading(read) =>
      (match read
       case ReadList => 9
       case ReadStored => 8
       case ReadLookup => 7
       case ReadFirst => 6
       case ReadAccent => 5)
    case Announce => 2
    case Record => 1
    case TakeOwedSets => 2
    case Sending => 1
  }

  lemma MovesOn(s: Watch)
    requires Ready(s) && !s.place.Waiting? && !s.place.Seeding?
    ensures var next := Next(s, WatcherMoves);
            || (next.place.Waiting? && next.passes == s.passes + 1)
            || (!next.place.Waiting? && !next.place.Seeding? && next.passes == s.passes
                && (ToGo(next) < ToGo(s) || (ToGo(next) == ToGo(s) && |next.unsent| < |s.unsent|)))
  {
    hide AC.Step, AC.OwedIds;
  }

  lemma {:induction false} PassFinishes(s: Watch) returns (n: nat)
    requires Ready(s) && !s.place.Waiting? && !s.place.Seeding?
    ensures RunFrom(s, Moves(n)).place.Waiting? && RunFrom(s, Moves(n)).passes == s.passes + 1
    decreases ToGo(s), |s.unsent|
  {
    hide Next, ToGo;
    var next := Next(s, WatcherMoves);
    MovesOn(s);
    var rest := 0;
    if !next.place.Waiting? {
      rest := PassFinishes(next);
    } else {
      assert Moves(0) == [];
    }
    n := rest + 1;
    assert Moves(n) == [WatcherMoves] + Moves(rest);
    RunFromFront(s, WatcherMoves, Moves(rest));
  }

  /** From its wait the watcher always gets through a pass by its own moves: it never loops on a client or a read. */
  lemma PassCompletes(s: Watch) returns (n: nat)
    requires Ready(s) && s.place.Waiting?
    ensures RunFrom(s, Moves(n)).place.Waiting? && RunFrom(s, Moves(n)).passes == s.passes + 1
  {
    hide Next;
    FlagExactly(s, 0, 0);
    var rest := PassFinishes(Next(s, WatcherMoves));
    n := rest + 1;
    assert Moves(n) == [WatcherMoves] + Moves(rest);
    RunFromFront(s, WatcherMoves, Moves(rest));
  }

  // --------------------------------------------------------- no news, no set

  /** What the watcher takes itself to have told everyone is the session as it found it. */
  ghost predicate NoNews(s: Watch, h: History)
    requires Ready(s)
  {
    && s.history == h && !s.place.Announce? && !s.place.Record? && ReadSoFar(s)
    && (s.place.Seeding? ==> SoFar(h, s.told, s.place.read))
    && (!s.place.Seeding? ==> s.told == Latest(h))
  }

  lemma NoNewsStep(s: Watch, l: Label, h: History)
    requires Ready(s) && NoNews(s, h) && !Changes(l)
    ensures NoNews(Next(s, l), h)
  {
    hide AC.Step, AC.OwedIds;
  }

  /**
    As long as the session does not change, no arrival, question or departure makes the
    watcher broadcast: a set goes to whoever is owed one and to nobody else.
   */
  lemma {:induction false} NoNewsNoBroadcast(h: History, labels: seq<Label>)
    requires NonEmpty(h) && forall i :: 0 <= i < |labels| ==> !Changes(labels[i])
    ensures NoNews(Run(h, labels), h)
  {
    if labels != [] {
      hide Next, NoNews;
      NoNewsNoBroadcast(h, labels[..|labels| - 1]);
      NoNewsStep(Run(h, labels[..|labels| - 1]), labels[|labels| - 1], h);
    }
  }
}
