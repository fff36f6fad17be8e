/**
  The attached clients of a session. Each has a bounded queue that its own writer
  thread drains; a client whose queue is full is cut off rather than skipped.
 */
module AttachedClients {
  import opened Bytes

  const QUEUE_DEPTH: nat := 256

  /**
    One client's queue and its far end: what the writer has taken so far, whether the
    writer is still there, and whether the socket was shut down for overflowing.
   */
  datatype Channel<F> = Channel(queue: seq<F>, taken: seq<F>, reading: bool, hungUp: bool)

  datatype Attached = Attached(id: nat, owed: bool)

  /** The registry, and every channel it ever handed out. */
  datatype Registry<F> = Registry(clients: seq<Attached>, channels: map<nat, Channel<F>>, nextId: nat)

  function FreshChannel<F>(): Channel<F> {
    Channel([], [], true, false)
  }

  function EmptyRegistry<F>(): Registry<F> {
    Registry([], map[], 0)
  }

  /** Whether a non-blocking send on the channel succeeds. */
  predicate Takes<F>(ch: Channel<F>) {
    ch.reading && |ch.queue| < QUEUE_DEPTH
  }

  /** The channel after an attempt to queue `f`. */
  function Queued<F>(ch: Channel<F>, f: F): Channel<F> {
    if Takes(ch) then ch.(queue := ch.queue + [f])
    else if ch.reading then ch.(hungUp := true)
    else ch
  }

  function QueuedIf<F>(attached: bool, ch: Channel<F>, f: F): Channel<F> {
    if attached then Queued(ch, f) else ch
  }

  /** Everything the channel ever took, in order. */
  function Everything<F>(ch: Channel<F>): seq<F> {
    ch.taken + ch.queue
  }

  ghost predicate IsAttached(clients: seq<Attached>, id: nat) {
    exists i :: 0 <= i < |clients| && clients[i].id == id
  }

  ghost predicate IsOwed(clients: seq<Attached>, id: nat) {
    Attached(id, true) in clients
  }

  ghost predicate Ascending(clients: seq<Attached>) {
    forall i, j :: 0 <= i < j < |clients| ==> clients[i].id < clients[j].id
  }

  ghost predicate WellFormed<F>(r: Registry<F>) {
    && Ascending(r.clients)
    && (forall c :: c in r.clients ==> c.id < r.nextId)
    && (forall id: nat :: id in r.channels <==> id < r.nextId)
  }

  // ----------------------------------------------------------- one operation

  function Connected<F>(r: Registry<F>, capacity: nat): Registry<F> {
    if |r.clients| >= capacity then r
    else Registry(r.clients + [Attached(r.nextId, true)], r.channels[r.nextId := FreshChannel()], r.nextId + 1)
  }

  function Without(clients: seq<Attached>, id: nat): seq<Attached> {
    if clients == [] then []
    else
      var n := |clients| - 1;
      Without(clients[..n], id) + if clients[n].id == id then [] else [clients[n]]
  }

  function Disconnected<F>(r: Registry<F>, id: nat): Registry<F> {
    r.(clients := Without(r.clients, id))
  }

  /** The clients a broadcast reaches, none of them owed anything any more. */
  function Survivors<F>(clients: seq<Attached>, channels: map<nat, Channel<F>>): seq<Attached> {
    if clients == [] then []
    else
      var n := |clients| - 1;
      var id := clients[n].id;
      Survivors(clients[..n], channels) + if id in channels && Takes(channels[id]) then [Attached(id, false)] else []
  }

  ghost function Broadcasted<F>(r: Registry<F>, f: F): Registry<F> {
    r.(clients := Survivors(r.clients, r.channels),
       channels := map id | id in r.channels ::
                   QueuedIf(IsAttached(r.clients, id), r.channels[id], f))
  }

  function Owing(clients: seq<Attached>, id: nat): seq<Attached> {
    seq(|clients|, i requires 0 <= i < |clients| =>
      if clients[i].id == id then Attached(id, true) else clients[i])
  }

  function OweSet<F>(r: Registry<F>, id: nat): Registry<F> {
    r.(clients := Owing(r.clients, id))
  }

  function OwedIds(clients: seq<Attached>): seq<nat> {
    if clients == [] then []
    else
      var n := |clients| - 1;
      OwedIds(clients[..n]) + if clients[n].owed then [clients[n].id] else []
  }

  function Settled(clients: seq<Attached>): seq<Attached> {
    seq(|clients|, i requires 0 <= i < |clients| => Attached(clients[i].id, false))
  }

  function OwedTaken<F>(r: Registry<F>): Registry<F> {
    r.(clients := Settled(r.clients))
  }

  ghost function SentTo<F>(r: Registry<F>, id: nat, f: F): Registry<F> {
    if IsAttached(r.clients, id) && id in r.channels then
      r.(clients := if Takes(r.channels[id]) then r.clients else Without(r.clients, id),
         channels := r.channels[id := Queued(r.channels[id], f)])
    else r
  }

  /** The writer thread of `id` takes the frame at the head of its queue. */
  function WriterTook<F>(r: Registry<F>, id: nat): Registry<F> {
    if id in r.channels && r.channels[id].reading && r.channels[id].queue != [] then
      var ch := r.channels[id];
      r.(channels := r.channels[id := ch.(queue := ch.queue[1..], taken := ch.taken + [ch.queue[0]])])
    else r
  }

  /** The writer thread of `id` ends, because its socket broke. */
  function WriterEnded<F>(r: Registry<F>, id: nat): Registry<F> {
    if id in r.channels then r.(channels := r.channels[id := r.channels[id].(reading := false)]) else r
  }

  // ------------------------------------------------------------ the registry

  class AttachedClients<F> {
    var clients: seq<Attached>
    var channels: map<nat, Channel<F>>
    var nextId: nat

    ghost function State(): Registry<F>
      reads this
    {
      Registry(clients, channels, nextId)
    }

    ghost predicate Valid()
      reads this
    {
      WellFormed(State())
    }

    constructor ()
      ensures Valid() && State() == EmptyRegistry()
    {
      clients, channels, nextId := [], map[], 0;
    }

    method TryConnect(capacity: nat) returns (id: Option<nat>)
      requires Valid()
      modifies this
      ensures Valid() && State() == Connected(old(State()), capacity)
      ensures id == if |old(clients)| < capacity then Some(old(nextId)) else None
    {
      if |clients| >= capacity {
        return None;
      }
      id := Some(nextId);
      channels := channels[nextId := FreshChannel()];
      clients := clients + [Attached(nextId, true)];
      nextId := nextId + 1;
    }

    method Disconnect(id: nat)
      requires Valid()
      modifies this`clients
      ensures Valid() && State() == Disconnected(old(State()), id)
    {
      WithoutKeeps(clients, id);
      clients := RetainOthers(clients, id);
    }

    method Broadcast(f: F)
      requires Valid()
      modifies this
      ensures Valid() && State() == Broadcasted(old(State()), f)
    {
      hide Takes, QueuedIf, Ascending, Survivors;
      BroadcastedWellFormed(State(), f);
      clients, channels := QueueToAll(clients, channels, f);
    }

    method NoteOwed(id: nat)
      requires Valid()
      modifies this`clients
      ensures Valid() && State() == OweSet(old(State()), id)
    {
      var i := Position(clients, id);
      if i < |clients| {
        clients := clients[i := Attached(id, true)];
      }
    }

    method TakeOwedSets() returns (ids: seq<nat>)
      requires Valid()
      modifies this`clients
      ensures Valid() && State() == OwedTaken(old(State()))
      ensures ids == OwedIds(old(clients))
    {
      ids, clients := TakeFlags(clients);
    }

    method SendTo(id: nat, f: F)
      requires Valid()
      modifies this
      ensures Valid() && State() == SentTo(old(State()), id, f)
    {
      hide Takes, Queued, Ascending;
      SentToWellFormed(State(), id, f);
      var i := Position(clients, id);
      if i == |clients| {
        return;
      }
      assert clients[i] in clients;
      var fits := Takes(channels[id]);
      channels := channels[id := Queued(channels[id], f)];
      if !fits {
        WithoutIsRemoval(clients, i);
        clients := clients[..i] + clients[i + 1..];
      }
    }
  }

  /** Where a client stands in the list, or its length when it is not there. */
  method Position(clients: seq<Attached>, id: nat) returns (i: nat)
    ensures i <= |clients|
    ensures i < |clients| ==> clients[i].id == id
    ensures forall j :: 0 <= j < i ==> clients[j].id != id
  {
    i := 0;
    while i < |clients| && clients[i].id != id
      invariant i <= |clients|
      invariant forall j :: 0 <= j < i ==> clients[j].id != id
    {
      i := i + 1;
    }
  }

  method RetainOthers(clients: seq<Attached>, id: nat) returns (kept: seq<Attached>)
    ensures kept == Without(clients, id)
  {
    kept := [];
    var i := 0;
    while i < |clients|
      invariant 0 <= i <= |clients|
      invariant kept == Without(clients[..i], id)
    {
      assert clients[..i + 1][..i] == clients[..i];
      if clients[i].id != id {
        kept := kept + [clients[i]];
      }
      i := i + 1;
    }
    assert clients[..i] == clients;
  }

  method TakeFlags(clients: seq<Attached>) returns (ids: seq<nat>, settled: seq<Attached>)
    ensures ids == OwedIds(clients) && settled == Settled(clients)
  {
    ids, settled := [], clients;
    var i := 0;
    while i < |clients|
      invariant 0 <= i <= |clients| == |settled|
      invariant settled[..i] == Settled(clients)[..i] && settled[i..] == clients[i..]
      invariant ids == OwedIds(clients[..i])
    {
      if clients[i].owed {
        ids := ids + [clients[i].id];
      }
      settled := settled[i := Attached(clients[i].id, false)];
      assert clients[..i + 1][..i] == clients[..i];
      i := i + 1;
    }
    assert clients[..i] == clients;
  }

  /** The loop of one broadcast: each client's own queue decides whether it is kept. */
  method QueueToAll<F>(clients: seq<Attached>, before: map<nat, Channel<F>>, f: F)
    returns (kept: seq<Attached>, channels: map<nat, Channel<F>>)
    requires Ascending(clients) && forall c :: c in clients ==> c.id in before
    ensures kept == Survivors(clients, before)
    ensures channels.Keys == before.Keys
    ensures forall id :: id in before ==> channels[id] == QueuedIf(IsAttached(clients, id), before[id], f)
  {
    hide Queued, Takes, IsAttached;
    kept, channels := [], before;
    var i := 0;
    ghost var reached: set<nat> := {};
    while i < |clients|
      invariant 0 <= i <= |clients|
      invariant kept == Survivors(clients[..i], before)
      invariant channels.Keys == before.Keys
      invariant forall j :: 0 <= j < i ==> clients[j].id in reached
      invariant forall id :: id in reached ==> IsAttached(clients, id)
      invariant i < |clients| ==> forall id :: id in reached ==> id < clients[i].id
      invariant forall id :: id in before ==> channels[id] == QueuedIf(id in reached, before[id], f)
    {
      var id := clients[i].id;
      assert clients[i] in clients;
      AttachedAt(clients, i);
      assert clients[..i + 1][..i] == clients[..i];
      if Takes(channels[id]) {
        kept := kept + [Attached(id, false)];
      }
      channels := channels[id := Queued(channels[id], f)];
      reached := reached + {id};
      i := i + 1;
    }
    assert clients[..i] == clients;
    ReachedAll(clients, reached);
  }

  lemma AttachedAt(clients: seq<Attached>, i: nat)
    requires i < |clients|
    ensures IsAttached(clients, clients[i].id)
  {
  }

  lemma ReachedAll(clients: seq<Attached>, reached: set<nat>)
    requires forall j :: 0 <= j < |clients| ==> clients[j].id in reached
    ensures forall id :: IsAttached(clients, id) ==> id in reached
  {
  }

  lemma AscendingNone()
    ensures Ascending([])
  {
  }

  lemma AscendingInit(clients: seq<Attached>)
    requires Ascending(clients) && clients != []
    ensures Ascending(clients[..|clients| - 1])
    ensures forall c :: c in clients[..|clients| - 1] ==> c.id < clients[|clients| - 1].id
    ensures forall c :: c in clients <==> c in clients[..|clients| - 1] || c == clients[|clients| - 1]
  {
    assert clients == clients[..|clients| - 1] + [clients[|clients| - 1]];
  }

  lemma AscendingSnoc(clients: seq<Attached>, c: Attached)
    requires Ascending(clients) && forall d :: d in clients ==> d.id < c.id
    ensures Ascending(clients + [c])
  {
  }

  /** What removing one id leaves: the others, in the same order. */
  lemma {:induction false} WithoutKeeps(clients: seq<Attached>, id: nat)
    requires Ascending(clients)
    ensures Ascending(Without(clients, id))
    ensures forall c :: c in Without(clients, id) <==> c in clients && c.id != id
    ensures |Without(clients, id)| <= |clients|
  {
    if clients == [] {
      AscendingNone();
    } else {
      var n := |clients| - 1;
      AscendingInit(clients);
      hide Ascending;
      WithoutKeeps(clients[..n], id);
      AscendingSnoc(Without(clients[..n], id), clients[n]);
    }
  }

  lemma {:induction false} WithoutAbsent(clients: seq<Attached>, id: nat)
    requires forall c :: c in clients ==> c.id != id
    ensures Without(clients, id) == clients
  {
    if clients != [] {
      var n := |clients| - 1;
      WithoutAbsent(clients[..n], id);
      assert clients[n] in clients;
    }
  }

  lemma {:induction false} WithoutIsRemoval(clients: seq<Attached>, i: nat)
    requires i < |clients|
    requires Ascending(clients)
    ensures Without(clients, clients[i].id) == clients[..i] + clients[i + 1..]
  {
    var n := |clients| - 1;
    if i == n {
      assert forall c :: c in clients[..n] ==> c.id < clients[n].id;
      WithoutAbsent(clients[..n], clients[n].id);
    } else {
      WithoutIsRemoval(clients[..n], i);
      assert clients[i + 1..] == clients[..n][i + 1..] + [clients[n]];
    }
  }

  lemma {:induction false} SurvivorsKeep<F>(clients: seq<Attached>, channels: map<nat, Channel<F>>)
    requires Ascending(clients)
    ensures Ascending(Survivors(clients, channels))
    ensures forall c :: c in Survivors(clients, channels) <==>
              !c.owed && IsAttached(clients, c.id) && c.id in channels && Takes(channels[c.id])
    ensures |Survivors(clients, channels)| <= |clients|
  {
    if clients == [] {
      AscendingNone();
    } else {
      var n := |clients| - 1;
      var init := clients[..n];
      AscendingInit(clients);
      hide Takes, Ascending;
      SurvivorsKeep(init, channels);
      forall id ensures IsAttached(clients, id) <==> id == clients[n].id || IsAttached(init, id) {
        if IsAttached(init, id) {
          var i :| 0 <= i < |init| && init[i].id == id;
          assert clients[i].id == id;
        }
      }
      forall c | c in Survivors(init, channels) ensures c.id < clients[n].id {
        var i :| 0 <= i < |init| && init[i].id == c.id;
        assert init[i] in init;
      }
      AscendingSnoc(Survivors(init, channels), Attached(clients[n].id, false));
    }
  }

  // -------------------------------------------------------------- whole runs

  datatype Op<F> =
    | TryConnect(capacity: nat)
    | Disconnect(id: nat)
    | Broadcast(f: F)
    | Ask(id: nat)
    | TakeOwed
    | SendTo(id: nat, f: F)
    | WriterTake(id: nat)
    | WriterEnd(id: nat)

  ghost function Step<F>(r: Registry<F>, op: Op<F>): Registry<F> {
    match op
    case TryConnect(capacity) => Connected(r, capacity)
    case Disconnect(id) => Disconnected(r, id)
    case Broadcast(f) => Broadcasted(r, f)
    case Ask(id) => OweSet(r, id)
    case TakeOwed => OwedTaken(r)
    case SendTo(id, f) => SentTo(r, id, f)
    case WriterTake(id) => WriterTook(r, id)
    case WriterEnd(id) => WriterEnded(r, id)
  }

  ghost function Run<F>(ops: seq<Op<F>>): Registry<F> {
    if ops == [] then EmptyRegistry() else Step(Run(ops[..|ops| - 1]), ops[|ops| - 1])
  }

  lemma OwingKeeps(clients: seq<Attached>, id: nat)
    ensures forall i :: IsAttached(Owing(clients, id), i) <==> IsAttached(clients, i)
    ensures forall i :: IsOwed(Owing(clients, id), i) <==> IsOwed(clients, i) || (i == id && IsAttached(clients, id))
    ensures Ascending(clients) ==> Ascending(Owing(clients, id))
  {
    var after := Owing(clients, id);
    forall i ensures IsAttached(after, i) <==> IsAttached(clients, i) {
      if IsAttached(clients, i) {
        var k :| 0 <= k < |clients| && clients[k].id == i;
        assert after[k].id == i;
      }
    }
    forall i ensures IsOwed(after, i) <==> IsOwed(clients, i) || (i == id && IsAttached(clients, id)) {
      if IsOwed(clients, i) {
        var k :| 0 <= k < |clients| && clients[k] == Attached(i, true);
        assert after[k] == Attached(i, true);
      }
      if i == id && IsAttached(clients, id) {
        var k :| 0 <= k < |clients| && clients[k].id == id;
        assert after[k] == Attached(i, true);
      }
    }
  }

  lemma SettledKeeps(clients: seq<Attached>)
    ensures forall i :: IsAttached(Settled(clients), i) <==> IsAttached(clients, i)
    ensures forall i :: !IsOwed(Settled(clients), i)
    ensures Ascending(clients) ==> Ascending(Settled(clients))
  {
    var after := Settled(clients);
    forall i ensures IsAttached(after, i) <==> IsAttached(clients, i) {
      if IsAttached(clients, i) {
        var k :| 0 <= k < |clients| && clients[k].id == i;
        assert after[k].id == i;
      }
    }
  }

  lemma AttachedIn(clients: seq<Attached>)
    ensures forall id :: IsAttached(clients, id) <==> exists c :: c in clients && c.id == id
  {
    forall id | IsAttached(clients, id) ensures exists c :: c in clients && c.id == id {
      var k :| 0 <= k < |clients| && clients[k].id == id;
      assert clients[k] in clients;
    }
  }

  lemma BroadcastedWellFormed<F>(r: Registry<F>, f: F)
    requires WellFormed(r)
    ensures WellFormed(Broadcasted(r, f)) && Broadcasted(r, f).nextId == r.nextId
  {
    hide Takes, QueuedIf, IsAttached, Ascending;
    SurvivorsKeep(r.clients, r.channels);
    AttachedIn(r.clients);
  }

  lemma SentToWellFormed<F>(r: Registry<F>, id: nat, f: F)
    requires WellFormed(r)
    ensures WellFormed(SentTo(r, id, f)) && SentTo(r, id, f).nextId == r.nextId
  {
    hide Takes, Queued, IsAttached, Ascending;
    WithoutKeeps(r.clients, id);
  }

  /** Every operation keeps ids ascending, below the next one, and each with its channel. */
  lemma StepKeepsWellFormed<F>(r: Registry<F>, op: Op<F>)
    requires WellFormed(r)
    ensures WellFormed(Step(r, op))
    ensures r.nextId <= Step(r, op).nextId
  {
    hide Broadcasted, SentTo;
    match op
    case TryConnect(_) =>
    case Disconnect(id) => WithoutKeeps(r.clients, id);
    case Broadcast(f) => BroadcastedWellFormed(r, f);
    case Ask(id) => OwingKeeps(r.clients, id);
    case TakeOwed => SettledKeeps(r.clients);
    case SendTo(id, f) => SentToWellFormed(r, id, f);
    case WriterTake(_) =>
    case WriterEnd(_) =>
  }

  lemma {:induction false} RunWellFormed<F>(ops: seq<Op<F>>)
    ensures WellFormed(Run(ops))
  {
    if ops != [] {
      RunWellFormed(ops[..|ops| - 1]);
      StepKeepsWellFormed(Run(ops[..|ops| - 1]), ops[|ops| - 1]);
    }
  }

  // ------------------------------------------------ one client, on its own

  /** What one client can tell of the registry: its membership and its own channel. */
  datatype Solo<F> = Solo(attached: bool, owed: bool, ch: Channel<F>)

  ghost function View<F>(r: Registry<F>, id: nat): Solo<F> {
    Solo(IsAttached(r.clients, id), IsOwed(r.clients, id), if id in r.channels then r.channels[id] else FreshChannel())
  }

  function Offer<F>(s: Solo<F>, f: F, owed: bool): Solo<F> {
    if s.attached then Solo(Takes(s.ch), owed && Takes(s.ch), Queued(s.ch, f)) else s
  }

  /** One client alone, looking only at what names it or names everybody. */
  function SoloStep<F>(s: Solo<F>, id: nat, op: Op<F>): Solo<F> {
    match op
    case TryConnect(_) => s
    case Disconnect(i) => if i == id then s.(attached := false, owed := false) else s
    case Broadcast(f) => Offer(s, f, false)
    case Ask(i) => if i == id then s.(owed := s.attached) else s
    case TakeOwed => s.(owed := false)
    case SendTo(i, f) => if i == id then Offer(s, f, s.owed) else s
    case WriterTake(i) =>
      if i == id && s.ch.reading && s.ch.queue != []
      then s.(ch := s.ch.(queue := s.ch.queue[1..], taken := s.ch.taken + [s.ch.queue[0]]))
      else s
    case WriterEnd(i) => if i == id then s.(ch := s.ch.(reading := false)) else s
  }

  function SoloRun<F>(id: nat, ops: seq<Op<F>>): Solo<F> {
    if ops == [] then Solo(true, true, FreshChannel())
    else SoloStep(SoloRun(id, ops[..|ops| - 1]), id, ops[|ops| - 1])
  }

  lemma BroadcastedView<F>(r: Registry<F>, id: nat, f: F)
    requires WellFormed(r) && id < r.nextId
    ensures View(Broadcasted(r, f), id) == Offer(View(r, id), f, false)
  {
    hide Takes, Queued, Ascending;
    SurvivorsKeep(r.clients, r.channels);
    var kept := Survivors(r.clients, r.channels);
    AttachedIn(kept);
    assert Attached(id, false) in kept <==> IsAttached(r.clients, id) && Takes(r.channels[id]);
  }

  lemma SentToView<F>(r: Registry<F>, id: nat, to: nat, f: F)
    requires WellFormed(r) && id < r.nextId
    ensures View(SentTo(r, to, f), id) == if to == id then Offer(View(r, id), f, IsOwed(r.clients, id)) else View(r, id)
  {
    hide Takes, Queued, Ascending;
    AttachedIn(r.clients);
    WithoutKeeps(r.clients, to);
    AttachedIn(Without(r.clients, to));
  }

  lemma StepView<F>(r: Registry<F>, id: nat, op: Op<F>)
    requires WellFormed(r) && id < r.nextId
    ensures View(Step(r, op), id) == SoloStep(View(r, id), id, op)
  {
    hide Takes, Queued, Ascending, Broadcasted, SentTo;
    match op
    case TryConnect(_) =>
      AttachedIn(r.clients);
      AttachedIn(Connected(r, op.capacity).clients);
    case Disconnect(i) =>
      AttachedIn(r.clients);
      WithoutKeeps(r.clients, i);
      AttachedIn(Without(r.clients, i));
    case Broadcast(f) => BroadcastedView(r, id, f);
    case Ask(i) => OwingKeeps(r.clients, i);
    case TakeOwed => SettledKeeps(r.clients);
    case SendTo(i, f) => SentToView(r, id, i, f);
    case WriterTake(_) =>
    case WriterEnd(_) =>
  }

  lemma AdmittedView<F>(r: Registry<F>, op: Op<F>)
    requires WellFormed(r) && op.TryConnect? && |r.clients| < op.capacity
    ensures View(Step(r, op), r.nextId) == SoloRun(r.nextId, [])
    ensures Step(r, op).nextId == r.nextId + 1
  {
    assert Step(r, op).clients[|r.clients|] == Attached(r.nextId, true);
  }

  lemma InitOfTail<T>(s: seq<T>, k: nat)
    requires k < |s|
    ensures s[..|s| - 1][k..] == s[k..][..|s| - 1 - k]
    ensures s[k..][|s| - 1 - k] == s[|s| - 1]
  {
  }

  /**
    Isolation: from the operation that admitted a client on, its membership, its owed
    flag and its channel are what they would be if it were the only one there. No
    other client's overflow, writer or departure can reach it.
   */
  lemma {:induction false} Isolation<F>(ops: seq<Op<F>>, k: nat)
    requires k < |ops| && ops[k].TryConnect?
    requires |Run(ops[..k]).clients| < ops[k].capacity
    ensures View(Run(ops), Run(ops[..k]).nextId) == SoloRun(Run(ops[..k]).nextId, ops[k + 1..])
    ensures Run(ops[..k]).nextId < Run(ops).nextId
  {
    hide Step, View, SoloStep, WellFormed;
    var n := |ops| - 1;
    var id := Run(ops[..k]).nextId;
    RunWellFormed(ops[..n]);
    if k == n {
      AdmittedView(Run(ops[..k]), ops[k]);
    } else {
      assert ops[..n][..k] == ops[..k];
      Isolation(ops[..n], k);
      InitOfTail(ops, k + 1);
      StepView(Run(ops[..n]), id, ops[n]);
      StepKeepsWellFormed(Run(ops[..n]), ops[n]);
    }
  }

  function OfferedBy<F>(id: nat, op: Op<F>): seq<F> {
    if op.Broadcast? || (op.SendTo? && op.id == id) then [op.f] else []
  }

  /** Every frame addressed to `id` or to everybody, in order. */
  function Offers<F>(id: nat, ops: seq<Op<F>>): seq<F> {
    if ops == [] then [] else Offers(id, ops[..|ops| - 1]) + OfferedBy(id, ops[|ops| - 1])
  }

  /** What one operation adds to everything a client's channel took. */
  lemma EverythingMoves<F>(s: Solo<F>, id: nat, op: Op<F>)
    ensures Everything(SoloStep(s, id, op).ch) ==
            if OfferedBy(id, op) != [] && s.attached && Takes(s.ch)
            then Everything(s.ch) + OfferedBy(id, op)
            else Everything(s.ch)
  {
    if op.WriterTake? && s.ch.queue != [] {
      assert s.ch.taken + [s.ch.queue[0]] + s.ch.queue[1..] == Everything(s.ch);
    } else if op.Broadcast? || op.SendTo? {
      assert s.ch.taken + (s.ch.queue + [op.f]) == Everything(s.ch) + [op.f];
    }
  }

  /**
    While a client is attached its writer and its queue hold exactly the frames
    offered to it; afterwards they hold a prefix of them. The queue is never deeper
    than its bound, and a client shut down for overflowing is no longer attached.
   */
  ghost predicate CutNotSkipped<F>(s: Solo<F>, offers: seq<F>) {
    && Everything(s.ch) <= offers
    && (s.attached ==> Everything(s.ch) == offers)
    && |s.ch.queue| <= QUEUE_DEPTH
    && (s.ch.hungUp || !s.attached ==> !s.attached && !s.owed)
  }

  lemma CutNotSkippedStep<F>(s: Solo<F>, id: nat, op: Op<F>, offers: seq<F>)
    requires CutNotSkipped(s, offers)
    ensures CutNotSkipped(SoloStep(s, id, op), offers + OfferedBy(id, op))
  {
    EverythingMoves(s, id, op);
    hide Everything;
  }

  /** Cut off, never skipped, after every run. */
  lemma {:induction false} NothingSkipped<F>(id: nat, ops: seq<Op<F>>)
    ensures CutNotSkipped(SoloRun(id, ops), Offers(id, ops))
  {
    if ops != [] {
      var n := |ops| - 1;
      NothingSkipped(id, ops[..n]);
      CutNotSkippedStep(SoloRun(id, ops[..n]), id, ops[n], Offers(id, ops[..n]));
    }
  }

  /** A client leaves for good: it is cut at the first frame that does not fit, or when it detaches. */
  lemma {:induction false} DetachedStays<F>(id: nat, ops: seq<Op<F>>, k: nat)
    requires k <= |ops| && !SoloRun(id, ops[..k]).attached
    ensures !SoloRun(id, ops).attached
    ensures Everything(SoloRun(id, ops).ch) == Everything(SoloRun(id, ops[..k]).ch)
  {
    if k == |ops| {
      assert ops[..k] == ops;
    } else {
      var n := |ops| - 1;
      assert ops[..n][..k] == ops[..k];
      DetachedStays(id, ops[..n], k);
      EverythingMoves(SoloRun(id, ops[..n]), id, ops[n]);
    }
  }

  lemma StepCount<F>(r: Registry<F>, op: Op<F>)
    requires WellFormed(r)
    ensures |Step(r, op).clients| <= if op.TryConnect? then Max(|r.clients|, op.capacity) else |r.clients|
  {
    hide Takes, QueuedIf, IsAttached, Without, Survivors;
    match op
    case TryConnect(_) =>
    case Disconnect(id) => WithoutKeeps(r.clients, id);
    case Broadcast(f) => SurvivorsKeep(r.clients, r.channels);
    case Ask(_) =>
    case TakeOwed =>
    case SendTo(id, f) => WithoutKeeps(r.clients, id);
    case WriterTake(_) =>
    case WriterEnd(_) =>
  }

  /** The count never exceeds the capacity every admission checked. */
  lemma {:induction false} WithinCapacity<F>(ops: seq<Op<F>>, capacity: nat)
    requires forall i :: 0 <= i < |ops| && ops[i].TryConnect? ==> ops[i].capacity <= capacity
    ensures |Run(ops).clients| <= capacity
  {
    hide Step, WellFormed;
    if ops != [] {
      var n := |ops| - 1;
      WithinCapacity(ops[..n], capacity);
      RunWellFormed(ops[..n]);
      StepCount(Run(ops[..n]), ops[n]);
    }
  }

  /** Ids are never reused: a later admission hands out a larger one. */
  lemma {:induction false} IdsNeverReused<F>(ops: seq<Op<F>>, i: nat, j: nat)
    requires i < j < |ops| && ops[i].TryConnect? && ops[j].TryConnect?
    requires |Run(ops[..i]).clients| < ops[i].capacity
    ensures Run(ops[..i]).nextId < Run(ops[..j]).nextId
  {
    assert ops[..j][..i] == ops[..i];
    Isolation(ops[..j], i);
  }
}
