/**
  Pane ids, slot tokens and generations: what opening, relaunching, releasing and
  retiring panes keeps, and which spawn an approved plugin command acts on.
 */
module PaneSpawn {
  import opened Bytes
  import opened Splitting
  import opened RateBudget
  import opened ResumeLine
  import opened PluginGuard

  const U32_MAX: nat := 0xFFFF_FFFF
  const FIRST_GENERATION: Generation := 1

  datatype Slot = Slot(token: Token, generation: Generation, launch: Option<string>, lastOutput: nat)

  /** One process that was started: where, for which slot, and the line it ran. */
  datatype Spawn = Spawn(
    id: PaneId,
    token: Token,
    generation: Generation,
    launch: Option<string>,
    args: seq<string>,
    line: Option<string>)

  /**
    `panes` holds the token each process has in its environment; `spawned` is the record
    of every process ever started.
   */
  datatype Backend = Backend(
    panes: map<PaneId, Token>,
    slots: map<PaneId, Slot>,
    nextId: PaneId,
    spawned: seq<Spawn>)

  const NEW_BACKEND := Backend(map[], map[], 1, [])

  /** Saturates, so that a stale command never looks current again. */
  function Advanced(generation: Generation): Generation {
    Min(generation + 1, U32_MAX)
  }

  /** Starts a process unless the system refuses or the ids run out; an id is only spent on success. */
  function SpawnPane(b: Backend, token: Token, generation: Generation, launch: Option<string>,
                     args: seq<string>, line: Option<string>, started: bool, now: nat): Backend {
    if !started || b.nextId >= U32_MAX then b
    else Backend(
      b.panes[b.nextId := token],
      b.slots[b.nextId := Slot(token, generation, launch, now)],
      b.nextId + 1,
      b.spawned + [Spawn(b.nextId, token, generation, launch, args, line)])
  }

  /** What spawning answers. */
  function SpawnedId(b: Backend, started: bool): Option<PaneId> {
    if !started || b.nextId >= U32_MAX then None else Some(b.nextId)
  }

  function OpenPane(b: Backend, command: Option<string>, token: Token, started: bool, now: nat): Backend {
    SpawnPane(b, token, FIRST_GENERATION, command, [], command, started, now)
  }

  function Relaunches(b: Backend, id: PaneId, args: seq<string>, allowed: seq<string>): bool {
    id in b.slots && LineFor(b.slots[id].launch, args, allowed).Built?
  }

  /** The old process and slot go before the new process is attempted. */
  function RelaunchPane(b: Backend, id: PaneId, args: seq<string>, allowed: seq<string>,
                        started: bool, now: nat): Backend {
    if !Relaunches(b, id, args, allowed) then b
    else
      var slot := b.slots[id];
      SpawnPane(b.(panes := b.panes - {id}, slots := b.slots - {id}),
                slot.token, Advanced(slot.generation), slot.launch,
                args, Some(LineFor(slot.launch, args, allowed).line), started, now)
  }

  function MarkOutput(b: Backend, id: PaneId, now: nat): Backend {
    if id in b.slots then b.(slots := b.slots[id := b.slots[id].(lastOutput := now)]) else b
  }

  /** The process is let go of, the slot stays. */
  function Released(b: Backend, id: PaneId): Backend {
    b.(panes := b.panes - {id})
  }

  /** The slot is dropped for good. */
  function Retired(b: Backend, id: PaneId): Backend {
    b.(slots := b.slots - {id})
  }

  /** Which pane a token names. */
  ghost function Find(slots: map<PaneId, Slot>, token: Token): (r: Option<PaneId>)
    ensures r.Some? ==> r.value in slots && slots[r.value].token == token
    ensures r.None? ==> forall id :: id in slots ==> slots[id].token != token
  {
    if id :| id in slots && slots[id].token == token then Some(id) else None
  }

  // ------------------------------------------------------------- the backend

  /** The part of the backend that opens, relaunches and lets go of panes. */
  class PaneTable {
    var panes: map<PaneId, Token>
    var slots: map<PaneId, Slot>
    var nextId: PaneId
    ghost var spawned: seq<Spawn>

    ghost function State(): Backend
      reads this
    {
      Backend(panes, slots, nextId, spawned)
    }

    constructor ()
      ensures State() == NEW_BACKEND
    {
      panes, slots, nextId, spawned := map[], map[], 1, [];
    }

    /** `token` was drawn at random for this call. */
    method Open(command: Option<string>, token: Token, started: bool, now: nat) returns (r: Option<PaneId>)
      modifies this
      ensures r == SpawnedId(old(State()), started)
      ensures State() == OpenPane(old(State()), command, token, started, now)
    {
      r := StartProcess(token, FIRST_GENERATION, command, [], command, started, now);
    }

    method Relaunch(id: PaneId, args: seq<string>, allowed: seq<string>, started: bool, now: nat)
      returns (r: Option<PaneId>)
      modifies this
      ensures r == if Relaunches(old(State()), id, args, allowed) then SpawnedId(old(State()), started) else None
      ensures State() == RelaunchPane(old(State()), id, args, allowed, started, now)
    {
      if id !in slots {
        return None;
      }
      var slot := slots[id];
      var line := BuildResumeLine(slot.launch, args, allowed);
      if line.Rejected? {
        return None;
      }
      panes := panes - {id};
      slots := slots - {id};
      r := StartProcess(slot.token, Advanced(slot.generation), slot.launch, args, Some(line.line), started, now);
    }

    method StartProcess(token: Token, generation: Generation, launch: Option<string>,
                        args: seq<string>, line: Option<string>, started: bool, now: nat) returns (r: Option<PaneId>)
      modifies this
      ensures r == SpawnedId(old(State()), started)
      ensures State() == SpawnPane(old(State()), token, generation, launch, args, line, started, now)
    {
      if !started {
        return None;
      }
      var id := nextId;
      if id >= U32_MAX {
        return None;
      }
      nextId := id + 1;
      panes := panes[id := token];
      slots := slots[id := Slot(token, generation, launch, now)];
      spawned := spawned + [Spawn(id, token, generation, launch, args, line)];
      r := Some(id);
    }

    /** Scans the slots for the token; which one it meets first does not matter, see `TokensAreUnique`. */
    method PaneForToken(token: Token) returns (r: Option<PaneId>)
      requires forall x, y :: x in slots && y in slots && slots[x].token == slots[y].token ==> x == y
      ensures r == Find(slots, token)
    {
      var rest := slots.Keys;
      while rest != {}
        invariant rest <= slots.Keys
        invariant forall id :: id in slots && id !in rest ==> slots[id].token != token
        decreases |rest|
      {
        var id :| id in rest;
        if slots[id].token == token {
          return Some(id);
        }
        rest := rest - {id};
      }
      r := None;
    }

    /** The pane said something just now. */
    method NoteOutput(id: PaneId, now: nat)
      modifies this
      ensures State() == MarkOutput(old(State()), id, now)
      ensures slots.Keys == old(slots).Keys && (id in slots ==> slots[id] == old(slots)[id].(lastOutput := now))
      ensures forall other :: other in slots && other != id ==> slots[other] == old(slots)[other]
    {
      if id in slots {
        slots := slots[id := slots[id].(lastOutput := now)];
      }
    }

    method ReleaseProcess(id: PaneId)
      modifies this
      ensures State() == Released(old(State()), id)
      ensures panes == old(panes) - {id} && slots == old(slots) && nextId == old(nextId) && spawned == old(spawned)
    {
      panes := panes - {id};
    }

    method RetireSlot(id: PaneId)
      modifies this
      ensures State() == Retired(old(State()), id)
      ensures slots == old(slots) - {id} && panes == old(panes) && nextId == old(nextId) && spawned == old(spawned)
    {
      slots := slots - {id};
    }

    method DestroyPane(id: PaneId)
      modifies this
      ensures State() == Retired(Released(old(State()), id), id)
      ensures panes == old(panes) - {id} && slots == old(slots) - {id} && nextId == old(nextId)
    {
      panes := panes - {id};
      slots := slots - {id};
    }
  }

  // -------------------------------------------------------------- whole runs

  datatype Label =
    | Open(command: Option<string>, token: Token, started: bool, now: nat)
    | Relaunch(id: PaneId, args: seq<string>, allowed: seq<string>, started: bool, now: nat)
    | Output(id: PaneId, now: nat)
    | Release(id: PaneId)
    | Retire(id: PaneId)
    | Destroy(id: PaneId)

  /** Tokens are random: one that was used before is never drawn again. */
  function Step(b: Backend, l: Label): Backend {
    match l
    case Open(command, token, started, now) =>
      if Count(b.spawned, token) > 0 then b else OpenPane(b, command, token, started, now)
    case Relaunch(id, args, allowed, started, now) => RelaunchPane(b, id, args, allowed, started, now)
    case Output(id, now) => MarkOutput(b, id, now)
    case Release(id) => Released(b, id)
    case Retire(id) => Retired(b, id)
    case Destroy(id) => Retired(Released(b, id), id)
  }

  function Run(labels: seq<Label>): Backend {
    if labels == [] then NEW_BACKEND else Step(Run(labels[..|labels| - 1]), labels[|labels| - 1])
  }

  // ------------------------------------------------------- the record of spawns

  /** How many processes a slot has had. */
  function Count(spawned: seq<Spawn>, token: Token): nat {
    if spawned == [] then 0
    else
      Count(spawned[..|spawned| - 1], token) + if spawned[|spawned| - 1].token == token then 1 else 0
  }

  /** The last process of a slot. */
  function Latest(spawned: seq<Spawn>, token: Token): Option<Spawn> {
    if spawned == [] then None
    else if spawned[|spawned| - 1].token == token then Some(spawned[|spawned| - 1])
    else Latest(spawned[..|spawned| - 1], token)
  }

  /** The command a slot was opened with. */
  function Original(spawned: seq<Spawn>, token: Token): Option<string> {
    if spawned == [] then None
    else
      var init, last := spawned[..|spawned| - 1], spawned[|spawned| - 1];
      if Count(init, token) == 0 && last.token == token then last.launch else Original(init, token)
  }

  function TopId(spawned: seq<Spawn>): PaneId {
    if spawned == [] then 0 else spawned[|spawned| - 1].id
  }

  /** What a new process may look like after those before it. */
  predicate Follows(before: seq<Spawn>, e: Spawn) {
    && TopId(before) < e.id
    && e.generation == Min(Count(before, e.token) + 1, U32_MAX)
    && if Count(before, e.token) == 0 then e.line == e.launch
       else
         && e.launch == Original(before, e.token)
         && e.launch.Some?
         && e.line == Some(Join([e.launch.value] + e.args, ' '))
  }

  predicate GoodRecord(spawned: seq<Spawn>) {
    spawned == [] ||
    (GoodRecord(spawned[..|spawned| - 1]) && Follows(spawned[..|spawned| - 1], spawned[|spawned| - 1]))
  }

  ghost predicate SlotIsLatest(spawned: seq<Spawn>, id: PaneId, slot: Slot) {
    var e := Latest(spawned, slot.token);
    e.Some? && e.value.id == id && e.value.generation == slot.generation && e.value.launch == slot.launch
  }

  ghost predicate PaneIsLatest(spawned: seq<Spawn>, id: PaneId, token: Token) {
    var e := Latest(spawned, token);
    e.Some? && e.value.id == id
  }

  ghost predicate Inv(b: Backend) {
    && GoodRecord(b.spawned)
    && TopId(b.spawned) < b.nextId <= U32_MAX
    && (forall id :: id in b.slots ==> SlotIsLatest(b.spawned, id, b.slots[id]))
    && (forall id :: id in b.panes ==> PaneIsLatest(b.spawned, id, b.panes[id]))
  }

  lemma Snoc(spawned: seq<Spawn>, e: Spawn)
    ensures (spawned + [e])[..|spawned|] == spawned
    ensures forall t :: Count(spawned + [e], t) == Count(spawned, t) + if e.token == t then 1 else 0
    ensures forall t :: Latest(spawned + [e], t) == if e.token == t then Some(e) else Latest(spawned, t)
    ensures TopId(spawned + [e]) == e.id
    ensures GoodRecord(spawned + [e]) <==> GoodRecord(spawned) && Follows(spawned, e)
  {
    assert (spawned + [e])[..|spawned|] == spawned;
  }

  /** A slot's last process tells how many it has had and what it was opened with. */
  lemma {:induction false} LatestTells(spawned: seq<Spawn>, token: Token)
    requires GoodRecord(spawned)
    ensures Latest(spawned, token).Some? <==> Count(spawned, token) > 0
    ensures Latest(spawned, token).Some? ==>
              && Latest(spawned, token).value.generation == Min(Count(spawned, token), U32_MAX)
              && Latest(spawned, token).value.launch == Original(spawned, token)
              && Latest(spawned, token).value.token == token
              && Latest(spawned, token).value.id <= TopId(spawned)
  {
    if spawned != [] {
      LatestTells(spawned[..|spawned| - 1], token);
    }
  }

  /** Starting a process keeps the invariant, provided no slot or process of the token is left. */
  lemma SpawnKeeps(b: Backend, token: Token, generation: Generation, launch: Option<string>,
                   args: seq<string>, line: Option<string>, started: bool, now: nat)
    requires Inv(b)
    requires Follows(b.spawned, Spawn(b.nextId, token, generation, launch, args, line))
    requires forall id :: id in b.slots ==> b.slots[id].token != token
    requires forall id :: id in b.panes ==> b.panes[id] != token
    ensures Inv(SpawnPane(b, token, generation, launch, args, line, started, now))
  {
    hide GoodRecord, Latest, Count, Follows, TopId;
    Snoc(b.spawned, Spawn(b.nextId, token, generation, launch, args, line));
  }

  lemma OpenKeeps(b: Backend, command: Option<string>, token: Token, started: bool, now: nat)
    requires Inv(b) && Count(b.spawned, token) == 0
    ensures Inv(OpenPane(b, command, token, started, now))
  {
    hide GoodRecord, Latest, Count, Original;
    LatestTells(b.spawned, token);
    SpawnKeeps(b, token, FIRST_GENERATION, command, [], command, started, now);
  }

  lemma RelaunchKeeps(b: Backend, id: PaneId, args: seq<string>, allowed: seq<string>, started: bool, now: nat)
    requires Inv(b)
    ensures Inv(RelaunchPane(b, id, args, allowed, started, now))
  {
    hide GoodRecord, Latest, Count, Original, TopId, Join, LineFor;
    if Relaunches(b, id, args, allowed) {
      var slot := b.slots[id];
      var rest := b.(panes := b.panes - {id}, slots := b.slots - {id});
      var line := Some(LineFor(slot.launch, args, allowed).line);
      assert SlotIsLatest(b.spawned, id, slot);
      LatestTells(b.spawned, slot.token);
      LineIsJoin(slot.launch, args, allowed);
      assert Inv(rest);
      SpawnKeeps(rest, slot.token, Advanced(slot.generation), slot.launch, args, line, started, now);
    }
  }

  lemma LineIsJoin(base: Option<string>, args: seq<string>, allowed: seq<string>)
    requires LineFor(base, args, allowed).Built?
    ensures base.Some? && LineFor(base, args, allowed).line == Join([base.value] + args, ' ')
  {
    hide Join;
  }

  lemma StepKeeps(b: Backend, l: Label)
    requires Inv(b)
    ensures Inv(Step(b, l))
  {
    hide GoodRecord, Latest, OpenPane, RelaunchPane, TopId, Count;
    match l
    case Open(command, token, started, now) =>
      if Count(b.spawned, token) == 0 {
        OpenKeeps(b, command, token, started, now);
      }
    case Relaunch(id, args, allowed, started, now) => RelaunchKeeps(b, id, args, allowed, started, now);
    case Output(id, now) =>
    case Release(id) =>
    case Retire(id) =>
    case Destroy(id) =>
  }

  lemma {:induction false} RunInv(labels: seq<Label>)
    ensures Inv(Run(labels))
  {
    hide Inv, Step;
    if labels == [] {
      EmptyInv();
    } else {
      RunInv(labels[..|labels| - 1]);
      StepKeeps(Run(labels[..|labels| - 1]), labels[|labels| - 1]);
    }
  }

  lemma EmptyInv()
    ensures Inv(NEW_BACKEND)
  {
  }

  // ---------------------------------------------------------- how long it was silent

  /** When a pane last spoke, or was started if it has not. */
  ghost function LastHeard(labels: seq<Label>, id: PaneId): nat {
    if labels == [] then 0
    else
      var init, last := labels[..|labels| - 1], labels[|labels| - 1];
      if last.Output? && last.id == id then last.now
      else if id !in Run(init).slots && id in Run(labels).slots && (last.Open? || last.Relaunch?) then last.now
      else LastHeard(init, id)
  }

  /** In every run, what a slot says of its last output is when the pane was last heard. */
  lemma {:induction false} SilenceIsTrue(labels: seq<Label>, id: PaneId)
    requires id in Run(labels).slots
    ensures Run(labels).slots[id].lastOutput == LastHeard(labels, id)
  {
    var init, last := labels[..|labels| - 1], labels[|labels| - 1];
    RunInv(init);
    SlotStep(Run(init), last, id);
    if id in Run(init).slots {
      SilenceIsTrue(init, id);
    }
  }

  lemma SlotStep(b: Backend, l: Label, id: PaneId)
    requires Inv(b) && id in Step(b, l).slots
    ensures id in b.slots ==>
              Step(b, l).slots[id].lastOutput == if l.Output? && l.id == id then l.now else b.slots[id].lastOutput
    ensures id !in b.slots ==> (l.Open? || l.Relaunch?) && Step(b, l).slots[id].lastOutput == l.now
  {
    hide LineFor, Count, GoodRecord, Latest;
    NextIsNew(b);
  }

  lemma NextIsNew(b: Backend)
    requires Inv(b)
    ensures b.nextId !in b.slots
  {
    if b.nextId in b.slots {
      LatestTells(b.spawned, b.slots[b.nextId].token);
    }
  }

  /** Letting go of a process keeps the slot, retiring a slot keeps the process, destroying a pane keeps neither. */
  lemma LetGo(b: Backend, id: PaneId, other: PaneId)
    ensures forall now ::
              Step(b, Output(id, now)).panes == b.panes && Step(b, Output(id, now)).slots.Keys == b.slots.Keys
    ensures var after := Step(b, Release(id));
            && id !in after.panes && after.slots == b.slots
            && (other != id ==> (other in after.panes <==> other in b.panes))
    ensures var after := Step(b, Retire(id));
            && id !in after.slots && after.panes == b.panes
            && (other != id ==> (other in after.slots <==> other in b.slots))
    ensures var after := Step(b, Destroy(id));
            && id !in after.panes && id !in after.slots
            && (other != id ==>
                (other in after.slots <==> other in b.slots) && (other in after.panes <==> other in b.panes))
  {
  }

  // ---------------------------------------------------------- what follows from it

  lemma {:induction false} RecordPrefix(spawned: seq<Spawn>, k: nat)
    requires GoodRecord(spawned) && k < |spawned|
    ensures GoodRecord(spawned[..k]) && Follows(spawned[..k], spawned[k])
  {
    if k < |spawned| - 1 {
      RecordPrefix(spawned[..|spawned| - 1], k);
      assert spawned[..|spawned| - 1][..k] == spawned[..k];
    }
  }

  lemma {:induction false} OlderIds(spawned: seq<Spawn>, i: nat, j: nat)
    requires GoodRecord(spawned) && i < j < |spawned|
    ensures spawned[i].id < spawned[j].id
  {
    hide Follows;
    RecordPrefix(spawned, j);
    FollowsTop(spawned[..j], spawned[j]);
    if i < j - 1 {
      OlderIds(spawned, i, j - 1);
    }
  }

  lemma FollowsTop(before: seq<Spawn>, e: Spawn)
    requires Follows(before, e)
    ensures TopId(before) < e.id
  {
  }

  lemma {:induction false} CountGrows(spawned: seq<Spawn>, token: Token, i: nat, j: nat)
    requires i <= j <= |spawned|
    ensures Count(spawned[..i], token) <= Count(spawned[..j], token)
    ensures i < j && spawned[i].token == token ==> Count(spawned[..i], token) < Count(spawned[..j], token)
  {
    if i < j {
      assert spawned[..j][..j - 1] == spawned[..j - 1];
      CountGrows(spawned, token, i, j - 1);
    }
  }

  /** Ids only grow, so none is ever used for a second process. */
  lemma IdsNeverReused(labels: seq<Label>, i: nat, j: nat)
    requires i < j < |Run(labels).spawned|
    ensures Run(labels).spawned[i].id < Run(labels).spawned[j].id < Run(labels).nextId
  {
    RunInv(labels);
    var spawned := Run(labels).spawned;
    OlderIds(spawned, i, j);
    if j < |spawned| - 1 {
      OlderIds(spawned, j, |spawned| - 1);
    }
  }

  /**
    Two processes of one slot never share a generation below the last one, and always
    share it from there on: a generation tells spawns apart exactly until it saturates.
   */
  lemma GenerationsTellApart(labels: seq<Label>, i: nat, j: nat)
    requires i < j < |Run(labels).spawned|
    requires Run(labels).spawned[i].token == Run(labels).spawned[j].token
    ensures var spawned := Run(labels).spawned;
            && spawned[i].generation <= spawned[j].generation <= U32_MAX
            && (spawned[i].generation == spawned[j].generation <==> spawned[i].generation == U32_MAX)
  {
    hide Run, Count, GoodRecord;
    RunInv(labels);
    var spawned := Run(labels).spawned;
    RecordPrefix(spawned, i);
    RecordPrefix(spawned, j);
    CountGrows(spawned, spawned[i].token, i, j);
  }

  /** No two slots share a token, and no two live processes carry the same one. */
  lemma TokensAreUnique(labels: seq<Label>)
    ensures var b := Run(labels);
            && (forall x, y :: x in b.slots && y in b.slots && b.slots[x].token == b.slots[y].token ==> x == y)
            && (forall x, y :: x in b.panes && y in b.panes && b.panes[x] == b.panes[y] ==> x == y)
  {
    hide Run, Latest, GoodRecord;
    RunInv(labels);
    var b := Run(labels);
    forall x, y | x in b.slots && y in b.slots && b.slots[x].token == b.slots[y].token
      ensures x == y
    {
      assert SlotIsLatest(b.spawned, x, b.slots[x]) && SlotIsLatest(b.spawned, y, b.slots[y]);
    }
  }

  lemma {:induction false} OriginalIsFirst(spawned: seq<Spawn>, k: nat)
    requires GoodRecord(spawned) && k < |spawned|
    ensures spawned[k].launch == Original(spawned, spawned[k].token)
  {
    var n := |spawned| - 1;
    var token := spawned[k].token;
    if k < n {
      OriginalIsFirst(spawned[..n], k);
      CountGrows(spawned, token, k, n);
    }
  }

  /**
    However often a slot was relaunched, what a process runs is the command the slot was
    opened with, followed by the arguments of that one relaunch and nothing older.
   */
  lemma RunLine(labels: seq<Label>, k: nat)
    requires k < |Run(labels).spawned|
    ensures var spawned := Run(labels).spawned;
            var e := spawned[k];
            && e.launch == Original(spawned, e.token)
            && (Count(spawned[..k], e.token) == 0 ==> e.line == e.launch)
            && (Count(spawned[..k], e.token) > 0 ==>
                e.launch.Some? && e.line == Some(Join([e.launch.value] + e.args, ' ')))
  {
    hide Run, Join, Count, Original, GoodRecord;
    RunInv(labels);
    RecordPrefix(Run(labels).spawned, k);
    OriginalIsFirst(Run(labels).spawned, k);
  }

  // ------------------------------------------------------- commands and spawns

  /** Which plugin has which pane, and who is asking. */
  datatype Claims = Claims(owners: map<PaneId, string>, plugin: string, watchOnSignal: bool)

  /** What the hub tells the guard about the pane a command names. */
  ghost function FactsFor(b: Backend, claims: Claims, cmd: Command, now: nat): Option<PaneFacts> {
    if cmd.Log? || Find(b.slots, cmd.token).None? then None
    else
      var pane := Find(b.slots, cmd.token).value;
      var slot := b.slots[pane];
      Some(PaneFacts(
        pane,
        slot.generation,
        pane in claims.owners && claims.owners[pane] == claims.plugin,
        pane in claims.owners && claims.owners[pane] != claims.plugin,
        claims.watchOnSignal,
        pane in b.panes,
        Since(slot.lastOutput, now),
        slot.launch))
  }

  /** A command that names a generation. */
  predicate NamesSpawn(cmd: Command) {
    cmd.SendInput? || cmd.Relaunch? || cmd.Attention? || cmd.Status?
  }

  ghost function HubVerdict(b: Backend, cfg: Config, books: Books, claims: Claims, cmd: Command,
                            allowed: seq<string>, now: nat): Verdict {
    Judged(cfg, books, cmd, FactsFor(b, claims, cmd, now), allowed, now)
  }

  lemma ApprovalNeedsFacts(cfg: Config, books: Books, cmd: Command, facts: Option<PaneFacts>,
                           allowed: seq<string>, now: nat)
    requires NamesSpawn(cmd) && Judged(cfg, books, cmd, facts, allowed, now).Ok?
    ensures IsNamed(facts, cmd.generation)
    ensures var approved := Judged(cfg, books, cmd, facts, allowed, now).approved;
            && !approved.LogLine? && approved.pane == facts.value.pane
            && (cmd.SendInput? <==> approved.Input?) && (cmd.Relaunch? <==> approved.Restart?)
            && (approved.Input? ==>
                && facts.value.alive && facts.value.idle >= cfg.minIdle && approved.data == cmd.data
                && |Utf8(cmd.data)| <= 8192 && forall i :: 0 <= i < |cmd.data| ==> OnKeyboard(cmd.data[i] as int))
            && (approved.Restart? ==>
                && !facts.value.alive && approved.args == cmd.args
                && LineFor(facts.value.launch, approved.args, allowed) == Built(approved.line))
  {
    hide Judged, ByteLength, Grants, FirstBad, Join, ArgsAllowed, IsForbidden, OnKeyboard, Utf8;
    match cmd
    case SendInput(token, generation, data) =>
      InputApprovedExactly(cfg, books, facts, allowed, token, generation, data, now);
    case Relaunch(token, generation, args) =>
      RelaunchApprovedExactly(cfg, books, facts, allowed, token, generation, args, now);
      LineHoldsArguments(facts.value.launch, args, allowed);
    case _ => OthersApprovedExactly(cfg, books, facts, allowed, cmd, now);
  }

  /**
    In every reachable state an approved command acts on a pane of the plugin that asked, and
    on the process its token and generation name: the last one of that slot, and below the
    last generation the only one there ever was. Input is typed only into a process carrying
    the token that has been silent long enough, and is short and free of anything a keyboard
    does not produce; only an exited process is relaunched.
   */
  lemma ApprovedActsOnNamedSpawn(labels: seq<Label>, cfg: Config, books: Books, claims: Claims, cmd: Command,
                                 allowed: seq<string>, now: nat, k: nat)
    requires NamesSpawn(cmd) && HubVerdict(Run(labels), cfg, books, claims, cmd, allowed, now).Ok?
    ensures var b := Run(labels);
            var approved := HubVerdict(b, cfg, books, claims, cmd, allowed, now).approved;
            && !approved.LogLine?
            && approved.pane in claims.owners && claims.owners[approved.pane] == claims.plugin
            && Latest(b.spawned, cmd.token).Some?
            && Latest(b.spawned, cmd.token).value.id == approved.pane
            && Latest(b.spawned, cmd.token).value.generation == cmd.generation
            && approved.pane in b.slots && b.slots[approved.pane].token == cmd.token
            && (approved.Input? ==>
                && approved.pane in b.panes && b.panes[approved.pane] == cmd.token
                && (cfg.minIdle > 0 ==> now >= b.slots[approved.pane].lastOutput + cfg.minIdle)
                && |Utf8(approved.data)| <= 8192
                && forall i :: 0 <= i < |approved.data| ==> OnKeyboard(approved.data[i] as int))
            && (approved.Restart? ==> approved.pane !in b.panes)
            && (k < |b.spawned| && b.spawned[k].token == cmd.token
                && b.spawned[k].generation == cmd.generation < U32_MAX ==>
                b.spawned[k].id == approved.pane)
  {
    hide Run, Judged, Latest, GoodRecord, Count, Utf8, OnKeyboard, LineFor;
    var b := Run(labels);
    RunInv(labels);
    var facts := FactsFor(b, claims, cmd, now);
    ApprovalNeedsFacts(cfg, books, cmd, facts, allowed, now);
    var pane := facts.value.pane;
    assert SlotIsLatest(b.spawned, pane, b.slots[pane]);
    if pane in b.panes {
      PaneToken(b, pane);
    }
    if k < |b.spawned| && b.spawned[k].token == cmd.token && b.spawned[k].generation == cmd.generation < U32_MAX {
      var at := LatestAt(b.spawned, cmd.token);
      if k < at {
        GenerationsTellApart(labels, k, at);
      } else if at < k {
        GenerationsTellApart(labels, at, k);
      }
    }
  }

  /**
    And nothing more is asked: in every reachable state, a command naming the slot `id` is
    approved as soon as those conditions hold and the budget has room.
   */
  lemma HubApproves(labels: seq<Label>, cfg: Config, books: Books, claims: Claims, cmd: Command,
                    allowed: seq<string>, now: nat, id: PaneId)
    requires NamesSpawn(cmd) && id in Run(labels).slots
    requires var slot := Run(labels).slots[id]; slot.token == cmd.token && slot.generation == cmd.generation
    requires id in claims.owners && claims.owners[id] == claims.plugin
    requires cmd.SendInput? ==>
               && id in Run(labels).panes
               && now >= Run(labels).slots[id].lastOutput + cfg.minIdle
               && |Utf8(cmd.data)| <= 8192 && (forall i :: 0 <= i < |cmd.data| ==> OnKeyboard(cmd.data[i] as int))
               && Grants(books, cmd.token, RateAction.SendInput, cfg.limits, now)
    requires cmd.Relaunch? ==>
               && id !in Run(labels).panes && Run(labels).slots[id].launch.Some? && ArgsAllowed(cmd.args, allowed)
               && Grants(books, cmd.token, RateAction.Relaunch, cfg.limits, now)
    ensures HubVerdict(Run(labels), cfg, books, claims, cmd, allowed, now).Ok?
    ensures HubVerdict(Run(labels), cfg, books, claims, cmd, allowed, now).approved.pane == id
  {
    hide Run, Judged, ByteLength, Grants, FirstBad, Join, ArgsAllowed, IsForbidden, OnKeyboard, Utf8;
    TokensAreUnique(labels);
    var facts := FactsFor(Run(labels), claims, cmd, now);
    assert facts.Some? && facts.value.pane == id;
    match cmd
    case SendInput(token, generation, data) =>
      InputApprovedExactly(cfg, books, facts, allowed, token, generation, data, now);
    case Relaunch(token, generation, args) =>
      RelaunchApprovedExactly(cfg, books, facts, allowed, token, generation, args, now);
    case _ => OthersApprovedExactly(cfg, books, facts, allowed, cmd, now);
  }

  /** A plugin is given a live pane nobody else has, if the operator lets it ask, and no other. */
  lemma HubWatchExactly(labels: seq<Label>, cfg: Config, books: Books, claims: Claims, token: Token,
                        allowed: seq<string>, now: nat)
    ensures var b := Run(labels);
            var v := HubVerdict(b, cfg, books, claims, WatchPane(token), allowed, now);
            v.Ok? <==>
              && claims.watchOnSignal
              && exists id :: id in b.slots && b.slots[id].token == token && id in b.panes
                              && (id in claims.owners ==> claims.owners[id] == claims.plugin)
  {
    hide Run, Judged;
    TokensAreUnique(labels);
    OthersApprovedExactly(cfg, books, FactsFor(Run(labels), claims, WatchPane(token), now), allowed,
                          WatchPane(token), now);
  }

  /** A live pane's token is its slot's. */
  lemma PaneToken(b: Backend, id: PaneId)
    requires Inv(b) && id in b.panes && id in b.slots
    ensures b.panes[id] == b.slots[id].token
  {
    hide Latest, GoodRecord;
    var x, y := LatestAt(b.spawned, b.panes[id]), LatestAt(b.spawned, b.slots[id].token);
    if x < y {
      OlderIds(b.spawned, x, y);
    } else if y < x {
      OlderIds(b.spawned, y, x);
    }
  }

  ghost function LatestAt(spawned: seq<Spawn>, token: Token): (k: nat)
    requires Latest(spawned, token).Some?
    ensures k < |spawned| && spawned[k] == Latest(spawned, token).value && spawned[k].token == token
  {
    if spawned[|spawned| - 1].token == token then |spawned| - 1
    else LatestAt(spawned[..|spawned| - 1], token)
  }

  /**
    Carrying out an approved relaunch starts, under a new id and the next generation of
    the same slot, exactly the line that was approved.
   */
  lemma ApprovedLineRuns(labels: seq<Label>, cfg: Config, books: Books, claims: Claims, cmd: Command,
                         allowed: seq<string>, now: nat, later: nat)
    requires cmd.Relaunch? && HubVerdict(Run(labels), cfg, books, claims, cmd, allowed, now).Ok?
    requires Run(labels).nextId < U32_MAX
    ensures var b := Run(labels);
            var approved := HubVerdict(b, cfg, books, claims, cmd, allowed, now).approved;
            && approved.Restart?
            && var after := RelaunchPane(b, approved.pane, approved.args, allowed, true, later);
               && after.spawned == b.spawned + [Spawn(
                    b.nextId, cmd.token, Advanced(cmd.generation),
                    Original(b.spawned, cmd.token), cmd.args, Some(approved.line))]
               && approved.pane !in after.slots && approved.pane !in after.panes
               && b.nextId in after.panes && after.slots[b.nextId].token == cmd.token
               && after == Run(labels + [Label.Relaunch(approved.pane, approved.args, allowed, true, later)])
  {
    hide Run, Latest, GoodRecord, Count, Original, LineFor, ByteLength, FirstForbidden, Grants;
    var b := Run(labels);
    RunInv(labels);
    var facts := FactsFor(b, claims, cmd, now);
    ApprovalNeedsFacts(cfg, books, cmd, facts, allowed, now);
    var pane := facts.value.pane;
    assert SlotIsLatest(b.spawned, pane, b.slots[pane]);
    LatestTells(b.spawned, cmd.token);
    var all := labels + [Label.Relaunch(pane, cmd.args, allowed, true, later)];
    assert all[..|labels|] == labels && all[..|labels| + 1] == all;
    RunSnoc(all, |labels|);
  }

  // ------------------------------------------------------------ retired tokens

  /** The token has been used and names nothing any more. */
  ghost predicate Gone(b: Backend, token: Token) {
    Count(b.spawned, token) > 0 && Find(b.slots, token).None?
  }

  lemma GoneStep(b: Backend, l: Label, token: Token)
    requires Gone(b, token)
    ensures Gone(Step(b, l), token)
  {
    hide Count, LineFor;
    if l.Open? && l.started {
      Snoc(b.spawned, Spawn(b.nextId, l.token, FIRST_GENERATION, l.command, [], l.command));
    }
    if l.Relaunch? && Relaunches(b, l.id, l.args, l.allowed) {
      var slot := b.slots[l.id];
      Snoc(b.spawned, Spawn(b.nextId, slot.token, Advanced(slot.generation), slot.launch, l.args,
                            Some(LineFor(slot.launch, l.args, l.allowed).line)));
    }
  }

  lemma {:induction false} GoneForGood(labels: seq<Label>, k: nat, token: Token)
    requires k <= |labels| && Gone(Run(labels[..k]), token)
    ensures Gone(Run(labels), token)
  {
    hide Gone, Step;
    if k == |labels| {
      assert labels[..k] == labels;
    } else {
      var init := labels[..|labels| - 1];
      assert init[..k] == labels[..k];
      GoneForGood(init, k, token);
      GoneStep(Run(init), labels[|labels| - 1], token);
    }
  }

  /**
    Asking to relaunch a pane leaves its slot in existence exactly if the arguments are
    refused or the new process starts. The hub means a failed start to keep it.
   */
  lemma RelaunchKeepsSlotExactly(labels: seq<Label>, id: PaneId, args: seq<string>, allowed: seq<string>,
                                 started: bool, now: nat)
    requires id in Run(labels).slots
    ensures var b := Run(labels);
            Find(RelaunchPane(b, id, args, allowed, started, now).slots, b.slots[id].token).Some?
            <==> !Relaunches(b, id, args, allowed) || SpawnedId(b, started).Some?
  {
    hide Run, LineFor;
    TokensAreUnique(labels);
    var b := Run(labels);
    var after := RelaunchPane(b, id, args, allowed, started, now);
    if !Relaunches(b, id, args, allowed) {
      assert after.slots[id].token == b.slots[id].token;
    } else if SpawnedId(b, started).Some? {
      assert after.slots[b.nextId].token == b.slots[id].token;
    }
  }

  /**
    Where it does not, the slot is gone for good: in every continuation the guard answers
    each of the plugin's commands for it with `UnknownPane`.
   */
  lemma FailedRelaunchLosesSlot(labels: seq<Label>, k: nat, cfg: Config, books: Books, claims: Claims, cmd: Command,
                                allowed: seq<string>, now: nat)
    requires k < |labels| && labels[k].Relaunch? && SpawnedId(Run(labels[..k]), labels[k].started).None?
    requires Relaunches(Run(labels[..k]), labels[k].id, labels[k].args, labels[k].allowed)
    requires !cmd.Log? && cmd.token == Run(labels[..k]).slots[labels[k].id].token
    ensures HubVerdict(Run(labels), cfg, books, claims, cmd, allowed, now) == Err(UnknownPane(cmd.token))
  {
    hide Run, LineFor, Count, Latest, GoodRecord, Find;
    var b, l := Run(labels[..k]), labels[k];
    RunInv(labels[..k]);
    assert SlotIsLatest(b.spawned, l.id, b.slots[l.id]);
    LatestTells(b.spawned, cmd.token);
    RelaunchKeepsSlotExactly(labels[..k], l.id, l.args, l.allowed, l.started, l.now);
    assert Gone(Step(b, l), cmd.token);
    RunSnoc(labels, k);
    GoneForGood(labels, k + 1, cmd.token);
  }

  /** One such run: a pane is opened, its process ends, and the relaunch cannot be started. */
  lemma LostSlotExample(command: string, token: Token, now: nat)
    ensures var labels := [Open(Some(command), token, true, now), Release(1), Label.Relaunch(1, [], [], false, now)];
            && Find(Run(labels[..2]).slots, token) == Some(1)
            && Relaunches(Run(labels[..2]), 1, [], [])
            && Find(Run(labels).slots, token).None?
  {
    hide Run, Join;
    var labels := [Open(Some(command), token, true, now), Release(1), Label.Relaunch(1, [], [], false, now)];
    assert Run(labels[..0]) == NEW_BACKEND by {
      EmptyRun();
      assert labels[..0] == [];
    }
    RunSnoc(labels, 0);
    RunSnoc(labels, 1);
    RunSnoc(labels, 2);
    assert labels[..3] == labels;
    var slot := Slot(token, FIRST_GENERATION, Some(command), now);
    assert Run(labels[..1]).slots == map[1 := slot];
    assert Run(labels[..2]).slots == map[1 := slot];
    assert Find(map[1 := slot], token).Some?;
    assert Run(labels).slots == map[];
  }

  lemma EmptyRun()
    ensures Run([]) == NEW_BACKEND
  {
  }

  // ------------------------------------------------------- one incident, once

  lemma EndedStep(b: Backend, l: Label, id: PaneId)
    requires id < b.nextId && id !in b.panes
    ensures id < Step(b, l).nextId && id !in Step(b, l).panes
  {
    hide LineFor, Count;
  }

  /** A process that has ended does not come back under its id. */
  lemma {:induction false} EndedStaysEnded(labels: seq<Label>, k: nat, id: PaneId)
    requires k <= |labels| && id < Run(labels[..k]).nextId && id !in Run(labels[..k]).panes
    ensures id < Run(labels).nextId && id !in Run(labels).panes
  {
    hide Step;
    if k == |labels| {
      assert labels[..k] == labels;
    } else {
      var init := labels[..|labels| - 1];
      assert init[..k] == labels[..k];
      EndedStaysEnded(init, k, id);
      EndedStep(Run(init), labels[|labels| - 1], id);
    }
  }

  /** The record of spawns only grows. */
  lemma {:induction false} RecordGrows(labels: seq<Label>, k: nat)
    requires k <= |labels|
    ensures Run(labels[..k]).spawned <= Run(labels).spawned
  {
    if k == |labels| {
      assert labels[..k] == labels;
    } else {
      var init := labels[..|labels| - 1];
      assert init[..k] == labels[..k];
      RecordGrows(init, k);
    }
  }

  /**
    One incident is handled once: from the moment a relaunch naming a spawn is approved,
    no input naming the same spawn is ever approved again, whatever happens in between.
   */
  lemma NoInputAfterRelaunch(labels: seq<Label>, k: nat, cfg: Config, books: Books, later: Books,
                             claims: Claims, laterClaims: Claims, restart: Command, input: Command,
                             allowed: seq<string>, now: nat, after: nat)
    requires k <= |labels| && restart.Relaunch? && input.SendInput?
    requires input.token == restart.token && input.generation == restart.generation < U32_MAX
    requires HubVerdict(Run(labels[..k]), cfg, books, claims, restart, allowed, now).Ok?
    ensures HubVerdict(Run(labels), cfg, later, laterClaims, input, allowed, after).Err?
  {
    hide Run, Judged, Latest, GoodRecord, Count;
    if HubVerdict(Run(labels), cfg, later, laterClaims, input, allowed, after).Ok? {
      var b := Run(labels[..k]);
      RunInv(labels[..k]);
      ApprovedActsOnNamedSpawn(labels[..k], cfg, books, claims, restart, allowed, now, 0);
      ApprovalNeedsFacts(cfg, books, restart, FactsFor(b, claims, restart, now), allowed, now);
      ApprovalNeedsFacts(cfg, later, input, FactsFor(Run(labels), laterClaims, input, after), allowed, after);
      var at := LatestAt(b.spawned, restart.token);
      LatestTells(b.spawned, restart.token);
      EndedStaysEnded(labels, k, b.spawned[at].id);
      RecordGrows(labels, k);
      ApprovedActsOnNamedSpawn(labels, cfg, later, laterClaims, input, allowed, after, at);
      assert false;
    }
  }

  lemma RunSnoc(labels: seq<Label>, k: nat)
    requires k < |labels|
    ensures Run(labels[..k + 1]) == Step(Run(labels[..k]), labels[k])
  {
    assert labels[..k + 1][..k] == labels[..k];
  }
}
