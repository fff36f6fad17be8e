/**
  The rules between an untrusted plugin and the panes, and what holds of every run of
  commands through them.
 */
module PluginGuard {
  import opened Bytes
  import opened RateBudget
  import opened ResumeLine
  import opened Splitting

  const MAX_INPUT_BYTES: nat := 8 * 1024
  const MAX_LOG_MESSAGE_BYTES: nat := 2 * 1024

  type Generation = nat

  datatype LogLevel = Error | Warn | Info | Debug

  datatype Report = Report(state: string, detail: Option<string>, deadlineEpoch: Option<int>, attempt: nat)

  datatype Command =
    | Log(level: LogLevel, message: string)
    | SendInput(token: Token, generation: Generation, data: string)
    | Relaunch(token: Token, generation: Generation, args: seq<string>)
    | WatchPane(token: Token)
    | Attention(token: Token, generation: Generation)
    | Status(token: Token, generation: Generation, report: Report)

  /** What the host knows about the pane a command's token resolves to. */
  datatype PaneFacts = PaneFacts(
    pane: PaneId,
    generation: Generation,
    optedIn: bool,
    watchedByAnother: bool,
    mayWatchOnSignal: bool,
    alive: bool,
    idle: nat,
    launch: Option<string>)

  datatype Approved =
    | LogLine(level: LogLevel, message: string)
    | Input(pane: PaneId, data: string)
    | Restart(pane: PaneId, args: seq<string>, line: string)
    | Watch(pane: PaneId)
    | Mark(pane: PaneId)
    | Told(pane: PaneId, report: Report)

  datatype Refused =
    | UnknownPane(token: Token)
    | NotOptedIn(pane: PaneId, token: Token)
    | StaleGeneration(pane: PaneId, claimed: Generation, current: Generation)
    | PaneNotRunning(pane: PaneId)
    | PaneBusy(pane: PaneId, idle: nat, minIdle: nat)
    | InputTooLarge(pane: PaneId, bytes: nat, limit: nat)
    | ControlCharacter(pane: PaneId, code: nat)
    | PaneStillRunning(pane: PaneId)
    | NoLaunchCommand(pane: PaneId)
    | ResumeArgsRejected(pane: PaneId, reason: ResumeLine.Error)
    | WatchNotAllowed(pane: PaneId, token: Token)
    | PaneWatchedByAnother(pane: PaneId)
    | RateLimited(pane: PaneId, action: RateAction, limit: nat, window: nat)

  datatype Verdict = Ok(approved: Approved) | Err(refused: Refused)

  datatype Config = Config(minIdle: nat, limits: RateLimits)

  // ------------------------------------------------------------------- rules

  predicate IsForbidden(c: char) {
    (c as int < 0x20 || 0x7F <= c as int <= 0x9F) && c !in ['\r', '\n', '\t']
  }

  /** The first control character a keyboard would not produce, or the length. */
  function FirstForbidden(data: string, from: nat): (k: nat)
    requires from <= |data|
    ensures from <= k <= |data|
    ensures forall i :: from <= i < k ==> !IsForbidden(data[i])
    ensures k < |data| ==> IsForbidden(data[k])
    decreases |data| - from
  {
    if from == |data| || IsForbidden(data[from]) then from else FirstForbidden(data, from + 1)
  }

  /** The longest beginning of a message that fits the log. */
  function Truncated(message: string): (r: string)
    ensures r <= message && ByteLength(r) <= MAX_LOG_MESSAGE_BYTES
    ensures r == message || ByteLength(message[..|r| + 1]) > MAX_LOG_MESSAGE_BYTES
  {
    if ByteLength(message) <= MAX_LOG_MESSAGE_BYTES then message
    else
      var shorter := Truncated(message[..|message| - 1]);
      assert |shorter| + 1 < |message| ==> message[..|message| - 1][..|shorter| + 1] == message[..|shorter| + 1];
      assert |shorter| + 1 == |message| ==> message[..|shorter| + 1] == message;
      shorter
  }

  /** The pane must exist, have opted in, and still be the spawn the command is about. */
  function CheckPane(token: Token, generation: Generation, facts: Option<PaneFacts>): Option<Refused> {
    if facts.None? then Some(UnknownPane(token))
    else if !facts.value.optedIn then Some(NotOptedIn(facts.value.pane, token))
    else if generation != facts.value.generation
    then Some(StaleGeneration(facts.value.pane, generation, facts.value.generation))
    else None
  }

  /** What the rules other than the budget say: an answer, or what is to be charged for an approval. */
  datatype Screening = Answer(verdict: Verdict) | Charge(token: Token, action: RateAction, approval: Approved)

  function ScreenInput(minIdle: nat, token: Token, facts: PaneFacts, data: string): Screening {
    if !facts.alive then Answer(Err(PaneNotRunning(facts.pane)))
    else if facts.idle < minIdle then Answer(Err(PaneBusy(facts.pane, facts.idle, minIdle)))
    else if ByteLength(data) > MAX_INPUT_BYTES
    then Answer(Err(InputTooLarge(facts.pane, ByteLength(data), MAX_INPUT_BYTES)))
    else if FirstForbidden(data, 0) < |data|
    then Answer(Err(ControlCharacter(facts.pane, data[FirstForbidden(data, 0)] as int)))
    else Charge(token, RateAction.SendInput, Input(facts.pane, data))
  }

  function ScreenRelaunch(token: Token, facts: PaneFacts, args: seq<string>, allowed: seq<string>): Screening {
    if facts.alive then Answer(Err(PaneStillRunning(facts.pane)))
    else if facts.launch.None? then Answer(Err(NoLaunchCommand(facts.pane)))
    else match LineFor(facts.launch, args, allowed)
      case Rejected(e) => Answer(Err(ResumeArgsRejected(facts.pane, e)))
      case Built(line) => Charge(token, RateAction.Relaunch, Restart(facts.pane, args, line))
  }

  function WatchVerdict(token: Token, facts: Option<PaneFacts>): Verdict {
    if facts.None? then Err(UnknownPane(token))
    else if !facts.value.mayWatchOnSignal then Err(WatchNotAllowed(facts.value.pane, token))
    else if facts.value.watchedByAnother then Err(PaneWatchedByAnother(facts.value.pane))
    else if !facts.value.alive then Err(PaneNotRunning(facts.value.pane))
    else Ok(Watch(facts.value.pane))
  }

  function Screen(minIdle: nat, cmd: Command, facts: Option<PaneFacts>, allowed: seq<string>): Screening {
    match cmd
    case Log(level, message) => Answer(Ok(LogLine(level, Truncated(message))))
    case WatchPane(token) => Answer(WatchVerdict(token, facts))
    case SendInput(token, generation, data) =>
      var wrong := CheckPane(token, generation, facts);
      if wrong.Some? then Answer(Err(wrong.value)) else ScreenInput(minIdle, token, facts.value, data)
    case Relaunch(token, generation, args) =>
      var wrong := CheckPane(token, generation, facts);
      if wrong.Some? then Answer(Err(wrong.value)) else ScreenRelaunch(token, facts.value, args, allowed)
    case Attention(token, generation) =>
      var wrong := CheckPane(token, generation, facts);
      Answer(if wrong.Some? then Err(wrong.value) else Ok(Mark(facts.value.pane)))
    case Status(token, generation, report) =>
      var wrong := CheckPane(token, generation, facts);
      Answer(if wrong.Some? then Err(wrong.value) else Ok(Told(facts.value.pane, report)))
  }

  function ChargeVerdict(cfg: Config, books: Books, token: Token, action: RateAction, approval: Approved,
                         now: nat): Verdict
    requires approval.Input? || approval.Restart?
  {
    if Grants(books, token, action, cfg.limits, now) then Ok(approval)
    else Err(RateLimited(approval.pane, action, Limit(cfg.limits, action), cfg.limits.window))
  }

  function Judged(cfg: Config, books: Books, cmd: Command, facts: Option<PaneFacts>, allowed: seq<string>,
                  now: nat): Verdict {
    var s := Screen(cfg.minIdle, cmd, facts, allowed);
    if s.Answer? then s.verdict else ChargeVerdict(cfg, books, s.token, s.action, s.approval, now)
  }

  function BooksAfter(cfg: Config, books: Books, cmd: Command, facts: Option<PaneFacts>, allowed: seq<string>,
                      now: nat): Books {
    var s := Screen(cfg.minIdle, cmd, facts, allowed);
    if s.Answer? then books else Charged(books, s.token, s.action, cfg.limits, now)
  }

  // --------------------------------------------------------------- the guard

  class Guard {
    const cfg: Config
    const budgets: Budgets

    constructor (minIdle: nat, limits: RateLimits)
      ensures cfg == Config(minIdle, limits) && fresh(budgets) && budgets.books == map[]
    {
      cfg := Config(minIdle, limits);
      budgets := new Budgets();
    }

    /** A human typed, the pane closed or the session was replaced: the spent budget is void. */
    method Cancel(token: Token)
      modifies budgets
      ensures budgets.books == old(budgets.books) - {token}
    {
      budgets.Clear(token);
    }

    method Judge(cmd: Command, facts: Option<PaneFacts>, allowed: seq<string>, now: nat) returns (v: Verdict)
      modifies budgets
      ensures v == Judged(cfg, old(budgets.books), cmd, facts, allowed, now)
      ensures budgets.books == BooksAfter(cfg, old(budgets.books), cmd, facts, allowed, now)
    {
      match cmd
      case Log(level, message) =>
        v := Ok(LogLine(level, Truncated(message)));
      case WatchPane(token) =>
        v := WatchVerdict(token, facts);
      case SendInput(token, generation, data) =>
        var wrong := CheckPane(token, generation, facts);
        if wrong.Some? {
          return Err(wrong.value);
        }
        v := JudgeSendInput(token, facts.value, data, now);
      case Relaunch(token, generation, args) =>
        var wrong := CheckPane(token, generation, facts);
        if wrong.Some? {
          return Err(wrong.value);
        }
        v := JudgeRelaunch(token, facts.value, args, allowed, now);
      case Attention(token, generation) =>
        var wrong := CheckPane(token, generation, facts);
        v := if wrong.Some? then Err(wrong.value) else Ok(Mark(facts.value.pane));
      case Status(token, generation, report) =>
        var wrong := CheckPane(token, generation, facts);
        v := if wrong.Some? then Err(wrong.value) else Ok(Told(facts.value.pane, report));
    }

    method JudgeSendInput(token: Token, facts: PaneFacts, data: string, now: nat) returns (v: Verdict)
      modifies budgets
      ensures var s := ScreenInput(cfg.minIdle, token, facts, data);
              if s.Answer? then v == s.verdict && budgets.books == old(budgets.books)
              else
                && v == ChargeVerdict(cfg, old(budgets.books), s.token, s.action, s.approval, now)
                && budgets.books == Charged(old(budgets.books), s.token, s.action, cfg.limits, now)
    {
      if !facts.alive {
        return Err(PaneNotRunning(facts.pane));
      }
      if facts.idle < cfg.minIdle {
        return Err(PaneBusy(facts.pane, facts.idle, cfg.minIdle));
      }
      var bytes := MeasureBytes(data);
      if bytes > MAX_INPUT_BYTES {
        return Err(InputTooLarge(facts.pane, bytes, MAX_INPUT_BYTES));
      }
      var bad := FirstForbidden(data, 0);
      if bad < |data| {
        return Err(ControlCharacter(facts.pane, data[bad] as int));
      }
      v := Spend(token, RateAction.SendInput, Input(facts.pane, data), now);
    }

    method JudgeRelaunch(token: Token, facts: PaneFacts, args: seq<string>, allowed: seq<string>, now: nat)
      returns (v: Verdict)
      modifies budgets
      ensures var s := ScreenRelaunch(token, facts, args, allowed);
              if s.Answer? then v == s.verdict && budgets.books == old(budgets.books)
              else
                && v == ChargeVerdict(cfg, old(budgets.books), s.token, s.action, s.approval, now)
                && budgets.books == Charged(old(budgets.books), s.token, s.action, cfg.limits, now)
    {
      if facts.alive {
        return Err(PaneStillRunning(facts.pane));
      }
      if facts.launch.None? {
        return Err(NoLaunchCommand(facts.pane));
      }
      var line := BuildResumeLine(facts.launch, args, allowed);
      if line.Rejected? {
        return Err(ResumeArgsRejected(facts.pane, line.error));
      }
      v := Spend(token, RateAction.Relaunch, Restart(facts.pane, args, line.line), now);
    }

    /** The last check before an approval. */
    method Spend(token: Token, action: RateAction, approval: Approved, now: nat) returns (v: Verdict)
      requires approval.Input? || approval.Restart?
      modifies budgets
      ensures v == ChargeVerdict(cfg, old(budgets.books), token, action, approval, now)
      ensures budgets.books == Charged(old(budgets.books), token, action, cfg.limits, now)
    {
      var granted := budgets.TrySpend(token, action, cfg.limits, now);
      v := if granted then Ok(approval)
           else Err(RateLimited(approval.pane, action, Limit(cfg.limits, action), cfg.limits.window));
    }
  }

  // ------------------------------------------------------- what it takes

  /** What a keyboard can produce. */
  predicate OnKeyboard(code: int) {
    code == 9 || code == 10 || code == 13 || 32 <= code < 127 || 160 <= code
  }

  lemma ForbiddenExactly(c: char)
    ensures IsForbidden(c) <==> !OnKeyboard(c as int)
  {
  }

  /** The pane exists, is the asking plugin's, and is still the spawn the command names. */
  predicate IsNamed(facts: Option<PaneFacts>, generation: Generation) {
    facts.Some? && facts.value.optedIn && facts.value.generation == generation
  }

  /** Everything that must hold for a plugin's input to be typed, and what is then typed. */
  lemma InputApprovedExactly(cfg: Config, books: Books, facts: Option<PaneFacts>, allowed: seq<string>,
                             token: Token, generation: Generation, data: string, now: nat)
    ensures var v := Judged(cfg, books, Command.SendInput(token, generation, data), facts, allowed, now);
            && (v.Ok? <==>
                && IsNamed(facts, generation) && facts.value.alive && facts.value.idle >= cfg.minIdle
                && |Utf8(data)| <= 8192
                && (forall i :: 0 <= i < |data| ==> OnKeyboard(data[i] as int))
                && Grants(books, token, RateAction.SendInput, cfg.limits, now))
            && (v.Ok? ==> v.approved == Input(facts.value.pane, data))
  {
    hide ByteLength, Grants;
    LengthIsEncoded(data);
    forall i | 0 <= i < |data|
      ensures IsForbidden(data[i]) <==> !OnKeyboard(data[i] as int)
    {
      ForbiddenExactly(data[i]);
    }
    hide IsForbidden, OnKeyboard;
  }

  /** And for a pane to be relaunched, and what is then run. */
  lemma RelaunchApprovedExactly(cfg: Config, books: Books, facts: Option<PaneFacts>, allowed: seq<string>,
                                token: Token, generation: Generation, args: seq<string>, now: nat)
    ensures var v := Judged(cfg, books, Command.Relaunch(token, generation, args), facts, allowed, now);
            && (v.Ok? <==>
                && IsNamed(facts, generation) && !facts.value.alive && facts.value.launch.Some?
                && ArgsAllowed(args, allowed)
                && Grants(books, token, RateAction.Relaunch, cfg.limits, now))
            && (v.Ok? ==>
                v.approved == Restart(facts.value.pane, args, Join([facts.value.launch.value] + args, ' ')))
  {
    hide Grants, ArgsAllowed, Join, FirstBad;
    if facts.Some? {
      LineHoldsArguments(facts.value.launch, args, allowed);
    }
  }

  /** Reports need the pane's consent and its generation; asking for a pane needs neither. */
  lemma OthersApprovedExactly(cfg: Config, books: Books, facts: Option<PaneFacts>, allowed: seq<string>,
                              cmd: Command, now: nat)
    requires !cmd.SendInput? && !cmd.Relaunch?
    ensures var v := Judged(cfg, books, cmd, facts, allowed, now);
            match cmd
            case Log(level, message) => v.Ok? && v.approved.LogLine? && v.approved.level == level
            case WatchPane(_) =>
              && (v.Ok? <==> facts.Some? && facts.value.mayWatchOnSignal && !facts.value.watchedByAnother
                             && facts.value.alive)
              && (v.Ok? ==> v.approved == Watch(facts.value.pane))
            case Attention(_, generation) =>
              && (v.Ok? <==> IsNamed(facts, generation))
              && (v.Ok? ==> v.approved == Mark(facts.value.pane))
            case Status(_, generation, report) =>
              && (v.Ok? <==> IsNamed(facts, generation))
              && (v.Ok? ==> v.approved == Told(facts.value.pane, report))
            case _ => true
  {
  }

  /** The reasons that come before every other. */
  lemma NamingRefusals(cfg: Config, books: Books, facts: Option<PaneFacts>, allowed: seq<string>,
                       cmd: Command, now: nat)
    requires !cmd.Log? && !cmd.WatchPane?
    ensures var v := Judged(cfg, books, cmd, facts, allowed, now);
            && (facts.None? <==> v == Err(UnknownPane(cmd.token)))
            && (facts.Some? && !facts.value.optedIn <==>
                facts.Some? && v == Err(NotOptedIn(facts.value.pane, cmd.token)))
            && (facts.Some? && facts.value.optedIn && facts.value.generation != cmd.generation <==>
                facts.Some? && v == Err(StaleGeneration(facts.value.pane, cmd.generation, facts.value.generation)))
  {
    hide LineFor, ByteLength, FirstForbidden, Grants;
  }

  // -------------------------------------------------------------- whole runs

  datatype Op =
    | Judge(cmd: Command, facts: Option<PaneFacts>, allowed: seq<string>, at: nat)
    | Cancel(token: Token, at: nat)

  function Step(cfg: Config, books: Books, op: Op): Books {
    match op
    case Judge(cmd, facts, allowed, at) => BooksAfter(cfg, books, cmd, facts, allowed, at)
    case Cancel(token, _) => books - {token}
  }

  function Run(cfg: Config, ops: seq<Op>): Books {
    if ops == [] then map[] else Step(cfg, Run(cfg, ops[..|ops| - 1]), ops[|ops| - 1])
  }

  function VerdictOn(cfg: Config, books: Books, op: Op): Option<Verdict> {
    match op
    case Judge(cmd, facts, allowed, at) => Some(Judged(cfg, books, cmd, facts, allowed, at))
    case Cancel(_, _) => None
  }

  /** The verdicts of a run, in order. */
  function Verdicts(cfg: Config, ops: seq<Op>): (vs: seq<Option<Verdict>>)
    ensures |vs| == |ops|
  {
    if ops == [] then []
    else
      var init := ops[..|ops| - 1];
      Verdicts(cfg, init) + [VerdictOn(cfg, Run(cfg, init), ops[|ops| - 1])]
  }

  /** The clock never goes back and has not passed `now`. */
  predicate Ordered(ops: seq<Op>, now: nat) {
    ops == [] || (ops[|ops| - 1].at <= now && Ordered(ops[..|ops| - 1], ops[|ops| - 1].at))
  }

  /** Whether an operation with its verdict is an approved action of this kind on this slot. */
  predicate IsGrant(op: Op, v: Option<Verdict>, token: Token, action: RateAction) {
    && op.Judge? && v.Some? && v.value.Ok?
    && if action.SendInput? then op.cmd.SendInput? && op.cmd.token == token
       else op.cmd.Relaunch? && op.cmd.token == token
  }

  /** When actions of one kind were approved for a slot since its budget was last cancelled. */
  function Granted(cfg: Config, ops: seq<Op>, token: Token, action: RateAction): seq<nat> {
    if ops == [] then []
    else
      var init, last := ops[..|ops| - 1], ops[|ops| - 1];
      if last.Cancel? && last.token == token then []
      else
        var before := Granted(cfg, init, token, action);
        if IsGrant(last, VerdictOn(cfg, Run(cfg, init), last), token, action) then before + [last.at] else before
  }

  /** Whether an operation reaches the budget of this slot and action. */
  predicate Reaches(cfg: Config, op: Op, token: Token, action: RateAction) {
    && op.Judge?
    && var s := Screen(cfg.minIdle, op.cmd, op.facts, op.allowed);
       s.Charge? && s.token == token && s.action == action
  }

  lemma StampsAfter(cfg: Config, books: Books, op: Op, token: Token, action: RateAction)
    ensures Stamps(Step(cfg, books, op), token, action) ==
              if op.Cancel? && op.token == token then []
              else if Reaches(cfg, op, token, action)
              then
                var live := Fresh(Stamps(books, token, action), op.at, cfg.limits.window);
                if HasRoom(live, Limit(cfg.limits, action)) then live + [op.at] else live
              else Stamps(books, token, action)
  {
    hide Screen, Fresh, HasRoom;
  }

  /** An action is approved exactly where it reaches its budget and finds room. */
  lemma GrantIsCharge(cfg: Config, books: Books, op: Op, token: Token, action: RateAction)
    ensures IsGrant(op, VerdictOn(cfg, books, op), token, action)
        <==> Reaches(cfg, op, token, action) && Grants(books, token, action, cfg.limits, op.at)
  {
    hide LineFor, FirstForbidden, ByteLength, Grants;
  }

  /** The pruned stamps answer as the whole record of approvals would, in every run. */
  lemma {:induction false} RunTracks(cfg: Config, ops: seq<Op>, token: Token, action: RateAction, now: nat)
    requires LimitsOk(cfg.limits) && Ordered(ops, now)
    ensures Tracks(Stamps(Run(cfg, ops), token, action), Granted(cfg, ops, token, action),
                   Limit(cfg.limits, action), cfg.limits.window, now)
    ensures Paced(Granted(cfg, ops, token, action), Limit(cfg.limits, action), cfg.limits.window)
  {
    hide Screen, IsGrant, Step, Grants, Fresh, Within, VerdictOn;
    var max, window := Limit(cfg.limits, action), cfg.limits.window;
    if ops == [] {
      NothingWithin(window);
    } else {
      var init, last := ops[..|ops| - 1], ops[|ops| - 1];
      RunTracks(cfg, init, token, action, last.at);
      StampsAfter(cfg, Run(cfg, init), last, token, action);
      GrantIsCharge(cfg, Run(cfg, init), last, token, action);
      RoomIsGrant(cfg, Run(cfg, init), token, action, last.at);
      ChargeTracks(Stamps(Run(cfg, init), token, action), Granted(cfg, init, token, action), max, window, last.at);
      NothingWithin(window);
      TracksLater(Stamps(Run(cfg, ops), token, action), Granted(cfg, ops, token, action), max, window, last.at, now);
    }
  }

  lemma RoomIsGrant(cfg: Config, books: Books, token: Token, action: RateAction, now: nat)
    ensures Grants(books, token, action, cfg.limits, now)
        <==> HasRoom(Fresh(Stamps(books, token, action), now, cfg.limits.window), Limit(cfg.limits, action))
  {
  }

  lemma NothingWithin(window: nat)
    ensures forall max: nat :: Paced([], max, window)
  {
  }

  /**
    Over every run with a clock that never goes back, any interval one window long holds
    at most the configured number of approvals of a kind for a slot since its last
    cancellation, whatever pane ids and generations the slot went through.
   */
  lemma SlidingWindow(cfg: Config, ops: seq<Op>, token: Token, action: RateAction, start: nat, now: nat)
    requires LimitsOk(cfg.limits) && Ordered(ops, now)
    ensures |Within(Granted(cfg, ops, token, action), start, cfg.limits.window)|
         <= match action case SendInput => cfg.limits.maxSends case Relaunch => cfg.limits.maxRelaunches
  {
    RunTracks(cfg, ops, token, action, now);
  }

  /** Cancelling gives one slot its whole budget back and touches no other. */
  lemma CancelStartsAfresh(cfg: Config, ops: seq<Op>, token: Token, at: nat, op: Op)
    requires op.Judge? && !op.cmd.Log?
    ensures VerdictOn(cfg, Run(cfg, ops + [Cancel(token, at)]), op)
         == VerdictOn(cfg, if op.cmd.token == token then map[] else Run(cfg, ops), op)
  {
    hide Run, Fresh, FirstForbidden, LineFor, ByteLength;
    CancelRun(cfg, ops, token, at);
  }

  lemma CancelRun(cfg: Config, ops: seq<Op>, token: Token, at: nat)
    ensures Run(cfg, ops + [Cancel(token, at)]) == Run(cfg, ops) - {token}
  {
    assert (ops + [Cancel(token, at)])[..|ops|] == ops;
  }

  // ------------------------------------------------------ refusals leave no trace

  function Kept<T>(items: seq<T>, keep: seq<bool>): seq<T>
    requires |items| == |keep|
  {
    if items == [] then []
    else
      var n := |items| - 1;
      Kept(items[..n], keep[..n]) + if keep[n] then [items[n]] else []
  }

  /** Only refused commands are left out. */
  predicate DropsRefusals(cfg: Config, ops: seq<Op>, keep: seq<bool>)
    requires |ops| == |keep|
  {
    forall i :: 0 <= i < |ops| && !keep[i] ==>
      Verdicts(cfg, ops)[i].Some? && Verdicts(cfg, ops)[i].value.Err?
  }

  lemma DropsRefusalsInit(cfg: Config, ops: seq<Op>, keep: seq<bool>)
    requires |ops| == |keep| && ops != [] && DropsRefusals(cfg, ops, keep)
    ensures var n := |ops| - 1;
            && DropsRefusals(cfg, ops[..n], keep[..n])
            && (!keep[n] ==>
                var v := VerdictOn(cfg, Run(cfg, ops[..n]), ops[n]);
                v.Some? && v.value.Err?)
  {
    hide VerdictOn, Run;
    var n := |ops| - 1;
    forall i | 0 <= i < n && !keep[..n][i]
      ensures Verdicts(cfg, ops[..n])[i].Some? && Verdicts(cfg, ops[..n])[i].value.Err?
    {
      assert Verdicts(cfg, ops)[i] == Verdicts(cfg, ops[..n])[i];
    }
    assert !keep[n] ==> Verdicts(cfg, ops)[n].Some?;
  }

  ghost predicate SameFrom(a: Books, b: Books, token: Token, action: RateAction, now: nat, window: nat) {
    Fresh(Stamps(a, token, action), now, window) == Fresh(Stamps(b, token, action), now, window)
  }

  lemma SameLater(a: Books, b: Books, token: Token, action: RateAction, earlier: nat, now: nat, window: nat)
    requires earlier <= now && SameFrom(a, b, token, action, earlier, window)
    ensures SameFrom(a, b, token, action, now, window)
  {
    FreshAgain(Stamps(a, token, action), earlier, now, window);
    FreshAgain(Stamps(b, token, action), earlier, now, window);
  }

  /** Books that look the same now still do after the same operation. */
  lemma SameStep(cfg: Config, a: Books, b: Books, op: Op, token: Token, action: RateAction)
    requires SameFrom(a, b, token, action, op.at, cfg.limits.window)
    ensures SameFrom(Step(cfg, a, op), Step(cfg, b, op), token, action, op.at, cfg.limits.window)
  {
    hide Step, Reaches, HasRoom, Fresh;
    StampsAfter(cfg, a, op, token, action);
    StampsAfter(cfg, b, op, token, action);
  }

  /** A refused command, even one that pruned or opened an account, changes nothing later. */
  lemma RefusalStep(cfg: Config, books: Books, op: Op, token: Token, action: RateAction)
    requires VerdictOn(cfg, books, op).Some? && VerdictOn(cfg, books, op).value.Err?
    ensures SameFrom(books, Step(cfg, books, op), token, action, op.at, cfg.limits.window)
  {
    hide Step, Reaches, HasRoom, Fresh, VerdictOn, Grants;
    StampsAfter(cfg, books, op, token, action);
    GrantIsCharge(cfg, books, op, token, action);
    RoomIsGrant(cfg, books, token, action, op.at);
    CancelHasNoVerdict(cfg, books, op);
    FreshAgain(Stamps(books, token, action), op.at, op.at, cfg.limits.window);
  }

  lemma CancelHasNoVerdict(cfg: Config, books: Books, op: Op)
    ensures VerdictOn(cfg, books, op).Some? <==> op.Judge?
  {
  }

  lemma {:induction false} SameBooks(cfg: Config, ops: seq<Op>, keep: seq<bool>, token: Token, action: RateAction,
                                     now: nat)
    requires |ops| == |keep| && Ordered(ops, now) && DropsRefusals(cfg, ops, keep)
    ensures SameFrom(Run(cfg, ops), Run(cfg, Kept(ops, keep)), token, action, now, cfg.limits.window)
  {
    hide Step, SameFrom, VerdictOn, DropsRefusals;
    if ops == [] {
      SameReflexive(Run(cfg, ops), token, action, now, cfg.limits.window);
    } else {
      var n := |ops| - 1;
      var init, last, window := ops[..n], ops[n], cfg.limits.window;
      DropsRefusalsInit(cfg, ops, keep);
      SameBooks(cfg, init, keep[..n], token, action, last.at);
      var less := Kept(init, keep[..n]);
      if keep[n] {
        SameStep(cfg, Run(cfg, init), Run(cfg, less), last, token, action);
        assert (less + [last])[..|less|] == less;
      } else {
        RefusalStep(cfg, Run(cfg, init), last, token, action);
        SameChain(Run(cfg, init), Run(cfg, ops), Run(cfg, less), token, action, last.at, window);
        assert less + [] == less;
      }
      SameLater(Run(cfg, ops), Run(cfg, Kept(ops, keep)), token, action, last.at, now, window);
    }
  }

  lemma SameReflexive(a: Books, token: Token, action: RateAction, now: nat, window: nat)
    ensures SameFrom(a, a, token, action, now, window)
  {
  }

  lemma SameChain(a: Books, b: Books, c: Books, token: Token, action: RateAction, now: nat, window: nat)
    requires SameFrom(a, b, token, action, now, window) && SameFrom(a, c, token, action, now, window)
    ensures SameFrom(b, c, token, action, now, window)
  {
  }

  /** Books that look the same give the same verdict. */
  lemma SameVerdict(cfg: Config, ops: seq<Op>, keep: seq<bool>, op: Op)
    requires |ops| == |keep| && Ordered(ops, op.at) && DropsRefusals(cfg, ops, keep)
    ensures VerdictOn(cfg, Run(cfg, ops), op) == VerdictOn(cfg, Run(cfg, Kept(ops, keep)), op)
  {
    hide Screen, Fresh, HasRoom, DropsRefusals, Run, Ordered, Kept;
    if op.Judge? {
      var s := Screen(cfg.minIdle, op.cmd, op.facts, op.allowed);
      if s.Charge? {
        SameBooks(cfg, ops, keep, s.token, s.action, op.at);
      }
    }
  }

  /**
    Leaving any refused commands out of a run, all of them or some, changes the verdict
    on no command that remains.
   */
  lemma {:induction false} RefusalsAreInvisible(cfg: Config, ops: seq<Op>, keep: seq<bool>, now: nat)
    requires |ops| == |keep| && Ordered(ops, now) && DropsRefusals(cfg, ops, keep)
    ensures Verdicts(cfg, Kept(ops, keep)) == Kept(Verdicts(cfg, ops), keep)
  {
    hide VerdictOn, DropsRefusals, Run;
    if ops != [] {
      var n := |ops| - 1;
      var init, last := ops[..n], ops[n];
      DropsRefusalsInit(cfg, ops, keep);
      RefusalsAreInvisible(cfg, init, keep[..n], last.at);
      SameVerdict(cfg, init, keep[..n], last);
      var less := Kept(init, keep[..n]);
      assert Verdicts(cfg, ops)[..n] == Verdicts(cfg, init);
      if keep[n] {
        assert (less + [last])[..|less|] == less;
      } else {
        assert less + [] == less;
      }
    }
  }
}
