/**
  How much plugins may do to one pane slot per window of time. Stamps of approved actions
  are kept per slot token and pruned whenever they are read, also when the answer is no.
 */
module RateBudget {

  /** A slot's name. It survives relaunches, which mint new pane ids. */
  type Token = string

  datatype RateAction = SendInput | Relaunch

  datatype RateLimits = RateLimits(maxSends: nat, maxRelaunches: nat, window: nat)

  datatype PaneBudget = PaneBudget(sends: seq<nat>, relaunches: seq<nat>)

  type Books = map<Token, PaneBudget>

  const U32_RANGE: nat := 0x1_0000_0000

  const NO_BUDGET := PaneBudget([], [])

  /** Limits are 32-bit numbers. */
  predicate LimitsOk(limits: RateLimits) {
    limits.maxSends < U32_RANGE && limits.maxRelaunches < U32_RANGE
  }

  function Limit(limits: RateLimits, action: RateAction): nat {
    if action.SendInput? then limits.maxSends else limits.maxRelaunches
  }

  function StampsOf(b: PaneBudget, action: RateAction): seq<nat> {
    if action.SendInput? then b.sends else b.relaunches
  }

  function WithStamps(b: PaneBudget, action: RateAction, stamps: seq<nat>): PaneBudget {
    if action.SendInput? then b.(sends := stamps) else b.(relaunches := stamps)
  }

  function Stamps(books: Books, token: Token, action: RateAction): seq<nat> {
    if token in books then StampsOf(books[token], action) else []
  }

  /** Time since `at`, zero for a stamp in the future. */
  function Since(at: nat, now: nat): nat {
    if at <= now then now - at else 0
  }

  /** The stamps still inside the window at `now`. */
  function Fresh(stamps: seq<nat>, now: nat, window: nat): seq<nat> {
    if stamps == [] then []
    else
      var last := stamps[|stamps| - 1];
      Fresh(stamps[..|stamps| - 1], now, window) + if Since(last, now) < window then [last] else []
  }

  /** The source narrows the length to 32 bits before comparing. */
  predicate HasRoom(stamps: seq<nat>, max: nat) {
    |stamps| % U32_RANGE < max
  }

  predicate Grants(books: Books, token: Token, action: RateAction, limits: RateLimits, now: nat) {
    HasRoom(Fresh(Stamps(books, token, action), now, limits.window), Limit(limits, action))
  }

  function Charged(books: Books, token: Token, action: RateAction, limits: RateLimits, now: nat): Books {
    var budget := if token in books then books[token] else NO_BUDGET;
    var live := Fresh(StampsOf(budget, action), now, limits.window);
    books[token := WithStamps(budget, action, if HasRoom(live, Limit(limits, action)) then live + [now] else live)]
  }

  class Budgets {
    var books: Books

    constructor ()
      ensures books == map[]
    {
      books := map[];
    }

    method TrySpend(token: Token, action: RateAction, limits: RateLimits, now: nat) returns (granted: bool)
      modifies this
      ensures granted == Grants(old(books), token, action, limits, now)
      ensures books == Charged(old(books), token, action, limits, now)
    {
      var budget := if token in books then books[token] else NO_BUDGET;
      var stamps := Retain(StampsOf(budget, action), now, limits.window);
      if |stamps| % U32_RANGE >= Limit(limits, action) {
        books := books[token := WithStamps(budget, action, stamps)];
        return false;
      }
      books := books[token := WithStamps(budget, action, stamps + [now])];
      granted := true;
    }

    method Clear(token: Token)
      modifies this
      ensures books == old(books) - {token}
    {
      books := books - {token};
    }
  }

  /** Drops the stamps that have left the window, in place of the list they came from. */
  method Retain(stamps: seq<nat>, now: nat, window: nat) returns (kept: seq<nat>)
    ensures kept == Fresh(stamps, now, window)
  {
    kept := [];
    for i := 0 to |stamps|
      invariant kept == Fresh(stamps[..i], now, window)
    {
      assert stamps[..i + 1][..i] == stamps[..i];
      if Since(stamps[i], now) < window {
        kept := kept + [stamps[i]];
      }
    }
    assert stamps[..|stamps|] == stamps;
  }

  // ------------------------------------------------------------------- facts

  /** Pruning earlier never changes what a later look at the stamps finds. */
  lemma {:induction false} FreshAgain(stamps: seq<nat>, earlier: nat, now: nat, window: nat)
    requires earlier <= now
    ensures Fresh(Fresh(stamps, earlier, window), now, window) == Fresh(stamps, now, window)
  {
    if stamps != [] {
      var init, last := stamps[..|stamps| - 1], stamps[|stamps| - 1];
      FreshAgain(init, earlier, now, window);
      if Since(last, earlier) < window {
        FreshSnoc(Fresh(init, earlier, window), last, now, window);
      } else {
        assert Fresh(stamps, earlier, window) == Fresh(init, earlier, window);
      }
    }
  }

  lemma FreshSnoc(stamps: seq<nat>, last: nat, now: nat, window: nat)
    ensures Fresh(stamps + [last], now, window)
         == Fresh(stamps, now, window) + if Since(last, now) < window then [last] else []
  {
    assert (stamps + [last])[..|stamps|] == stamps;
  }

  lemma {:induction false} FreshLength(stamps: seq<nat>, now: nat, window: nat)
    ensures |Fresh(stamps, now, window)| <= |stamps|
  {
    if stamps != [] {
      FreshLength(stamps[..|stamps| - 1], now, window);
    }
  }

  /** How many stamps are younger than the window, counted one by one. */
  function YoungerThan(stamps: seq<nat>, now: nat, window: nat): nat {
    if stamps == [] then 0
    else
      YoungerThan(stamps[1..], now, window) + if window > 0 && now < stamps[0] + window then 1 else 0
  }

  lemma {:induction false} YoungerAppend(a: seq<nat>, b: seq<nat>, now: nat, window: nat)
    ensures YoungerThan(a + b, now, window) == YoungerThan(a, now, window) + YoungerThan(b, now, window)
  {
    if a == [] {
      assert a + b == b;
    } else {
      assert (a + b)[1..] == a[1..] + b;
      YoungerAppend(a[1..], b, now, window);
    }
  }

  lemma {:induction false} FreshCounts(stamps: seq<nat>, now: nat, window: nat)
    ensures |Fresh(stamps, now, window)| == YoungerThan(stamps, now, window)
  {
    if stamps != [] {
      var init, last := stamps[..|stamps| - 1], stamps[|stamps| - 1];
      FreshCounts(init, now, window);
      YoungerAppend(init, [last], now, window);
      assert stamps == init + [last];
      assert [last][1..] == [];
    }
  }

  /** What the two kinds of action are measured by. */
  lemma GrantedExactly(books: Books, token: Token, limits: RateLimits, now: nat)
    requires token in books ==> |books[token].sends| < U32_RANGE && |books[token].relaunches| < U32_RANGE
    ensures var b := if token in books then books[token] else PaneBudget([], []);
            && (Grants(books, token, SendInput, limits, now) <==>
                YoungerThan(b.sends, now, limits.window) < limits.maxSends)
            && (Grants(books, token, Relaunch, limits, now) <==>
                YoungerThan(b.relaunches, now, limits.window) < limits.maxRelaunches)
  {
    var b := if token in books then books[token] else PaneBudget([], []);
    FreshCounts(b.sends, now, limits.window);
    FreshCounts(b.relaunches, now, limits.window);
    FreshLength(b.sends, now, limits.window);
    FreshLength(b.relaunches, now, limits.window);
  }

  /** The stamps in the half-open interval of one window's length from `start`. */
  function Within(stamps: seq<nat>, start: nat, window: nat): seq<nat> {
    if stamps == [] then []
    else
      var last := stamps[|stamps| - 1];
      Within(stamps[..|stamps| - 1], start, window) + if start <= last < start + window then [last] else []
  }

  /** Past stamps inside an interval holding `now` are all still fresh. */
  lemma {:induction false} WithinIsFresh(stamps: seq<nat>, start: nat, now: nat, window: nat)
    requires start <= now < start + window
    ensures |Within(stamps, start, window)| <= |Fresh(stamps, now, window)|
  {
    if stamps != [] {
      WithinIsFresh(stamps[..|stamps| - 1], start, now, window);
    }
  }

  /**
    What the books hold for one slot and action against every grant since its last clear:
    within the limit, and from `now` on the same answer as the full record would give.
   */
  ghost predicate Tracks(stamps: seq<nat>, granted: seq<nat>, max: nat, window: nat, now: nat) {
    && |stamps| <= max
    && Fresh(stamps, now, window) == Fresh(granted, now, window)
  }

  ghost predicate Paced(granted: seq<nat>, max: nat, window: nat) {
    forall start: nat :: |Within(granted, start, window)| <= max
  }

  lemma TracksLater(stamps: seq<nat>, granted: seq<nat>, max: nat, window: nat, earlier: nat, now: nat)
    requires earlier <= now && Tracks(stamps, granted, max, window, earlier)
    ensures Tracks(stamps, granted, max, window, now)
  {
    FreshAgain(stamps, earlier, now, window);
    FreshAgain(granted, earlier, now, window);
  }

  /** One look at the stamps keeps them tracking, whatever the answer. */
  lemma ChargeTracks(stamps: seq<nat>, granted: seq<nat>, max: nat, window: nat, now: nat)
    requires max < U32_RANGE && Tracks(stamps, granted, max, window, now)
    requires Paced(granted, max, window)
    ensures var live := Fresh(stamps, now, window);
            if HasRoom(live, max)
            then Tracks(live + [now], granted + [now], max, window, now) && Paced(granted + [now], max, window)
            else Tracks(live, granted, max, window, now)
  {
    hide Fresh, Within;
    var live := Fresh(stamps, now, window);
    FreshAgain(stamps, now, now, window);
    FreshLength(stamps, now, window);
    if HasRoom(live, max) {
      FreshSnoc(live, now, now, window);
      FreshSnoc(granted, now, now, window);
      forall start: nat
        ensures |Within(granted + [now], start, window)| <= max
      {
        WithinSnoc(granted, now, start, window);
        if start <= now < start + window {
          WithinIsFresh(granted, start, now, window);
        }
      }
    }
  }

  lemma WithinSnoc(stamps: seq<nat>, last: nat, start: nat, window: nat)
    ensures Within(stamps + [last], start, window)
         == Within(stamps, start, window) + if start <= last < start + window then [last] else []
  {
    assert (stamps + [last])[..|stamps|] == stamps;
  }
}
