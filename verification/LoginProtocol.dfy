/** Concurrent logins against one identifier: guard_login_attempt, then the password check
    outside any lock, then record_login_failure or reset_login_failures
    (apps/api/app/rate_limit.py and apps/api/app/routers/auth.py).
 */
module LoginProtocol {
  import opened RateLimiter

  /** The identifier's deque and the attempts that passed the guard and are not decided. */
  datatype State = State(hits: seq<real>, inFlight: nat)

  datatype Event = Guard(now: real) | Fail(now: real) | Succeed

  function Blocked(lim: Limits, s: State, now: real): bool {
    Step(lim, s.hits, IsBlocked(now)).1 == Verdict(true)
  }

  /** At most k attempts are ever past the guard at once. */
  predicate Enabled(s: State, e: Event, k: nat) {
    if e.Guard? then s.inFlight < k else s.inFlight > 0
  }

  function Apply(lim: Limits, s: State, e: Event): State
    requires e.Guard? || s.inFlight > 0
  {
    match e
    case Guard(now) =>
      State(Step(lim, s.hits, IsBlocked(now)).0, if Blocked(lim, s, now) then s.inFlight else s.inFlight + 1)
    case Fail(now) => State(Step(lim, s.hits, Record(now)).0, s.inFlight - 1)
    case Succeed => State(Step(lim, s.hits, Reset).0, s.inFlight - 1)
  }

  predicate Runs(lim: Limits, k: nat, s: State, events: seq<Event>)
    decreases |events|
  {
    events == [] || (Enabled(s, events[0], k) && Runs(lim, k, Apply(lim, s, events[0]), events[1..]))
  }

  function End(lim: Limits, k: nat, s: State, events: seq<Event>): State
    requires Runs(lim, k, s, events)
    decreases |events|
  {
    if events == [] then s else End(lim, k, Apply(lim, s, events[0]), events[1..])
  }

  const START := State([], 0)

  /** Failures on record plus attempts still undecided. */
  ghost predicate Bounded(lim: Limits, k: nat, s: State) {
    |s.hits| + s.inFlight <= lim.maxCalls - 1 + k
  }

  lemma BoundedKept(lim: Limits, k: nat, s: State, e: Event)
    requires lim.maxCalls >= 1 && Bounded(lim, k, s) && Enabled(s, e, k)
    ensures Bounded(lim, k, Apply(lim, s, e))
  {
    match e
    case Guard(now) => PruneDropsExpiredPrefix(s.hits, now - lim.window);
    case Fail(now) => PruneDropsExpiredPrefix(s.hits, now - lim.window);
    case Succeed =>
  }

  lemma {:induction false} BoundedOnRuns(lim: Limits, k: nat, s: State, events: seq<Event>)
    requires lim.maxCalls >= 1 && Bounded(lim, k, s) && Runs(lim, k, s, events)
    ensures Bounded(lim, k, End(lim, k, s, events))
    decreases |events|
  {
    if events != [] {
      BoundedKept(lim, k, s, events[0]);
      BoundedOnRuns(lim, k, Apply(lim, s, events[0]), events[1..]);
    }
  }

  /** However logins interleave, an identifier never has more than maxCalls + k - 1 failures
      on record when at most k of its attempts are in flight at once. No order of the
      clock readings is assumed. */
  lemma FailuresBounded(lim: Limits, k: nat, events: seq<Event>)
    requires lim.maxCalls >= 1 && Runs(lim, k, START, events)
    ensures |End(lim, k, START, events).hits| <= lim.maxCalls + k - 1
  {
    BoundedOnRuns(lim, k, START, events);
  }

  // ------------------------------------------------------------ the bound is met

  function Times(n: nat): seq<real> {
    seq(n, _ => 0.0)
  }

  lemma NothingExpires(lim: Limits, n: nat)
    requires lim.window > 0.0
    ensures Prune(Times(n), 0.0 - lim.window) == Times(n)
  {
  }

  lemma {:induction false} Chain(lim: Limits, k: nat, s: State, first: seq<Event>, second: seq<Event>)
    requires Runs(lim, k, s, first) && Runs(lim, k, End(lim, k, s, first), second)
    ensures Runs(lim, k, s, first + second)
    ensures End(lim, k, s, first + second) == End(lim, k, End(lim, k, s, first), second)
    decreases |first|
  {
    if first == [] {
      assert first + second == second;
    } else {
      Chain(lim, k, Apply(lim, s, first[0]), first[1..], second);
      assert (first + second)[1..] == first[1..] + second;
    }
  }

  /** One attempt after another fails, up to one below the cap. */
  lemma {:induction false} FailInTurn(lim: Limits, k: nat, n: nat) returns (events: seq<Event>)
    requires lim.window > 0.0 && n < lim.maxCalls && k >= 1
    ensures Runs(lim, k, START, events) && End(lim, k, START, events) == State(Times(n), 0)
  {
    if n == 0 {
      events := [];
      assert Times(0) == [];
    } else {
      var before := FailInTurn(lim, k, n - 1);
      var s := State(Times(n - 1), 0);
      NothingExpires(lim, n - 1);
      var s1 := Apply(lim, s, Guard(0.0));
      assert s1 == State(Times(n - 1), 1);
      assert Apply(lim, s1, Fail(0.0)) == State(Times(n), 0);
      var two := [Guard(0.0), Fail(0.0)];
      assert two[1..] == [Fail(0.0)] && two[1..][1..] == [];
      assert Runs(lim, k, s1, two[1..]);
      Chain(lim, k, START, before, two);
      events := before + two;
    }
  }

  /** m attempts pass the guard together. */
  lemma {:induction false} GuardTogether(lim: Limits, k: nat, n: nat, m: nat) returns (events: seq<Event>)
    requires lim.window > 0.0 && n < lim.maxCalls && m <= k
    ensures Runs(lim, k, State(Times(n), 0), events) && End(lim, k, State(Times(n), 0), events) == State(Times(n), m)
  {
    if m == 0 {
      events := [];
    } else {
      var before := GuardTogether(lim, k, n, m - 1);
      NothingExpires(lim, n);
      assert Apply(lim, State(Times(n), m - 1), Guard(0.0)) == State(Times(n), m);
      assert [Guard(0.0)][1..] == [];
      Chain(lim, k, State(Times(n), 0), before, [Guard(0.0)]);
      events := before + [Guard(0.0)];
    }
  }

  /** and then all fail. */
  lemma {:induction false} FailTogether(lim: Limits, k: nat, n: nat, m: nat) returns (events: seq<Event>)
    requires lim.window > 0.0
    ensures Runs(lim, k, State(Times(n), m), events) && End(lim, k, State(Times(n), m), events) == State(Times(n + m), 0)
    decreases m
  {
    if m == 0 {
      events := [];
    } else {
      NothingExpires(lim, n);
      assert Times(n) + [0.0] == Times(n + 1);
      assert Apply(lim, State(Times(n), m), Fail(0.0)) == State(Times(n + 1), m - 1);
      var rest := FailTogether(lim, k, n + 1, m - 1);
      events := [Fail(0.0)] + rest;
      assert events[1..] == rest;
    }
  }

  /** No smaller bound holds: with k attempts in flight the record reaches maxCalls + k - 1. */
  lemma BoundIsReached(lim: Limits, k: nat)
    requires lim.maxCalls >= 1 && lim.window > 0.0 && k >= 1
    ensures exists events :: Runs(lim, k, START, events) && |End(lim, k, START, events).hits| == lim.maxCalls + k - 1
  {
    var n := lim.maxCalls - 1;
    var first := FailInTurn(lim, k, n);
    var second := GuardTogether(lim, k, n, k);
    var third := FailTogether(lim, k, n, k);
    Chain(lim, k, START, first, second);
    Chain(lim, k, START, first + second, third);
    assert Runs(lim, k, START, first + second + third);
    assert |Times(n + k)| == lim.maxCalls + k - 1;
  }
}
