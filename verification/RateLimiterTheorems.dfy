/** What the limiter guarantees over whole runs. */
module RateLimiterTheorems {
  import opened RateLimiter

  predicate Timed(op: Op) {
    !op.Reset?
  }

  // ------------------------------------------------- the window, with clock skew

  /** `now` is read before the lock is taken, so times may reach the deque out of order, by
      at most d. */
  ghost predicate Skewed(ops: seq<Op>, d: real) {
    forall i, j | 0 <= i < j < |ops| && Timed(ops[i]) && Timed(ops[j]) :: ops[j].now >= ops[i].now - d
  }

  predicate OnlyAllowsAndReads(ops: seq<Op>) {
    forall op | op in ops :: op.Allow? || op.IsBlocked? || op.RetryAfter?
  }

  /** The deque is the tail of the admitted hits, and each hit that left it had expired by
      the clock of some operation of the run. */
  ghost predicate DequeIsTail(lim: Limits, ops: seq<Op>) {
    var a, b := Admitted(lim, ops), After(lim, ops);
    IsTail(b, a) && FrontExpired(lim, ops, a, |a| - |b|)
  }

  ghost predicate ExpiredFor(lim: Limits, ops: seq<Op>, hit: real) {
    exists o | o in ops :: Timed(o) && hit <= o.now - lim.window
  }

  lemma {:induction false} DequeStaysTail(lim: Limits, ops: seq<Op>)
    requires OnlyAllowsAndReads(ops)
    ensures DequeIsTail(lim, ops)
  {
    if ops != [] {
      var before, op := ops[..|ops| - 1], ops[|ops| - 1];
      AllowsAndReadsSplit(ops);
      DequeStaysTail(lim, before);
      TailAfterStep(lim, before, op);
    }
  }

  predicate IsTail(b: seq<real>, a: seq<real>) {
    |b| <= |a| && b == a[|a| - |b|..]
  }

  lemma PrunedIsTail(a: seq<real>, b: seq<real>, cutoff: real)
    requires IsTail(b, a)
    ensures IsTail(Prune(b, cutoff), a) && |Prune(b, cutoff)| <= |b|
    ensures forall i | |a| - |b| <= i < |a| - |Prune(b, cutoff)| :: a[i] <= cutoff
  {
    PruneDropsExpiredPrefix(b, cutoff);
    var h := Prune(b, cutoff);
    TailOfTail(a, b, h);
    forall i | |a| - |b| <= i < |a| - |h| ensures a[i] <= cutoff {
      AtInTail(a, b, i);
    }
  }

  lemma TailOfTail(a: seq<real>, b: seq<real>, h: seq<real>)
    requires IsTail(b, a) && IsTail(h, b)
    ensures IsTail(h, a)
  {
  }

  lemma AtInTail(a: seq<real>, b: seq<real>, i: int)
    requires IsTail(b, a) && |a| - |b| <= i < |a|
    ensures a[i] == b[i - (|a| - |b|)]
  {
  }

  ghost predicate FrontExpired(lim: Limits, ops: seq<Op>, a: seq<real>, n: int) {
    n <= |a| && forall i | 0 <= i < n :: ExpiredFor(lim, ops, a[i])
  }

  lemma MoreExpired(lim: Limits, ops: seq<Op>, op: Op, a: seq<real>, n: int, m: int)
    requires FrontExpired(lim, ops, a, n) && 0 <= n <= m <= |a| && Timed(op)
    requires forall i | n <= i < m :: a[i] <= op.now - lim.window
    ensures FrontExpired(lim, ops + [op], a, m)
  {
    forall i | 0 <= i < m ensures ExpiredFor(lim, ops + [op], a[i]) {
      if i < n {
        assert ExpiredFor(lim, ops, a[i]);
      } else {
        assert op in ops + [op];
      }
    }
  }

  lemma TailAfterStep(lim: Limits, before: seq<Op>, op: Op)
    requires DequeIsTail(lim, before) && (op.Allow? || op.IsBlocked? || op.RetryAfter?)
    ensures DequeIsTail(lim, before + [op])
  {
    var a, b := Admitted(lim, before), After(lim, before);
    var h := Prune(b, op.now - lim.window);
    PrunedIsTail(a, b, op.now - lim.window);
    MoreExpired(lim, before, op, a, |a| - |b|, |a| - |h|);
    OneMoreOp(lim, before, op);
    HitAddedToBoth(lim, before + [op], a, h, op.now);
  }

  lemma HitAddedToBoth(lim: Limits, ops: seq<Op>, a: seq<real>, h: seq<real>, hit: real)
    requires IsTail(h, a) && FrontExpired(lim, ops, a, |a| - |h|)
    ensures IsTail(h + [hit], a + [hit]) && FrontExpired(lim, ops, a + [hit], |a + [hit]| - |h + [hit]|)
  {
    TailGrows(a, h, hit);
  }

  lemma OneMoreOp(lim: Limits, before: seq<Op>, op: Op)
    requires op.Allow? || op.IsBlocked? || op.RetryAfter?
    ensures var a, h := Admitted(lim, before), Prune(After(lim, before), op.now - lim.window);
            if op.Allow? && |h| < lim.maxCalls
            then Admitted(lim, before + [op]) == a + [op.now] && After(lim, before + [op]) == h + [op.now]
            else Admitted(lim, before + [op]) == a && After(lim, before + [op]) == h
  {
    assert (before + [op])[..|before|] == before;
  }

  lemma TailGrows(a: seq<real>, h: seq<real>, hit: real)
    requires IsTail(h, a)
    ensures IsTail(h + [hit], a + [hit])
    ensures forall i | 0 <= i < |a| - |h| :: (a + [hit])[i] == a[i]
  {
  }

  /** Two admitted hits at least maxCalls apart in lock order are a whole window apart in
      time, up to the skew. */
  lemma {:induction false} AdmittedAreSpread(lim: Limits, ops: seq<Op>, d: real, i: int, j: int)
    requires OnlyAllowsAndReads(ops) && Skewed(ops, d) && d >= 0.0 && lim.maxCalls >= 0
    requires 0 <= i && i + lim.maxCalls <= j < |Admitted(lim, ops)|
    ensures Admitted(lim, ops)[j] - Admitted(lim, ops)[i] >= lim.window - d
  {
    var before, op := ops[..|ops| - 1], ops[|ops| - 1];
    AllowsAndReadsSplit(ops);
    SkewedSplit(ops, d);
    OneMoreOp(lim, before, op);
    if j < |Admitted(lim, before)| {
      AdmittedAreSpread(lim, before, d, i, j);
    } else {
      DequeStaysTail(lim, before);
      LatestIsSpread(lim, before, op, d, i);
    }
  }

  lemma AllowsAndReadsSplit(ops: seq<Op>)
    requires ops != [] && OnlyAllowsAndReads(ops)
    ensures var before, op := ops[..|ops| - 1], ops[|ops| - 1];
            ops == before + [op] && OnlyAllowsAndReads(before) && (op.Allow? || op.IsBlocked? || op.RetryAfter?)
  {
    assert ops[|ops| - 1] in ops && forall o | o in ops[..|ops| - 1] :: o in ops;
  }

  lemma SkewedSplit(ops: seq<Op>, d: real)
    requires ops != [] && Skewed(ops, d)
    ensures Skewed(ops[..|ops| - 1], d)
    ensures Timed(ops[|ops| - 1]) ==>
              forall m | 0 <= m < |ops| - 1 && Timed(ops[m]) :: ops[|ops| - 1].now >= ops[m].now - d
  {
  }

  /** The hit just admitted found one maxCalls before it expired. */
  lemma LatestIsSpread(lim: Limits, before: seq<Op>, op: Op, d: real, i: int)
    requires DequeIsTail(lim, before) && op.Allow? && d >= 0.0
    requires forall m | 0 <= m < |before| && Timed(before[m]) :: op.now >= before[m].now - d
    requires |Prune(After(lim, before), op.now - lim.window)| < lim.maxCalls
    requires 0 <= i && i + lim.maxCalls <= |Admitted(lim, before)|
    ensures op.now - Admitted(lim, before)[i] >= lim.window - d
  {
    var a, b := Admitted(lim, before), After(lim, before);
    PruneDropsExpiredPrefix(b, op.now - lim.window);
    if i < |a| - |b| {
      assert ExpiredFor(lim, before, a[i]);
      var o :| o in before && Timed(o) && a[i] <= o.now - lim.window;
      var m :| 0 <= m < |before| && before[m] == o;
      assert Timed(before[m]);
    } else {
      assert a[i] == b[i - (|a| - |b|)];
    }
  }

  /** Positions of the admitted hits that fall into [from, from + length). */
  function InInterval(a: seq<real>, from: real, length: real): set<int> {
    set i | 0 <= i < |a| && from <= a[i] < from + length
  }

  lemma {:induction false} NarrowSetIsSmall(s: set<int>, lo: int, n: nat)
    requires forall i | i in s :: lo <= i < lo + n
    ensures |s| <= n
  {
    if n == 0 {
      assert forall i | i in s :: false;
    } else {
      NarrowSetIsSmall(s - {lo + n - 1}, lo, n - 1);
    }
  }

  /** The first position at or after i that falls into the interval, or the length. */
  function FirstIn(a: seq<real>, from: real, length: real, i: nat): (r: nat)
    requires i <= |a|
    ensures i <= r <= |a| && (r < |a| ==> from <= a[r] < from + length)
    ensures forall j | i <= j < r :: !(from <= a[j] < from + length)
    decreases |a| - i
  {
    if i == |a| || from <= a[i] < from + length then i else FirstIn(a, from, length, i + 1)
  }

  /** The window theorem under skew: whatever the interleaving of allow, is_blocked and
      retry_after on a key, no half-open interval of length window - d holds more than
      maxCalls admitted hits; with d = 0 that is the whole window. */
  lemma WindowHoldsAtMostMaxCalls(lim: Limits, ops: seq<Op>, d: real, from: real)
    requires OnlyAllowsAndReads(ops) && Skewed(ops, d) && d >= 0.0 && lim.maxCalls >= 0
    ensures |InInterval(Admitted(lim, ops), from, lim.window - d)| <= lim.maxCalls
  {
    var a := Admitted(lim, ops);
    var s := InInterval(a, from, lim.window - d);
    var first := FirstIn(a, from, lim.window - d, 0);
    forall j | j in s ensures first <= j < first + lim.maxCalls {
      if j >= first + lim.maxCalls {
        AdmittedAreSpread(lim, ops, d, first, j);
      }
    }
    NarrowSetIsSmall(s, first, lim.maxCalls);
  }

  /** The same for one key among many, whatever happens to the other keys. */
  lemma WindowHoldsPerKey(lim: Limits, ops: seq<KeyedOp>, key: string, d: real, from: real)
    requires OnlyAllowsAndReads(OfKey(ops, key)) && Skewed(OfKey(ops, key), d) && d >= 0.0 && lim.maxCalls >= 0
    ensures |InInterval(Admitted(lim, OfKey(ops, key)), from, lim.window - d)| <= lim.maxCalls
    ensures Bucket(KeyedAfter(lim, ops), key) == After(lim, OfKey(ops, key))
  {
    KeysIndependent(lim, ops, key);
    WindowHoldsAtMostMaxCalls(lim, OfKey(ops, key), d, from);
  }

  // ------------------------------------------- the deque refines a full history

  ghost predicate InOrder(ops: seq<Op>) {
    Skewed(ops, 0.0)
  }

  function Recent(log: seq<real>, cutoff: real): seq<real> {
    if log == [] then []
    else
      var before, hit := Recent(log[..|log| - 1], cutoff), log[|log| - 1];
      if hit > cutoff then before + [hit] else before
  }

  /** The specification: keep every hit since the last reset and count those in the window. */
  function LogStep(lim: Limits, log: seq<real>, op: Op): (seq<real>, Reply) {
    match op
    case Reset => ([], Done)
    case Record(now) => (log + [now], Done)
    case Allow(now) =>
      if |Recent(log, now - lim.window)| < lim.maxCalls then (log + [now], Verdict(true))
      else (log, Verdict(false))
    case IsBlocked(now) =>
      var n := |Recent(log, now - lim.window)|;
      (log, Verdict(n > 0 && n >= lim.maxCalls))
    case RetryAfter(now) =>
      var recent := Recent(log, now - lim.window);
      if recent == [] then (log, Seconds(0))
      else
        var wait := Ceiling(recent[0] + lim.window - now);
        (log, Seconds(if wait < 1 then 1 else wait))
  }

  function Log(lim: Limits, ops: seq<Op>): seq<real> {
    if ops == [] then [] else LogStep(lim, Log(lim, ops[..|ops| - 1]), ops[|ops| - 1]).0
  }

  function LogReply(lim: Limits, ops: seq<Op>): Reply
    requires ops != []
  {
    LogStep(lim, Log(lim, ops[..|ops| - 1]), ops[|ops| - 1]).1
  }

  ghost predicate Sorted(s: seq<real>) {
    forall i, j | 0 <= i < j < |s| :: s[i] <= s[j]
  }

  /** In a sorted log the recent hits are a suffix: those an exact count would keep. */
  lemma {:induction false} RecentOfSorted(log: seq<real>, cutoff: real, k: int)
    requires Sorted(log) && 0 <= k <= |log|
    requires (forall i | 0 <= i < k :: log[i] <= cutoff) && (k < |log| ==> log[k] > cutoff)
    ensures Recent(log, cutoff) == log[k..]
  {
    if log != [] {
      var last := |log| - 1;
      var before := log[..last];
      assert Sorted(before);
      if k == |log| {
        RecentOfSorted(before, cutoff, last);
      } else {
        assert log[last] > cutoff;
        if k == last {
          RecentOfSorted(before, cutoff, last);
        } else {
          RecentOfSorted(before, cutoff, k);
        }
        assert log[k..] == before[k..] + [log[last]];
      }
    }
  }

  /** Pruning a tail of the log whose missing part has expired keeps exactly the recent hits. */
  lemma PruneIsRecent(log: seq<real>, hits: seq<real>, cutoff: real)
    requires Sorted(log) && IsTail(hits, log)
    requires forall i | 0 <= i < |log| - |hits| :: log[i] <= cutoff
    ensures Prune(hits, cutoff) == Recent(log, cutoff)
  {
    PrunedIsTail(log, hits, cutoff);
    PruneDropsExpiredPrefix(hits, cutoff);
    var k := |log| - |Prune(hits, cutoff)|;
    RecentOfSorted(log, cutoff, k);
  }

  /** The deque is a tail of the log, and what is missing had expired at some operation. */
  ghost predicate TailOf(lim: Limits, ops: seq<Op>, log: seq<real>, b: seq<real>) {
    Sorted(log) && IsTail(b, log) && FrontExpired(lim, ops, log, |log| - |b|) && AllMade(ops, log)
  }

  ghost predicate AllMade(ops: seq<Op>, log: seq<real>) {
    forall i | 0 <= i < |log| :: MadeBy(ops, log[i])
  }

  ghost predicate MadeBy(ops: seq<Op>, hit: real) {
    exists o | o in ops :: Timed(o) && hit == o.now
  }

  ghost predicate NoneLater(ops: seq<Op>, t: real) {
    forall o | o in ops && Timed(o) :: o.now <= t
  }

  lemma InOrderSplit(ops: seq<Op>)
    requires ops != [] && InOrder(ops)
    ensures InOrder(ops[..|ops| - 1])
    ensures Timed(ops[|ops| - 1]) ==> NoneLater(ops[..|ops| - 1], ops[|ops| - 1].now)
  {
  }

  /** At the next timed operation the pruned deque is the window's content of the log. */
  lemma DequeIsWindow(lim: Limits, ops: seq<Op>, log: seq<real>, b: seq<real>, now: real)
    requires TailOf(lim, ops, log, b) && NoneLater(ops, now)
    ensures Prune(b, now - lim.window) == Recent(log, now - lim.window)
  {
    forall i | 0 <= i < |log| - |b| ensures log[i] <= now - lim.window {
      assert ExpiredFor(lim, ops, log[i]);
    }
    PruneIsRecent(log, b, now - lim.window);
  }

  /** Pruning at a new operation keeps the relation. */
  lemma TailAfterPrune(lim: Limits, ops: seq<Op>, log: seq<real>, b: seq<real>, op: Op)
    requires TailOf(lim, ops, log, b) && Timed(op)
    ensures TailOf(lim, ops + [op], log, Prune(b, op.now - lim.window))
  {
    var h := Prune(b, op.now - lim.window);
    PrunedIsTail(log, b, op.now - lim.window);
    MoreExpired(lim, ops, op, log, |log| - |b|, |log| - |h|);
    forall i | 0 <= i < |log| ensures MadeBy(ops + [op], log[i]) {
      assert MadeBy(ops, log[i]);
    }
  }

  /** So does adding the new hit to both. */
  lemma TailAfterHit(lim: Limits, ops: seq<Op>, log: seq<real>, h: seq<real>, op: Op)
    requires TailOf(lim, ops + [op], log, h) && Timed(op) && NoneLater(ops, op.now)
    ensures TailOf(lim, ops + [op], log + [op.now], h + [op.now])
  {
    HitAddedToBoth(lim, ops + [op], log, h, op.now);
    assert op in ops + [op];
    forall i | 0 <= i < |log| ensures log[i] <= op.now {
      assert MadeBy(ops + [op], log[i]);
    }
    SortedGrows(log, op.now);
  }

  lemma SortedGrows(log: seq<real>, hit: real)
    requires Sorted(log) && forall i | 0 <= i < |log| :: log[i] <= hit
    ensures Sorted(log + [hit])
  {
  }

  lemma {:induction false} TailOfLogHolds(lim: Limits, ops: seq<Op>)
    requires InOrder(ops)
    ensures TailOf(lim, ops, Log(lim, ops), After(lim, ops))
  {
    if ops != [] {
      var before, op := ops[..|ops| - 1], ops[|ops| - 1];
      InOrderSplit(ops);
      TailOfLogHolds(lim, before);
      if Timed(op) {
        assert ops == before + [op];
        StepKeepsTail(lim, before, Log(lim, before), After(lim, before), op);
      }
    }
  }

  lemma StepKeepsTail(lim: Limits, ops: seq<Op>, log: seq<real>, b: seq<real>, op: Op)
    requires TailOf(lim, ops, log, b) && Timed(op) && NoneLater(ops, op.now)
    ensures TailOf(lim, ops + [op], LogStep(lim, log, op).0, Step(lim, b, op).0)
  {
    var h := Prune(b, op.now - lim.window);
    DequeIsWindow(lim, ops, log, b, op.now);
    TailAfterPrune(lim, ops, log, b, op);
    TailAfterHit(lim, ops, log, h, op);
    BothTakeTheHit(lim, b, log, op);
  }

  /** The log takes the hit exactly when the deque does. */
  lemma BothTakeTheHit(lim: Limits, b: seq<real>, log: seq<real>, op: Op)
    requires Timed(op) && Prune(b, op.now - lim.window) == Recent(log, op.now - lim.window)
    ensures var h := Prune(b, op.now - lim.window);
            || (Step(lim, b, op).0 == h && LogStep(lim, log, op).0 == log)
            || (Step(lim, b, op).0 == h + [op.now] && LogStep(lim, log, op).0 == log + [op.now])
  {
  }

  lemma StepAnswersAlike(lim: Limits, b: seq<real>, log: seq<real>, op: Op)
    requires Timed(op) ==> Prune(b, op.now - lim.window) == Recent(log, op.now - lim.window)
    ensures Step(lim, b, op).1 == LogStep(lim, log, op).1
  {
  }

  /** Refinement: with times in order every answer is that of the full log. */
  lemma AnswersRefineLog(lim: Limits, ops: seq<Op>)
    requires ops != [] && InOrder(ops)
    ensures LastReply(lim, ops) == LogReply(lim, ops)
  {
    var before, op := ops[..|ops| - 1], ops[|ops| - 1];
    InOrderSplit(ops);
    TailOfLogHolds(lim, before);
    var log, b := Log(lim, before), After(lim, before);
    if Timed(op) {
      DequeIsWindow(lim, before, log, b, op.now);
    }
    StepAnswersAlike(lim, b, log, op);
  }

  /** So allow says yes, and is_blocked no, exactly when fewer than maxCalls of the hits
      since the last reset lie in the window. */
  lemma AdmitsExactlyBelowCap(lim: Limits, ops: seq<Op>)
    requires ops != [] && InOrder(ops) && lim.maxCalls >= 1
    ensures var op := ops[|ops| - 1];
            Timed(op) ==>
              var n := |Recent(Log(lim, ops[..|ops| - 1]), op.now - lim.window)|;
              && (op.Allow? ==> (LastReply(lim, ops) == Verdict(true) <==> n < lim.maxCalls))
              && (op.IsBlocked? ==> (LastReply(lim, ops) == Verdict(false) <==> n < lim.maxCalls))
  {
    AnswersRefineLog(lim, ops);
  }

  // ----------------------------------- denied attempts and reads leave no trace

  predicate Counts(lim: Limits, ops: seq<Op>)
    requires ops != []
  {
    var op := ops[|ops| - 1];
    op.Record? || op.Reset? || (op.Allow? && LastReply(lim, ops) == Verdict(true))
  }

  /** The run without its denied `allow` calls and without its reads. */
  function Essence(lim: Limits, ops: seq<Op>): seq<Op> {
    if ops == [] then []
    else
      var before := Essence(lim, ops[..|ops| - 1]);
      if Counts(lim, ops) then before + [ops[|ops| - 1]] else before
  }

  lemma {:induction false} EssenceComesFrom(lim: Limits, ops: seq<Op>, op: Op)
    requires op in Essence(lim, ops)
    ensures op in ops
  {
    if op in Essence(lim, ops[..|ops| - 1]) {
      EssenceComesFrom(lim, ops[..|ops| - 1], op);
    }
  }

  lemma {:induction false} EssenceInOrder(lim: Limits, ops: seq<Op>)
    requires InOrder(ops)
    ensures InOrder(Essence(lim, ops))
  {
    if ops != [] {
      var last := |ops| - 1;
      var before := ops[..last];
      EssenceInOrder(lim, before);
      var e := Essence(lim, before);
      if Counts(lim, ops) && Timed(ops[last]) {
        forall i | 0 <= i < |e| && Timed(e[i]) ensures ops[last].now >= e[i].now {
          EssenceComesFrom(lim, before, e[i]);
          var m :| 0 <= m < |before| && before[m] == e[i];
          assert ops[m] == e[i];
        }
      }
    }
  }

  lemma {:induction false} EssenceSameLog(lim: Limits, ops: seq<Op>)
    requires InOrder(ops)
    ensures Log(lim, Essence(lim, ops)) == Log(lim, ops)
  {
    if ops != [] {
      var last := |ops| - 1;
      var before, op := ops[..last], ops[last];
      EssenceSameLog(lim, before);
      AnswersRefineLog(lim, ops);
      var e := Essence(lim, before);
      assert (e + [op])[..|e|] == e;
    }
  }

  /** Deleting every denied allow call and every read from the past changes no later answer. */
  lemma DeniedAndReadsDoNotMatter(lim: Limits, ops: seq<Op>, next: Op)
    requires InOrder(ops + [next])
    ensures InOrder(Essence(lim, ops) + [next])
    ensures LastReply(lim, Essence(lim, ops) + [next]) == LastReply(lim, ops + [next])
  {
    var full, e := ops + [next], Essence(lim, ops);
    assert full[..|ops|] == ops && (e + [next])[..|e|] == e;
    assert InOrder(ops) by {
      assert forall i | 0 <= i < |ops| :: full[i] == ops[i];
    }
    EssenceInOrder(lim, ops);
    EssenceSameLog(lim, ops);
    if Timed(next) {
      forall i | 0 <= i < |e| && Timed(e[i]) ensures next.now >= e[i].now {
        EssenceComesFrom(lim, ops, e[i]);
        var m :| 0 <= m < |ops| && ops[m] == e[i];
        assert full[m] == e[i] && full[|ops|] == next;
      }
    }
    AnswersRefineLog(lim, full);
    AnswersRefineLog(lim, e + [next]);
  }

  // -------------------------------------------------------------- retry_after

  /** When the window holds exactly the cap, retry_after is the least whole number of
      seconds from 1 on after which the key is no longer blocked. */
  lemma RetryAfterIsLeast(lim: Limits, hits: seq<real>, now: real, m: int)
    requires lim.maxCalls >= 1 && |Prune(hits, now - lim.window)| == lim.maxCalls
    ensures var (rest, reply) := Step(lim, hits, RetryAfter(now));
            && reply.n >= 1
            && Step(lim, rest, IsBlocked(now + reply.n as real)).1 == Verdict(false)
            && (1 <= m < reply.n ==> Step(lim, rest, IsBlocked(now + m as real)).1 == Verdict(true))
  {
    PruneDropsExpiredPrefix(hits, now - lim.window);
    var (rest, reply) := Step(lim, hits, RetryAfter(now));
    CeilingIsLeast(rest[0] + lim.window - now, m);
    FullUntilHeadExpires(lim, rest, now + reply.n as real);
    FullUntilHeadExpires(lim, rest, now + m as real);
  }

  lemma CeilingIsLeast(x: real, m: int)
    ensures Ceiling(x) as real >= x && (m < Ceiling(x) ==> m as real < x)
  {
  }

  lemma FullUntilHeadExpires(lim: Limits, hits: seq<real>, at: real)
    requires lim.maxCalls >= 1 && |hits| == lim.maxCalls
    ensures Step(lim, hits, IsBlocked(at)).1 == Verdict(hits[0] > at - lim.window)
  {
    BlockedIff(lim, hits, at);
    PrunedWhole(hits, at - lim.window);
  }

  lemma BlockedIff(lim: Limits, hits: seq<real>, at: real)
    requires lim.maxCalls >= 1
    ensures Step(lim, hits, IsBlocked(at)).1 == Verdict(|Prune(hits, at - lim.window)| >= lim.maxCalls)
  {
  }

  lemma PrunedWhole(hits: seq<real>, cutoff: real)
    requires hits != []
    ensures |Prune(hits, cutoff)| <= |hits| && (|Prune(hits, cutoff)| == |hits| <==> hits[0] > cutoff)
  {
    PruneDropsExpiredPrefix(hits, cutoff);
    if hits[0] <= cutoff {
      PruneDropsExpiredPrefix(hits[1..], cutoff);
    }
  }

  /** n hits of a sorted deque are left if and only if the n-th youngest is inside. */
  lemma LeftIff(hits: seq<real>, cutoff: real, n: int)
    requires Sorted(hits) && 1 <= n <= |hits|
    ensures |Prune(hits, cutoff)| >= n <==> hits[|hits| - n] > cutoff
  {
    PruneDropsExpiredPrefix(hits, cutoff);
    var r := Prune(hits, cutoff);
    if |r| >= n {
      AtInTail(hits, r, |hits| - |r|);
    }
  }

  /** Over the cap it is too early: retry_after answers when the oldest hit of the window leaves
      it, rounded up, and a key with sorted hits is then still blocked exactly when the
      maxCalls-th youngest hit is still inside. */
  lemma OverfullFreesLater(lim: Limits, hits: seq<real>, now: real)
    requires lim.maxCalls >= 1 && Sorted(hits) && |Prune(hits, now - lim.window)| >= lim.maxCalls
    ensures var (rest, reply) := Step(lim, hits, RetryAfter(now));
            && IsTail(rest, hits) && reply == Seconds(Ceiling(rest[0] + lim.window - now))
            && var later := now + reply.n as real;
               && rest[0] <= later - lim.window
               && Step(lim, rest, IsBlocked(later)).1 == Verdict(hits[|hits| - lim.maxCalls] > later - lim.window)
  {
    PruneDropsExpiredPrefix(hits, now - lim.window);
    var rest := Prune(hits, now - lim.window);
    RetryAnswer(lim, hits, now);
    var later := now + Ceiling(rest[0] + lim.window - now) as real;
    BlockedLater(lim, hits, rest, later);
  }

  lemma BlockedLater(lim: Limits, hits: seq<real>, rest: seq<real>, later: real)
    requires lim.maxCalls >= 1 && Sorted(hits) && IsTail(rest, hits) && |rest| >= lim.maxCalls
    ensures Step(lim, rest, IsBlocked(later)).1 == Verdict(hits[|hits| - lim.maxCalls] > later - lim.window)
  {
    TailSorted(hits, rest);
    AtInTail(hits, rest, |hits| - lim.maxCalls);
    LeftIff(rest, later - lim.window, lim.maxCalls);
    BlockedIff(lim, rest, later);
  }

  lemma RetryAnswer(lim: Limits, hits: seq<real>, now: real)
    requires Prune(hits, now - lim.window) != []
    ensures var rest := Prune(hits, now - lim.window);
            var wait := Ceiling(rest[0] + lim.window - now);
            Step(lim, hits, RetryAfter(now)) == (rest, Seconds(wait)) && rest[0] <= now + wait as real - lim.window
  {
    PruneDropsExpiredPrefix(hits, now - lim.window);
    CeilingIsLeast(Prune(hits, now - lim.window)[0] + lim.window - now, 0);
  }

  lemma TailSorted(a: seq<real>, b: seq<real>)
    requires Sorted(a) && IsTail(b, a)
    ensures Sorted(b)
  {
    forall i, j | 0 <= i < j < |b| ensures b[i] <= b[j] {
      AtInTail(a, b, |a| - |b| + i);
      AtInTail(a, b, |a| - |b| + j);
    }
  }
}
