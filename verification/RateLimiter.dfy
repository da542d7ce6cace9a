/** The sliding-window limiter of apps/api/app/rate_limit.py, one key at a time and all keys
    together. Times are the monotonic clock's, in seconds.
 */
module RateLimiter {

  datatype Limits = Limits(maxCalls: int, window: real)

  datatype Op = Allow(now: real) | IsBlocked(now: real) | Record(now: real) | Reset | RetryAfter(now: real)

  datatype Reply = Verdict(yes: bool) | Seconds(n: int) | Done

  /** `_prune`: expired hits leave from the head only. */
  function Prune(hits: seq<real>, cutoff: real): seq<real> {
    if hits != [] && hits[0] <= cutoff then Prune(hits[1..], cutoff) else hits
  }

  /** What is pruned is a prefix of expired hits; what is left does not start with one. */
  lemma {:induction false} PruneDropsExpiredPrefix(hits: seq<real>, cutoff: real)
    ensures var r := Prune(hits, cutoff);
            && |r| <= |hits| && r == hits[|hits| - |r|..]
            && (forall i | 0 <= i < |hits| - |r| :: hits[i] <= cutoff)
            && (r != [] ==> r[0] > cutoff)
  {
    if hits != [] && hits[0] <= cutoff {
      PruneDropsExpiredPrefix(hits[1..], cutoff);
      var r := Prune(hits[1..], cutoff);
      assert hits[1..][|hits| - 1 - |r|..] == hits[|hits| - |r|..];
      forall i | 0 <= i < |hits| - |r| ensures hits[i] <= cutoff {
        if i > 0 { assert hits[i] == hits[1..][i - 1]; }
      }
    }
  }

  function Ceiling(x: real): int {
    -((-x).Floor)
  }

  /** One operation on the deque of one key, an absent key being an empty deque. */
  function Step(lim: Limits, hits: seq<real>, op: Op): (seq<real>, Reply) {
    match op
    case Reset => ([], Done)
    case Record(now) => (Prune(hits, now - lim.window) + [now], Done)
    case Allow(now) =>
      var h := Prune(hits, now - lim.window);
      if |h| >= lim.maxCalls then (h, Verdict(false)) else (h + [now], Verdict(true))
    case IsBlocked(now) =>
      var h := Prune(hits, now - lim.window);
      (h, Verdict(h != [] && |h| >= lim.maxCalls))
    case RetryAfter(now) =>
      var h := Prune(hits, now - lim.window);
      if h == [] then (h, Seconds(0))
      else
        var wait := Ceiling(h[0] + lim.window - now);
        (h, Seconds(if wait < 1 then 1 else wait))
  }

  function Bucket(m: map<string, seq<real>>, key: string): seq<real> {
    if key in m then m[key] else []
  }

  class SlidingWindowRateLimiter {
    const lim: Limits
    var hits: map<string, seq<real>>

    constructor (lim: Limits)
      ensures this.lim == lim && hits == map[]
    {
      this.lim := lim;
      hits := map[];
    }

    /** No key is kept for an empty deque. */
    ghost predicate Tidy()
      reads this
    {
      forall k | k in hits :: hits[k] != []
    }

    /** An operation on one key did to that key what Step says and to the others nothing. */
    twostate predicate Did(key: string, op: Op, reply: Reply)
      reads this
    {
      && (Bucket(hits, key), reply) == Step(lim, Bucket(old(hits), key), op)
      && (forall k | k != key :: Bucket(hits, k) == Bucket(old(hits), k))
      && (old(Tidy()) && lim.maxCalls >= 1 ==> Tidy())
    }

    method PruneKey(key: string, cutoff: real)
      requires key in hits
      modifies this
      ensures hits == old(hits)[key := Prune(old(hits)[key], cutoff)]
    {
      var deque := hits[key];
      while deque != [] && deque[0] <= cutoff
        invariant Prune(deque, cutoff) == Prune(hits[key], cutoff)
        decreases |deque|
      {
        deque := deque[1..];
      }
      hits := hits[key := deque];
    }

    method IsBlockedNow(key: string, now: real) returns (blocked: bool)
      modifies this
      ensures Did(key, IsBlocked(now), Verdict(blocked))
    {
      var cutoff := now - lim.window;
      if key !in hits {
        return false;
      }
      PruneKey(key, cutoff);
      if hits[key] == [] {
        hits := hits - {key};
        return false;
      }
      return |hits[key]| >= lim.maxCalls;
    }

    method RecordHit(key: string, now: real)
      modifies this
      ensures Did(key, Record(now), Done)
    {
      var cutoff := now - lim.window;
      if key !in hits {
        hits := hits[key := []];
      }
      PruneKey(key, cutoff);
      hits := hits[key := hits[key] + [now]];
    }

    method AllowHit(key: string, now: real) returns (admitted: bool)
      modifies this
      ensures Did(key, Allow(now), Verdict(admitted))
    {
      var cutoff := now - lim.window;
      if key !in hits {
        hits := hits[key := []];
      }
      PruneKey(key, cutoff);
      if |hits[key]| >= lim.maxCalls {
        return false;
      }
      hits := hits[key := hits[key] + [now]];
      return true;
    }

    method ResetKey(key: string)
      modifies this
      ensures Did(key, Reset, Done)
    {
      hits := hits - {key};
    }

    method RetryAfterNow(key: string, now: real) returns (n: int)
      modifies this
      ensures Did(key, RetryAfter(now), Seconds(n))
    {
      var cutoff := now - lim.window;
      if key !in hits || hits[key] == [] {
        return 0;
      }
      PruneKey(key, cutoff);
      if hits[key] == [] {
        hits := hits - {key};
        return 0;
      }
      var wait := Ceiling(hits[key][0] + lim.window - now);
      return if wait < 1 then 1 else wait;
    }
  }

  // ------------------------------------------------------------------- runs

  /** A run lists operations in the order they took the lock. */
  function After(lim: Limits, ops: seq<Op>): seq<real> {
    if ops == [] then [] else Step(lim, After(lim, ops[..|ops| - 1]), ops[|ops| - 1]).0
  }

  function LastReply(lim: Limits, ops: seq<Op>): Reply
    requires ops != []
  {
    Step(lim, After(lim, ops[..|ops| - 1]), ops[|ops| - 1]).1
  }

  function Replies(lim: Limits, ops: seq<Op>): (r: seq<Reply>)
    ensures |r| == |ops|
  {
    if ops == [] then [] else Replies(lim, ops[..|ops| - 1]) + [LastReply(lim, ops)]
  }

  /** The times at which `allow` said yes, in lock order. */
  function Admitted(lim: Limits, ops: seq<Op>): seq<real> {
    if ops == [] then []
    else
      var before, op := Admitted(lim, ops[..|ops| - 1]), ops[|ops| - 1];
      if op.Allow? && LastReply(lim, ops) == Verdict(true) then before + [op.now] else before
  }

  // ------------------------------------------------------ all keys together

  datatype KeyedOp = KeyedOp(key: string, op: Op)

  function KeyedAfter(lim: Limits, ops: seq<KeyedOp>): map<string, seq<real>> {
    if ops == [] then map[]
    else
      var m, o := KeyedAfter(lim, ops[..|ops| - 1]), ops[|ops| - 1];
      m[o.key := Step(lim, Bucket(m, o.key), o.op).0]
  }

  function KeyedReply(lim: Limits, ops: seq<KeyedOp>): Reply
    requires ops != []
  {
    var o := ops[|ops| - 1];
    Step(lim, Bucket(KeyedAfter(lim, ops[..|ops| - 1]), o.key), o.op).1
  }

  function OfKey(ops: seq<KeyedOp>, key: string): seq<Op> {
    if ops == [] then []
    else
      var before, o := OfKey(ops[..|ops| - 1], key), ops[|ops| - 1];
      if o.key == key then before + [o.op] else before
  }

  /** Keys are independent: a key's deque, and the answer to its latest operation, are what
      its own operations alone would have made them. */
  lemma {:induction false} KeysIndependent(lim: Limits, ops: seq<KeyedOp>, key: string)
    ensures Bucket(KeyedAfter(lim, ops), key) == After(lim, OfKey(ops, key))
    ensures ops != [] && ops[|ops| - 1].key == key ==>
              OfKey(ops, key) != [] && KeyedReply(lim, ops) == LastReply(lim, OfKey(ops, key))
  {
    if ops != [] {
      var before, o := ops[..|ops| - 1], ops[|ops| - 1];
      KeysIndependent(lim, before, key);
      if o.key == key {
        var mine := OfKey(before, key);
        assert (mine + [o.op])[..|mine|] == mine;
      }
    }
  }
}
