/** Following parent links up the process table (ops/guardian/guardian.py, process_ancestors). */
module ProcessTree {
  import opened Shared

  type Pid = int

  /** The k-th process above pid; nothing at or below init, and nothing above a process that is
      gone or unreadable. */
  function Above(parent: map<Pid, Pid>, pid: Pid, k: nat): Option<Pid> {
    if k == 0 then (if pid > 1 then Some(pid) else None)
    else
      var below := Above(parent, pid, k - 1);
      if below.Some? && below.value in parent && parent[below.value] > 1 then Some(parent[below.value]) else None
  }

  /** Whoever is in has its parent in. */
  ghost predicate Closed(parent: map<Pid, Pid>, chain: set<Pid>) {
    forall q | q in chain && q in parent && parent[q] > 1 :: parent[q] in chain
  }

  lemma {:induction false} ClosedHoldsAllAbove(parent: map<Pid, Pid>, chain: set<Pid>, pid: Pid, k: nat)
    requires Closed(parent, chain) && (pid > 1 ==> pid in chain)
    ensures Above(parent, pid, k).Some? ==> Above(parent, pid, k).value in chain
  {
    if k > 0 {
      ClosedHoldsAllAbove(parent, chain, pid, k - 1);
    }
  }

  /** Exactly the processes above pid, itself included, even when the links, read one after the
      other while processes come and go, form a circle. */
  method ProcessAncestors(pid: Pid, parent: map<Pid, Pid>) returns (chain: set<Pid>)
    ensures forall q :: q in chain <==> exists k: nat :: Above(parent, pid, k) == Some(q)
  {
    chain := {};
    var current, gone := pid, false;
    ghost var k: nat := 0;
    while !gone && current > 1 && current !in chain
      invariant forall q | q in chain :: exists j: nat :: Above(parent, pid, j) == Some(q)
      invariant k == 0 ==> current == pid && chain == {} && !gone
      invariant k > 0 && pid > 1 ==> pid in chain
      invariant !gone && current > 1 ==> Above(parent, pid, k) == Some(current)
      invariant forall q | q in chain && q in parent && parent[q] > 1 :: parent[q] in chain || (!gone && parent[q] == current)
      decreases !gone, parent.Keys - chain
    {
      chain := chain + {current};
      if current in parent {
        current := parent[current];
      } else {
        gone := true;
      }
      k := k + 1;
    }
    forall q ensures q in chain <==> exists j: nat :: Above(parent, pid, j) == Some(q) {
      if j: nat :| Above(parent, pid, j) == Some(q) {
        ClosedHoldsAllAbove(parent, chain, pid, j);
      }
    }
  }
}
