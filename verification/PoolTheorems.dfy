/** What the pool promises its callers, for every reachable state and every later run. */
module PoolTheorems {
  import opened Shared
  import opened ConnectionPool
  import opened PoolProtocol
  import opened PoolSafety

  // ------------------------------------------------------- slots and sockets

  lemma SubsetSize<T>(a: set<T>, b: set<T>)
    requires a <= b
    ensures |a| <= |b|
  {
    assert b == a + (b - a);
  }

  lemma UnionSize<T>(a: set<T>, b: set<T>)
    ensures |a + b| <= |a| + |b|
  {
    assert a + b == a + (b - a);
    SubsetSize(b - a, b);
  }

  /** Each thread with a slot has at most one connection. */
  lemma {:induction false} ConnsOfThreads(pc: map<Tid, PC>, ts: set<Tid>, cs: set<Conn>)
    requires forall t | t in ts :: t in pc && pc[t].Leases()
    requires forall c | c in cs :: exists t :: t in ts && c in pc[t].Leased()
    ensures |cs| <= |ts|
    decreases |ts|
  {
    if ts == {} {
      assert forall c | c in cs :: false;
      assert cs == {};
    } else {
      var t :| t in ts;
      var own := pc[t].Leased();
      ConnsOfThreads(pc, ts - {t}, cs - own);
      assert |own| <= 1;
      UnionSize(cs - own, own);
      SubsetSize(cs, (cs - own) + own);
    }
  }

  lemma {:induction false} MembersAtMostLength(idle: seq<Conn>)
    ensures |Members(idle)| <= |idle|
  {
    if idle == [] {
      assert Members(idle) == {};
    } else {
      var last := |idle| - 1;
      MembersAtMostLength(idle[..last]);
      assert idle == idle[..last] + [idle[last]];
      assert Members(idle) == Members(idle[..last]) + {idle[last]};
    }
  }

  ghost predicate SoleOwner(s: State, t: Tid, c: Conn) {
    c !in IdleConns(s) && forall u | u in s.pc && u != t :: c !in s.pc[u].Owned()
  }

  /** Each socket belongs to exactly one of the idle list, a thread with a slot, or a
      thread that is closing it. */
  lemma SocketsHaveOneOwner(cfg: Config, s: State)
    requires Reachable(cfg, s)
    ensures s.live <= IdleConns(s) + LeasedConns(s) + ConnsToClose(s)
    ensures IdleConns(s) !! LeasedConns(s) !! ConnsToClose(s)
    ensures forall t, c | t in s.pc && c in s.pc[t].Owned() :: SoleOwner(s, t, c)
  {
    ReachableInv(cfg, s);
    forall c | c in s.live ensures c in IdleConns(s) + LeasedConns(s) + ConnsToClose(s) {
      if c !in Conns(s.pool.idle) {
        var t :| t in Held(s.pc) && c in Held(s.pc)[t];
        assert c in s.pc[t].Leased() || c in s.pc[t].ToClose();
      }
    }
    forall t, c | t in s.pc && c in s.pc[t].Owned() ensures SoleOwner(s, t, c) {
      OwnedByNobodyElse(s, t, c);
    }
    forall c | c in LeasedConns(s) ensures c !in IdleConns(s) && c !in ConnsToClose(s) {
      var t :| t in s.pc && c in s.pc[t].Leased();
      assert c in s.pc[t].Owned() && SoleOwner(s, t, c);
    }
    forall c | c in ConnsToClose(s) ensures c !in IdleConns(s) {
      var t :| t in s.pc && c in s.pc[t].ToClose();
      assert c in s.pc[t].Owned() && SoleOwner(s, t, c);
    }
  }

  /** Slots: open = idle + leased, leased = threads holding a slot, within bounds, so
      exhaustion and failed dials leak nothing. Sockets: those that are not being closed
      number at most `open`, so at most maxSize plus the closes in progress exist. */
  lemma SlotsAndSocketsConserved(cfg: Config, s: State)
    requires Reachable(cfg, s)
    ensures s.pool.open == |s.pool.idle| + s.pool.leased
    ensures s.pool.leased == |Leasing(s.pc)|
    ensures s.pool.open <= cfg.maxSize && |s.pool.idle| <= cfg.maxIdle
    ensures |s.live - ConnsToClose(s)| <= s.pool.open
    ensures |s.live| <= cfg.maxSize + |ConnsToClose(s)|
  {
    ReachableInv(cfg, s);
    SocketsHaveOneOwner(cfg, s);
    forall c | c in LeasedConns(s) ensures exists t :: t in Leasing(s.pc) && c in s.pc[t].Leased() {
      var t :| t in s.pc && c in s.pc[t].Leased();
      assert t in Leasing(s.pc);
    }
    ConnsOfThreads(s.pc, Leasing(s.pc), LeasedConns(s));
    MembersAtMostLength(Conns(s.pool.idle));
    SubsetSize(s.live - ConnsToClose(s), IdleConns(s) + LeasedConns(s));
    UnionSize(IdleConns(s), LeasedConns(s));
    SubsetSize(s.live, (s.live - ConnsToClose(s)) + ConnsToClose(s));
    UnionSize(s.live - ConnsToClose(s), ConnsToClose(s));
  }

  // ------------------------------------------------------------- no lost wake-up

  /** Whenever a thread waits un-notified, every free slot is matched by a thread that was
      notified and has yet to retry; if there is none, every slot is leased. */
  lemma NoWakeUpIsLost(cfg: Config, s: State, t: Tid)
    requires Reachable(cfg, s) && At(s, t, (p: PC) => p.Parked?)
    ensures |s.pool.idle| + cfg.maxSize - s.pool.open <= |Retrying(s.pc)|
    ensures Retrying(s.pc) == {} ==> s.pool.idle == [] && |Leasing(s.pc)| == cfg.maxSize
  {
    ReachableInv(cfg, s);
    assert t in s.pool.waiters;
  }

  predicate Refuses(cfg: Config, s: State, step: Step) {
    && Enabled(s, step)
    && (step.Lock? || step.TimeOut?)
    && Apply(cfg, s, step).pc[step.t] == Away
  }

  /** acquire fails only after its deadline, and only while no slot is free that is not
      already promised to a notified thread, although a timed-out wait does not look again. */
  lemma RefusalIsHonest(cfg: Config, s: State, step: Step)
    requires Reachable(cfg, s) && Refuses(cfg, s, step)
    ensures s.pc[step.t].deadline <= s.now
    ensures FreeSlots(cfg, s) <= |Retrying(s.pc)|
    ensures step.Lock? ==> FreeSlots(cfg, s) == 0
    ensures Apply(cfg, s, step).pool.open == s.pool.open && Apply(cfg, s, step).pool.leased == s.pool.leased
  {
    ReachableInv(cfg, s);
    if step.TimeOut? {
      assert step.t in s.pool.waiters;
    }
  }

  /** A thread whose deadline has passed does not wait again: its next attempt at the lock
      gets a slot or fails. */
  lemma NoWaitPastDeadline(cfg: Config, s: State, t: Tid)
    requires Enabled(s, Lock(t)) && s.pc[t].deadline <= s.now
    ensures var p := Apply(cfg, s, Lock(t)).pc[t]; p.Validating? || p.Dialling? || p.Away?
  {
  }

  // ------------------------------------------------------------------ hand-outs

  /** Whatever acquire hands out is open, has no transaction left open, is nobody else's,
      and, if it came from the pool, had been idle for less than the recycling age. */
  lemma HandOutIsClean(cfg: Config, s: State, step: Step, t: Tid, c: Conn)
    requires Reachable(cfg, s) && Enabled(s, step) && t in s.pc
    requires s.pc[t] != Holding(c) && Apply(cfg, s, step).pc[t] == Holding(c)
    ensures var s' := Apply(cfg, s, step);
            && c in s'.live && c !in s'.dirty && c !in Conns(s'.pool.idle)
            && forall u | u in s'.pc && u != t :: c !in s'.pc[u].Owned()
    ensures s.pc[t].Dialling? || (s.pc[t].Validating? && s.now - s.pc[t].releasedAt < cfg.recycle)
  {
    StaysApart(cfg, s, step);
    HandOuts(cfg, s, step, t, c);
    OwnedByNobodyElse(Apply(cfg, s, step), t, c);
  }

  lemma StaysApart(cfg: Config, s: State, step: Step)
    requires Reachable(cfg, s) && Enabled(s, step)
    ensures Clean(s) && Exclusive(Apply(cfg, s, step))
  {
    ReachableInv(cfg, s);
    InvKept(cfg, s, step);
  }

  /** Only a validated or a new connection is handed out. */
  lemma HandOuts(cfg: Config, s: State, step: Step, t: Tid, c: Conn)
    requires Clean(s) && Enabled(s, step) && t in s.pc
    requires s.pc[t] != Holding(c) && Apply(cfg, s, step).pc[t] == Holding(c)
    ensures c in Apply(cfg, s, step).live && c !in Apply(cfg, s, step).dirty
    ensures s.pc[t].Dialling? || (s.pc[t].Validating? && s.now - s.pc[t].releasedAt < cfg.recycle)
  {
    OthersStay(cfg, s, step);
    assert Acts(step, t);
    assert step.Validate? || step.Connect?;
  }

  /** The connection popped is the most recently released one, so if it has reached the
      recycling age, everything left in the pool has too. */
  lemma PopsTheFreshest(cfg: Config, s: State, t: Tid, age: real)
    requires Reachable(cfg, s) && Enabled(s, Lock(t)) && s.pool.idle != []
    ensures var s' := Apply(cfg, s, Lock(t));
            && s'.pc[t].Validating?
            && (forall e | e in s'.pool.idle :: e.releasedAt <= s'.pc[t].releasedAt <= s.now)
            && (s.now - s'.pc[t].releasedAt >= age ==> forall e | e in s'.pool.idle :: s.now - e.releasedAt >= age)
  {
    ReachableInv(cfg, s);
  }

  // ---------------------------------------------------------------- no way back

  /** c was dialled once, is not in the pool, and every thread that still has it is on its
      way to closing it. */
  ghost predicate Doomed(s: State, c: Conn) {
    && c < s.nextConn && c !in Conns(s.pool.idle)
    && forall t | t in s.pc :: OnItsWayOut(s.pc[t], c)
  }

  predicate OnItsWayOut(p: PC, c: Conn) {
    c in p.Leased() ==> p == Returning(c, true) || p == GivingBack(c, false) || p == Dropping(c)
  }

  lemma DoomedKept(cfg: Config, s: State, step: Step, c: Conn)
    requires Doomed(s, c) && Enabled(s, step)
    ensures Doomed(Apply(cfg, s, step), c)
  {
    DoomedStaysOut(cfg, s, step, c);
    DoomedThreads(cfg, s, step, c);
  }

  lemma DoomedThreads(cfg: Config, s: State, step: Step, c: Conn)
    requires Doomed(s, c) && Enabled(s, step)
    ensures forall t | t in Apply(cfg, s, step).pc :: OnItsWayOut(Apply(cfg, s, step).pc[t], c)
  {
    OthersStay(cfg, s, step);
    forall t | t in s.pc ensures OnItsWayOut(Apply(cfg, s, step).pc[t], c) {
      assert OnItsWayOut(s.pc[t], c);
      if Acts(step, t) {
        DoomedActor(cfg, s, step, t, c);
      }
    }
  }

  lemma DoomedActor(cfg: Config, s: State, step: Step, t: Tid, c: Conn)
    requires Doomed(s, c) && Enabled(s, step) && Acts(step, t) && t in s.pc && OnItsWayOut(s.pc[t], c)
    ensures t in Apply(cfg, s, step).pc && OnItsWayOut(Apply(cfg, s, step).pc[t], c)
  {
    if step.Lock? && s.pool.idle != [] {
      var last := |s.pool.idle| - 1;
      assert Conns(s.pool.idle)[last] == s.pool.idle[last].conn;
    }
  }

  lemma DoomedStaysOut(cfg: Config, s: State, step: Step, c: Conn)
    requires Doomed(s, c) && Enabled(s, step)
    ensures c < Apply(cfg, s, step).nextConn && c !in Conns(Apply(cfg, s, step).pool.idle)
  {
    IdleMoves(cfg, s, step);
    NotBackInIdle(s.pool.idle, Apply(cfg, s, step).pool.idle, c);
  }

  /** New entries of the idle list are somebody else's. */
  lemma NotBackInIdle(idle: seq<Idle>, idle': seq<Idle>, c: Conn)
    requires c !in Conns(idle) && forall e | e in idle' :: e in idle || e.conn != c
    ensures c !in Conns(idle')
  {
    forall i | 0 <= i < |idle'| ensures idle'[i].conn != c {
      assert idle'[i] in idle';
      if idle'[i] in idle {
        var j :| 0 <= j < |idle| && idle[j] == idle'[i];
        assert Conns(idle)[j] == idle[j].conn;
      }
    }
  }

  /** Once a connection is on its way out nobody is ever handed it again, in any run. */
  lemma {:induction false} DoomedForever(cfg: Config, s: State, steps: seq<Step>, c: Conn)
    requires Doomed(s, c) && Runs(cfg, s, steps)
    ensures Doomed(End(cfg, s, steps), c)
    ensures forall t | t in End(cfg, s, steps).pc :: End(cfg, s, steps).pc[t] != Holding(c)
    decreases |steps|
  {
    if steps != [] {
      DoomedKept(cfg, s, steps[0], c);
      DoomedForever(cfg, Apply(cfg, s, steps[0]), steps[1..], c);
    }
  }

  /** A discarded connection, one whose transaction could not be rolled back or whose
      state was lost, and one that failed validation are all on their way out. */
  lemma RejectedIsDoomed(cfg: Config, s: State, step: Step, t: Tid)
    requires Reachable(cfg, s) && Enabled(s, step)
    requires || step == Return(t, true)
             || step == Inspect(t, Lost) || step == Inspect(t, RollbackFailed)
             || (exists ok :: step == Validate(t, ok) && Apply(cfg, s, step).pc[t].Dropping?)
    ensures Doomed(Apply(cfg, s, step), s.pc[t].conn)
  {
    ReachableInv(cfg, s);
    OwnedByNobodyElse(s, t, s.pc[t].conn);
    SoleOwnerDooms(cfg, s, step, t);
  }

  lemma SoleOwnerDooms(cfg: Config, s: State, step: Step, t: Tid)
    requires Exclusive(s) && Enabled(s, step) && t in s.pc && s.pc[t].Leases() && !step.GiveBack?
    requires Acts(step, t) && s.pc[t].Leased() != {} && SoleOwner(s, t, s.pc[t].conn)
    requires OnItsWayOut(Apply(cfg, s, step).pc[t], s.pc[t].conn)
    requires Apply(cfg, s, step).pool == s.pool && Apply(cfg, s, step).nextConn == s.nextConn
    ensures Doomed(Apply(cfg, s, step), s.pc[t].conn)
  {
    var c := s.pc[t].conn;
    OthersStay(cfg, s, step);
    assert c in Held(s.pc)[t];
    forall u | u in s.pc ensures OnItsWayOut(Apply(cfg, s, step).pc[u], c) {
      assert u != t ==> c !in s.pc[u].Owned();
    }
  }

  // ------------------------------------------------- what the docstrings overstate

  /** Exactly when a released connection is closed. Whether the pool was reset or replaced
      in the meantime plays no part, so a connection returned to a retired pool stays open
      in it, against the docstring of reset_pool. */
  lemma ReleaseClosesExactlyWhen(cfg: Config, s: State, t: Tid, report: TxReport)
    requires Enabled(s, Inspect(t, report))
    ensures var c, mid := s.pc[t].conn, Apply(cfg, s, Inspect(t, report));
            && Enabled(mid, GiveBack(t))
            && var end := Apply(cfg, mid, GiveBack(t));
               && (end.pc[t] == Closing([c]) <==>
                     s.pc[t].discard || c !in s.live || report.Lost? || report.RollbackFailed?
                     || |s.pool.idle| >= cfg.maxIdle)
               && (end.pc[t] != Closing([c]) ==> end.pool.idle == s.pool.idle + [Idle(c, s.now)] && c in end.live)
  {
  }

  lemma ResetPoolDoesNotCloseLeased(cfg: Config, s: State, t: Tid, u: Tid)
    requires t != u && At(s, t, (p: PC) => p.Returning? && !p.discard) && Enabled(s, CloseAll(u))
    requires s.pc[t].conn in s.live && s.pc[t].conn !in s.dirty && cfg.maxIdle > 0
    ensures var s1 := Apply(cfg, s, CloseAll(u));
            && Enabled(s1, Inspect(t, AlreadyIdle))
            && var s2 := Apply(cfg, s1, Inspect(t, AlreadyIdle));
               Enabled(s2, GiveBack(t)) && Conns(Apply(cfg, s2, GiveBack(t)).pool.idle) == [s.pc[t].conn]
  {
    var s1 := Apply(cfg, s, CloseAll(u));
    ReleaseClosesExactlyWhen(cfg, s1, t, AlreadyIdle);
    var idle := Apply(cfg, Apply(cfg, s1, Inspect(t, AlreadyIdle)), GiveBack(t)).pool.idle;
    assert Conns(idle)[0] == s.pc[t].conn;
  }

  /** A thread that finds a free slot calls, takes it and dials. */
  lemma DialsAFreeSlot(cfg: Config, s: State, t: Tid)
    requires At(s, t, (p: PC) => p.Away?) && s.pool.idle == [] && s.pool.open < cfg.maxSize
    ensures Runs(cfg, s, [Call(t, 5.0)] + ([Lock(t)] + ([Connect(t, true)] + [])))
    ensures End(cfg, s, [Call(t, 5.0)] + ([Lock(t)] + ([Connect(t, true)] + [])))
         == s.(pool := s.pool.(open := s.pool.open + 1, leased := s.pool.leased + 1),
               pc := s.pc[t := Holding(s.nextConn)], live := s.live + {s.nextConn},
               dirty := s.dirty - {s.nextConn}, nextConn := s.nextConn + 1)
  {
    var s1 := Apply(cfg, s, Call(t, 5.0));
    var s2 := Apply(cfg, s1, Lock(t));
    Extend(cfg, s2, Connect(t, true), []);
    Extend(cfg, s1, Lock(t), [Connect(t, true)] + []);
    Extend(cfg, s, Call(t, 5.0), [Lock(t)] + ([Connect(t, true)] + []));
    assert s.pc[t := Entering(s.now + 5.0)][t := Dialling][t := Holding(s.nextConn)] == s.pc[t := Holding(s.nextConn)];
  }

  /** A holder that discards its connection gives the slot back before it closes the socket. */
  lemma DiscardFreesSlotFirst(cfg: Config, s: State, t: Tid)
    requires At(s, t, (p: PC) => p.Holding?) && s.pool.waiters == []
    ensures Runs(cfg, s, [Return(t, true)] + ([Inspect(t, Lost)] + ([GiveBack(t)] + [])))
    ensures End(cfg, s, [Return(t, true)] + ([Inspect(t, Lost)] + ([GiveBack(t)] + [])))
         == s.(pool := s.pool.(open := s.pool.open - 1, leased := s.pool.leased - 1),
               pc := s.pc[t := Closing([s.pc[t].conn])])
  {
    var c := s.pc[t].conn;
    var s1 := Apply(cfg, s, Return(t, true));
    var s2 := Apply(cfg, s1, Inspect(t, Lost));
    Extend(cfg, s2, GiveBack(t), []);
    Extend(cfg, s1, Inspect(t, Lost), [GiveBack(t)] + []);
    Extend(cfg, s, Return(t, true), [Inspect(t, Lost)] + ([GiveBack(t)] + []));
    assert Woken(s2.pc[t := Closing([c])], []) == s.pc[t := Closing([c])];
  }

  /** Of n threads the first j are closing a socket each and the next h hold one. */
  function Overrun(n: nat, j: nat, h: nat): State {
    State(Vars([], h, h, []), map t: Tid | 0 <= t < n :: ThreadOf(t, j, h), Below(j + h), {}, j + h, 0.0)
  }

  function ThreadOf(t: Tid, j: nat, h: nat): PC {
    if t < j then Closing([t]) else if t < j + h then Holding(t) else Away
  }

  function Below(n: nat): set<Conn> {
    if n == 0 then {} else Below(n - 1) + {n - 1}
  }

  lemma {:induction false} BelowHas(n: nat)
    ensures forall c: Conn :: c in Below(n) <==> c < n
  {
    if n > 0 {
      BelowHas(n - 1);
    }
  }

  lemma {:induction false} BelowSize(n: nat)
    ensures |Below(n)| == n
  {
    if n > 0 {
      BelowSize(n - 1);
      BelowHas(n - 1);
    }
  }

  lemma ReachableThen(cfg: Config, s: State, steps: seq<Step>)
    requires Reachable(cfg, s) && Runs(cfg, s, steps)
    ensures Reachable(cfg, End(cfg, s, steps))
  {
    var s0, before :| Starts(s0) && Runs(cfg, s0, before) && End(cfg, s0, before) == s;
    Append(cfg, s0, before, steps);
  }

  lemma OneMoreDials(cfg: Config, n: nat, j: nat, h: nat)
    requires Reachable(cfg, Overrun(n, j, h)) && h < cfg.maxSize && j + h < n
    ensures Reachable(cfg, Overrun(n, j, h + 1))
  {
    var s, t := Overrun(n, j, h), j + h;
    DialsAFreeSlot(cfg, s, t);
    ReachableThen(cfg, s, [Call(t, 5.0)] + ([Lock(t)] + ([Connect(t, true)] + [])));
    assert s.pc[t := Holding(t)] == Overrun(n, j, h + 1).pc;
    assert s.live + {t} == Below(j + h + 1);
    assert s.dirty - {t} == {};
  }

  lemma OneMoreCloses(cfg: Config, n: nat, j: nat)
    requires Reachable(cfg, Overrun(n, j, 1)) && j < n
    ensures Reachable(cfg, Overrun(n, j + 1, 0))
  {
    var s := Overrun(n, j, 1);
    DiscardFreesSlotFirst(cfg, s, j);
    ReachableThen(cfg, s, [Return(j, true)] + ([Inspect(j, Lost)] + ([GiveBack(j)] + [])));
    assert s.pc[j := Closing([j])] == Overrun(n, j + 1, 0).pc;
  }

  lemma {:induction false} AllClose(cfg: Config, n: nat, j: nat)
    requires cfg.maxSize >= 1 && j <= n
    ensures Reachable(cfg, Overrun(n, j, 0))
  {
    if j == 0 {
      var s := Overrun(n, 0, 0);
      assert s.live == {};
      assert Starts(s) && Runs(cfg, s, []) && End(cfg, s, []) == s;
    } else {
      AllClose(cfg, n, j - 1);
      OneMoreDials(cfg, n, j - 1, 0);
      OneMoreCloses(cfg, n, j - 1);
    }
  }

  lemma {:induction false} AllHold(cfg: Config, n: nat, j: nat, h: nat)
    requires cfg.maxSize >= 1 && h <= cfg.maxSize && j + h <= n
    ensures Reachable(cfg, Overrun(n, j, h))
  {
    if h == 0 {
      AllClose(cfg, n, j);
    } else {
      AllHold(cfg, n, j, h - 1);
      OneMoreDials(cfg, n, j, h - 1);
    }
  }

  lemma ToCloseInOverrun(n: nat, j: nat, h: nat)
    requires j <= n
    ensures ConnsToClose(Overrun(n, j, h)) == Below(j)
  {
    BelowHas(j);
    forall c: Conn ensures c in ConnsToClose(Overrun(n, j, h)) <==> c < j {
      ToCloseIff(n, j, h, c);
    }
  }

  lemma ToCloseIff(n: nat, j: nat, h: nat, c: Conn)
    requires j <= n
    ensures c in ConnsToClose(Overrun(n, j, h)) <==> c < j
  {
    var s := Overrun(n, j, h);
    if c < j {
      assert c in s.pc && [c][0] == c && c in s.pc[c].ToClose();
    }
  }

  /** The bound of SlotsAndSocketsConserved is reached for every pool and every number of closes in
      progress: a discarded socket is closed only after its slot was handed on. */
  lemma SocketsCanExceedMaxSize(cfg: Config, k: nat)
    requires cfg.maxSize >= 1
    ensures exists s :: Reachable(cfg, s) && |ConnsToClose(s)| == k && |s.live| == cfg.maxSize + k
  {
    var n := k + cfg.maxSize;
    AllHold(cfg, n, k, cfg.maxSize);
    OverrunSizes(n, k, cfg.maxSize);
    var s := Overrun(n, k, cfg.maxSize);
  }

  lemma OverrunSizes(n: nat, j: nat, h: nat)
    requires j <= n
    ensures |ConnsToClose(Overrun(n, j, h))| == j && |Overrun(n, j, h).live| == j + h
  {
    ToCloseInOverrun(n, j, h);
    BelowSize(j);
    BelowSize(j + h);
  }

  lemma {:induction false} Append(cfg: Config, s: State, steps: seq<Step>, more: seq<Step>)
    requires Runs(cfg, s, steps) && Runs(cfg, End(cfg, s, steps), more)
    ensures Runs(cfg, s, steps + more) && End(cfg, s, steps + more) == End(cfg, End(cfg, s, steps), more)
    decreases |steps|
  {
    if steps == [] {
      assert steps + more == more;
    } else {
      Append(cfg, Apply(cfg, s, steps[0]), steps[1..], more);
      assert steps + more == [steps[0]] + (steps[1..] + more);
      Extend(cfg, s, steps[0], steps[1..] + more);
    }
  }

  lemma Extend(cfg: Config, s: State, step: Step, rest: seq<Step>)
    requires Enabled(s, step) && Runs(cfg, Apply(cfg, s, step), rest)
    ensures Runs(cfg, s, [step] + rest) && End(cfg, s, [step] + rest) == End(cfg, Apply(cfg, s, step), rest)
  {
    assert ([step] + rest)[1..] == rest;
  }
}
