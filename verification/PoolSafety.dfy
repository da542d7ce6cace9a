/** Safety of the pool protocol over every run: conservation of slots and sockets, no lost
    wake-up, clean and freshest hand-outs, and no way back for a retired connection.
 */
module PoolSafety {
  import opened Shared
  import opened ConnectionPool
  import opened PoolProtocol

  // ------------------------------------------------------------ bookkeeping lemmas

  lemma LeasingAfter(pc: map<Tid, PC>, t: Tid, p: PC)
    requires t in pc
    ensures pc[t].Leases() == p.Leases() ==> |Leasing(pc[t := p])| == |Leasing(pc)|
    ensures pc[t].Leases() && !p.Leases() ==> |Leasing(pc[t := p])| == |Leasing(pc)| - 1
    ensures !pc[t].Leases() && p.Leases() ==> |Leasing(pc[t := p])| == |Leasing(pc)| + 1
  {
    var before, after := Leasing(pc), Leasing(pc[t := p]);
    if p.Leases() {
      assert after == before + {t};
    } else {
      assert after == before - {t};
    }
  }

  lemma RetryingAfter(pc: map<Tid, PC>, t: Tid, p: PC)
    requires t in pc
    ensures pc[t].Notified? == p.Notified? ==> |Retrying(pc[t := p])| == |Retrying(pc)|
    ensures pc[t].Notified? && !p.Notified? ==> |Retrying(pc[t := p])| == |Retrying(pc)| - 1
    ensures !pc[t].Notified? && p.Notified? ==> |Retrying(pc[t := p])| == |Retrying(pc)| + 1
  {
    var before, after := Retrying(pc), Retrying(pc[t := p]);
    if p.Notified? {
      assert after == before + {t};
    } else {
      assert after == before - {t};
    }
  }

  lemma WakingKeepsLeases(pc: map<Tid, PC>, ts: seq<Tid>)
    ensures Leasing(Woken(pc, ts)) == Leasing(pc)
  {
    var after := Woken(pc, ts);
    assert forall t | t in pc :: after[t].Leases() == pc[t].Leases();
  }

  /** Notifying one parked thread adds exactly one to the threads about to retry. */
  lemma WakingOne(pc: map<Tid, PC>, waiters: seq<Tid>)
    requires forall t | t in waiters :: t in pc && pc[t].Parked?
    ensures waiters != [] ==> |Retrying(Woken(pc, First(waiters)))| == |Retrying(pc)| + 1
  {
    if waiters != [] {
      var t := waiters[0];
      assert Woken(pc, First(waiters)) == pc[t := Notified(pc[t].deadline)];
      RetryingAfter(pc, t, Notified(pc[t].deadline));
    }
  }

  lemma WithoutWaiterMembers(ts: seq<Tid>, t: Tid)
    requires Distinct(ts)
    ensures Distinct(WithoutWaiter(ts, t))
    ensures forall u :: u in WithoutWaiter(ts, t) <==> u in ts && u != t
  {
    if ts != [] && ts[0] != t {
      WithoutWaiterMembers(ts[1..], t);
      assert ts == [ts[0]] + ts[1..];
      assert ts[0] !in ts[1..];
    }
  }

  predicate Acts(step: Step, t: Tid) {
    !step.Tick? && !step.Break? && step.t == t
  }

  /** A step moves its own thread and may notify parked ones; nobody else moves. */
  lemma OthersStay(cfg: Config, s: State, step: Step)
    requires Enabled(s, step)
    ensures var s' := Apply(cfg, s, step);
            && s'.pc.Keys == s.pc.Keys
            && forall u | u in s.pc && !Acts(step, u) ::
                 s'.pc[u] == s.pc[u] || (s.pc[u].Parked? && s'.pc[u].Notified?)
  {
  }

  // ------------------------------------------------- each conjunct of the invariant

  lemma CountedKept(cfg: Config, s: State, step: Step)
    requires Counted(cfg, s) && Enabled(s, step)
    ensures Counted(cfg, Apply(cfg, s, step))
  {
    match step
    case Tick(_) =>
    case Break(_) =>
    case Work(_, _) =>
    case Call(t, timeout) => LeasingAfter(s.pc, t, Entering(s.now + timeout));
    case Lock(t) =>
      LeasingAfter(s.pc, t, AfterTake(t, s.pc[t].deadline, Take(cfg, s.pool, t, s.now, s.pc[t].deadline).1));
    case TimeOut(t) =>
      LeasingAfter(s.pc, t, Away);
      LeasingAfter(s.pc, t, Entering(s.pc[t].deadline));
    case Validate(t, _) =>
      LeasingAfter(s.pc, t, Holding(s.pc[t].conn));
      LeasingAfter(s.pc, t, Dropping(s.pc[t].conn));
    case Drop(t) => LeasingAfter(s.pc, t, Dialling);
    case Connect(t, ok) => LeasingAfter(s.pc, t, if ok then Holding(s.nextConn) else RollingBack);
    case Abandon(t) =>
      LeasingAfter(s.pc, t, Away);
      WakingKeepsLeases(s.pc[t := Away], First(s.pool.waiters));
    case Return(t, discard) => LeasingAfter(s.pc, t, Returning(s.pc[t].conn, discard));
    case Inspect(t, report) =>
      LeasingAfter(s.pc, t, GivingBack(s.pc[t].conn, WorthKeeping(s.pc[t].discard, s.pc[t].conn !in s.live, report)));
    case GiveBack(t) =>
      var after := if Stays(cfg, s.pool, s.pc[t].keep) then Away else Closing([s.pc[t].conn]);
      LeasingAfter(s.pc, t, after);
      WakingKeepsLeases(s.pc[t := after], First(s.pool.waiters));
    case CloseNext(t) =>
      LeasingAfter(s.pc, t, Away);
      LeasingAfter(s.pc, t, Closing(if s.pc[t].pending == [] then [] else s.pc[t].pending[1..]));
    case CloseAll(t) =>
      var closing := Closing(Conns(s.pool.idle));
      LeasingAfter(s.pc, t, closing);
      WakingKeepsLeases(s.pc[t := closing], s.pool.waiters);
  }

  lemma NoLostWakeUpKept(cfg: Config, s: State, step: Step)
    requires Counted(cfg, s) && Queued(s) && NoLostWakeUp(cfg, s) && Enabled(s, step)
    ensures NoLostWakeUp(cfg, Apply(cfg, s, step))
  {
    match step
    case Tick(_) =>
    case Break(_) =>
    case Work(_, _) =>
    case Call(t, timeout) => RetryingAfter(s.pc, t, Entering(s.now + timeout));
    case Lock(t) =>
      RetryingAfter(s.pc, t, AfterTake(t, s.pc[t].deadline, Take(cfg, s.pool, t, s.now, s.pc[t].deadline).1));
    case TimeOut(t) =>
      WithoutWaiterMembers(s.pool.waiters, t);
      RetryingAfter(s.pc, t, Away);
      RetryingAfter(s.pc, t, Entering(s.pc[t].deadline));
    case Validate(t, _) =>
      RetryingAfter(s.pc, t, Holding(s.pc[t].conn));
      RetryingAfter(s.pc, t, Dropping(s.pc[t].conn));
    case Drop(t) => RetryingAfter(s.pc, t, Dialling);
    case Connect(t, ok) => RetryingAfter(s.pc, t, if ok then Holding(s.nextConn) else RollingBack);
    case Abandon(t) =>
      RetryingAfter(s.pc, t, Away);
      WakingOne(s.pc[t := Away], s.pool.waiters);
    case Return(t, discard) => RetryingAfter(s.pc, t, Returning(s.pc[t].conn, discard));
    case Inspect(t, report) =>
      RetryingAfter(s.pc, t, GivingBack(s.pc[t].conn, WorthKeeping(s.pc[t].discard, s.pc[t].conn !in s.live, report)));
    case GiveBack(t) =>
      var after := if Stays(cfg, s.pool, s.pc[t].keep) then Away else Closing([s.pc[t].conn]);
      RetryingAfter(s.pc, t, after);
      WakingOne(s.pc[t := after], s.pool.waiters);
    case CloseNext(t) =>
      RetryingAfter(s.pc, t, Away);
      RetryingAfter(s.pc, t, Closing(if s.pc[t].pending == [] then [] else s.pc[t].pending[1..]));
    case CloseAll(t) =>
  }

  lemma QueueAfterNotify(waiters: seq<Tid>, pc: map<Tid, PC>, t: Tid, p: PC)
    requires QueueAgrees(waiters, pc) && t in pc && !pc[t].Parked? && !p.Parked?
    ensures QueueAgrees(if waiters == [] then [] else waiters[1..], Woken(pc[t := p], First(waiters)))
  {
    if waiters != [] {
      assert forall u :: u in waiters <==> u == waiters[0] || u in waiters[1..];
      assert waiters[0] !in waiters[1..];
    }
  }

  lemma QueuedKept(cfg: Config, s: State, step: Step)
    requires Queued(s) && Enabled(s, step)
    ensures Queued(Apply(cfg, s, step))
  {
    var s' := Apply(cfg, s, step);
    match step
    case TimeOut(t) => WithoutWaiterMembers(s.pool.waiters, t);
    case Lock(t) =>
      assert t !in s.pool.waiters;
      assert forall u :: u in s.pool.waiters + [t] <==> u in s.pool.waiters || u == t;
    case Abandon(t) => QueueAfterNotify(s.pool.waiters, s.pc, t, Away);
    case GiveBack(t) =>
      var after := if Stays(cfg, s.pool, s.pc[t].keep) then Away else Closing([s.pc[t].conn]);
      QueueAfterNotify(s.pool.waiters, s.pc, t, after);
    case CloseAll(t) =>
    case _ =>
  }


  /** Giving up ownership, or idle entries, keeps ownership exclusive. */
  lemma ApartShrinks(idle: seq<Conn>, held: map<Tid, set<Conn>>, idle': seq<Conn>, held': map<Tid, set<Conn>>, next: Conn)
    requires Apart(idle, held, next)
    requires idle' <= idle && held'.Keys == held.Keys
    requires forall t | t in held :: held'[t] <= held[t]
    ensures Apart(idle', held', next)
  {
    assert forall i | 0 <= i < |idle'| :: idle'[i] == idle[i];
    forall c | c in idle' ensures c in idle && c < next {
      var i :| 0 <= i < |idle'| && idle'[i] == c;
      assert idle[i] == c;
    }
    forall t, c | t in held' && c in held'[t] ensures t in held && c in held[t] {
      assert t in held'.Keys;
      assert held'[t] <= held[t];
    }
  }

  /** One thread's ownership changes: enough that what it newly owns was nobody else's. */
  lemma ApartAfter(idle: seq<Conn>, held: map<Tid, set<Conn>>, next: Conn,
                   idle': seq<Conn>, t: Tid, owned: set<Conn>, next': Conn)
    requires Apart(idle, held, next) && t in held && next <= next'
    requires Distinct(idle') && (forall c | c in idle' :: c < next' && (c in idle || c in held[t]) && c !in owned)
    requires forall c | c in owned :: c < next' && c !in idle' && (c in held[t] || c in idle || next <= c)
    ensures Apart(idle', held[t := owned], next')
  {
    var held' := held[t := owned];
    assert forall u | u in held' :: u in held && held'[u] == if u == t then owned else held[u];
    forall u, c | u in held' && c in held'[u] ensures c < next' && c !in idle' {
      if u == t {
        assert c in owned;
      } else {
        assert c in held[u];
        assert c < next && c !in idle && c !in held[t];
      }
    }
    forall u, v, c | u in held' && v in held' && u != v && c in held'[u] ensures c !in held'[v] {
      if u != t {
        assert c in held[u];
      } else {
        assert forall d | d in held[v] :: d !in held[t] && d < next && d !in idle;
      }
    }
  }

  /** Notification changes nobody's ownership, and the acting thread's as its new counter says. */
  lemma HeldAfter(pc: map<Tid, PC>, t: Tid, p: PC, woken: seq<Tid>)
    requires t in pc
    ensures Held(Woken(pc[t := p], woken)) == Held(pc)[t := p.Owned()]
    ensures Held(pc[t := p]) == Held(pc)[t := p.Owned()]
  {
  }

  lemma LockMoves(cfg: Config, s: State, t: Tid)
    requires Enabled(s, Lock(t))
    ensures var s', idle, held := Apply(cfg, s, Lock(t)), Conns(s.pool.idle), Held(s.pc);
            && s'.nextConn == s.nextConn && held[t] == {}
            && (idle != [] ==> Conns(s'.pool.idle) == idle[..|idle| - 1]
                               && Held(s'.pc) == held[t := {idle[|idle| - 1]}])
            && (idle == [] ==> Conns(s'.pool.idle) == idle && Held(s'.pc) == held)
  {
    HeldAfter(s.pc, t, Apply(cfg, s, Lock(t)).pc[t], []);
  }

  lemma ExclusiveAfterLock(cfg: Config, s: State, t: Tid)
    requires Exclusive(s) && Enabled(s, Lock(t))
    ensures Exclusive(Apply(cfg, s, Lock(t)))
  {
    LockMoves(cfg, s, t);
    var idle := Conns(s.pool.idle);
    if idle != [] {
      TopMoves(idle, Held(s.pc), t, s.nextConn);
    }
  }

  lemma TopMoves(idle: seq<Conn>, held: map<Tid, set<Conn>>, t: Tid, next: Conn)
    requires Apart(idle, held, next) && t in held && held[t] == {} && idle != []
    ensures Apart(idle[..|idle| - 1], held[t := {idle[|idle| - 1]}], next)
  {
    var rest, top := idle[..|idle| - 1], idle[|idle| - 1];
    assert forall c | c in rest :: c in idle && c != top;
    assert top in idle && top !in rest;
    ApartAfter(idle, held, next, rest, t, {top}, next);
  }

  lemma GiveBackMoves(cfg: Config, s: State, t: Tid)
    requires Enabled(s, GiveBack(t))
    ensures var s', idle, held, c := Apply(cfg, s, GiveBack(t)), Conns(s.pool.idle), Held(s.pc), s.pc[t].conn;
            && s'.nextConn == s.nextConn && held[t] == {c}
            && if Stays(cfg, s.pool, s.pc[t].keep) then
                 Conns(s'.pool.idle) == idle + [c] && Held(s'.pc) == held[t := {}]
               else
                 Conns(s'.pool.idle) == idle && Held(s'.pc) == held
  {
    var c := s.pc[t].conn;
    var after := if Stays(cfg, s.pool, s.pc[t].keep) then Away else Closing([c]);
    HeldAfter(s.pc, t, after, First(s.pool.waiters));
    assert Closing([c]).Owned() == {c};
  }

  lemma ExclusiveAfterGiveBack(cfg: Config, s: State, t: Tid)
    requires Exclusive(s) && Enabled(s, GiveBack(t))
    ensures Exclusive(Apply(cfg, s, GiveBack(t)))
  {
    GiveBackMoves(cfg, s, t);
    if Stays(cfg, s.pool, s.pc[t].keep) {
      ConnReturns(Conns(s.pool.idle), Held(s.pc), t, s.pc[t].conn, s.nextConn);
    }
  }

  lemma ConnReturns(idle: seq<Conn>, held: map<Tid, set<Conn>>, t: Tid, c: Conn, next: Conn)
    requires Apart(idle, held, next) && t in held && held[t] == {c}
    ensures Apart(idle + [c], held[t := {}], next)
  {
    assert c in held[t] && c !in idle;
    assert forall d | d in idle + [c] :: d in idle || d == c;
    ApartAfter(idle, held, next, idle + [c], t, {}, next);
  }

  lemma CloseAllMoves(cfg: Config, s: State, t: Tid)
    requires Enabled(s, CloseAll(t))
    ensures var s', held := Apply(cfg, s, CloseAll(t)), Held(s.pc);
            && s'.nextConn == s.nextConn && held[t] == {}
            && Conns(s'.pool.idle) == [] && Held(s'.pc) == held[t := IdleConns(s)]
  {
    var idle := Conns(s.pool.idle);
    HeldAfter(s.pc, t, Closing(idle), s.pool.waiters);
    assert Closing(idle).Owned() == IdleConns(s);
  }

  lemma ExclusiveAfterCloseAll(cfg: Config, s: State, t: Tid)
    requires Exclusive(s) && Enabled(s, CloseAll(t))
    ensures Exclusive(Apply(cfg, s, CloseAll(t)))
  {
    CloseAllMoves(cfg, s, t);
    ApartAfter(Conns(s.pool.idle), Held(s.pc), s.nextConn, [], t, IdleConns(s), s.nextConn);
  }

  lemma ExclusiveAfterConnect(cfg: Config, s: State, t: Tid)
    requires Exclusive(s) && Enabled(s, Connect(t, true))
    ensures Exclusive(Apply(cfg, s, Connect(t, true)))
  {
    HeldAfter(s.pc, t, Holding(s.nextConn), []);
    var idle, held := Conns(s.pool.idle), Held(s.pc);
    ApartAfter(idle, held, s.nextConn, idle, t, {s.nextConn}, s.nextConn + 1);
  }

  lemma HeldByNobodyElse(idle: seq<Conn>, held: map<Tid, set<Conn>>, next: Conn, t: Tid, c: Conn)
    requires Apart(idle, held, next) && t in held && c in held[t]
    ensures c < next && c !in idle
    ensures forall u | u in held && u != t :: c !in held[u]
  {
  }

  lemma OwnedByNobodyElse(s: State, t: Tid, c: Conn)
    requires Exclusive(s) && t in s.pc && c in s.pc[t].Owned()
    ensures c < s.nextConn && c !in Conns(s.pool.idle)
    ensures forall u | u in s.pc && u != t :: c !in s.pc[u].Owned()
  {
    var held := Held(s.pc);
    assert c in held[t];
    HeldByNobodyElse(Conns(s.pool.idle), held, s.nextConn, t, c);
    assert forall u | u in s.pc :: held[u] == s.pc[u].Owned();
  }

  predicate MovesOwnership(step: Step) {
    step.Lock? || step.GiveBack? || step.CloseAll? || (step.Connect? && step.ok)
  }

  /** Every other step leaves ownership as it is or gives some up. */
  lemma OwnershipShrinks(cfg: Config, s: State, step: Step)
    requires Enabled(s, step) && !MovesOwnership(step)
    ensures var s' := Apply(cfg, s, step);
            && s'.pool.idle == s.pool.idle && s'.nextConn == s.nextConn
            && s'.pc.Keys == s.pc.Keys
            && forall t | t in s.pc :: s'.pc[t].Owned() <= s.pc[t].Owned()
  {
    OthersStay(cfg, s, step);
  }

  lemma ExclusiveOtherwise(cfg: Config, s: State, step: Step)
    requires Exclusive(s) && Enabled(s, step) && !MovesOwnership(step)
    ensures Exclusive(Apply(cfg, s, step))
  {
    OwnershipShrinks(cfg, s, step);
    var s' := Apply(cfg, s, step);
    ApartShrinks(Conns(s.pool.idle), Held(s.pc), Conns(s'.pool.idle), Held(s'.pc), s.nextConn);
  }

  lemma ExclusiveKept(cfg: Config, s: State, step: Step)
    requires Exclusive(s) && Enabled(s, step)
    ensures Exclusive(Apply(cfg, s, step))
  {
    if MovesOwnership(step) {
      match step
      case Lock(t) => ExclusiveAfterLock(cfg, s, t);
      case GiveBack(t) => ExclusiveAfterGiveBack(cfg, s, t);
      case CloseAll(t) => ExclusiveAfterCloseAll(cfg, s, t);
      case Connect(t, _) => ExclusiveAfterConnect(cfg, s, t);
    } else {
      ExclusiveOtherwise(cfg, s, step);
    }
  }

  /** A thread gives up a connection for good only together with its socket. */
  lemma OwnershipLeavesWithSocket(cfg: Config, s: State, step: Step)
    requires Enabled(s, step) && !MovesOwnership(step)
    ensures var s' := Apply(cfg, s, step);
            && s'.live <= s.live
            && forall t, c | t in s.pc && c in s.pc[t].Owned() && c in s'.live :: c in s'.pc[t].Owned()
  {
    OthersStay(cfg, s, step);
    match step
    case CloseNext(t) =>
      var todo := s.pc[t].pending;
      assert todo != [] ==> forall c | c in todo :: c == todo[0] || c in todo[1..];
    case _ =>
  }

  lemma NoLeakKept(cfg: Config, s: State, step: Step)
    requires NoLeak(s) && Enabled(s, step)
    ensures NoLeak(Apply(cfg, s, step))
  {
    var s' := Apply(cfg, s, step);
    var idle, held := Conns(s.pool.idle), Held(s.pc);
    if MovesOwnership(step) {
      match step {
        case Lock(t) => LockMoves(cfg, s, t);
        case GiveBack(t) => GiveBackMoves(cfg, s, t);
        case CloseAll(t) => CloseAllMoves(cfg, s, t);
        case Connect(t, _) => HeldAfter(s.pc, t, Holding(s.nextConn), []);
      }
      forall c | c in s'.live ensures c in Conns(s'.pool.idle) || exists t :: t in Held(s'.pc) && c in Held(s'.pc)[t] {
        if c in s.live && c !in idle {
          var u :| u in held && c in held[u];
          assert u == step.t || c in Held(s'.pc)[u];
        } else {
          assert c in Conns(s'.pool.idle) || c in Held(s'.pc)[step.t];
        }
      }
    } else {
      OwnershipShrinks(cfg, s, step);
      OwnershipLeavesWithSocket(cfg, s, step);
      forall c | c in s'.live && c !in idle ensures exists t :: t in Held(s'.pc) && c in Held(s'.pc)[t] {
        var u :| u in held && c in held[u];
        assert c in Held(s'.pc)[u];
      }
    }
  }

  lemma FreshKept(cfg: Config, s: State, step: Step)
    requires Fresh(s) && Enabled(s, step)
    ensures Fresh(Apply(cfg, s, step))
  {
  }

  /** A step leaves a transaction open only on a connection its own thread holds. */
  lemma DirtyMoves(cfg: Config, s: State, step: Step)
    requires Enabled(s, step)
    ensures var s' := Apply(cfg, s, step);
            forall c | c in s'.dirty && c !in s.dirty ::
              !step.Tick? && !step.Break? && c in s.pc[step.t].Owned() && c !in s'.pc[step.t].ToClose()
  {
  }

  lemma IdleMoves(cfg: Config, s: State, step: Step)
    requires Enabled(s, step)
    ensures forall e | e in Apply(cfg, s, step).pool.idle ::
              e in s.pool.idle || (step.GiveBack? && s.pc[step.t].keep && e.conn == s.pc[step.t].conn)
  {
  }

  /** A connection one owner has is not dirtied by a step of another thread. */
  lemma NotDirtied(cfg: Config, s: State, step: Step, c: Conn)
    requires Exclusive(s) && Enabled(s, step) && c !in s.dirty
    requires c in Conns(s.pool.idle) || exists u :: u in s.pc && !Acts(step, u) && c in s.pc[u].Owned()
    ensures c !in Apply(cfg, s, step).dirty
  {
    DirtyMoves(cfg, s, step);
    if !step.Tick? && !step.Break? {
      var held := Held(s.pc);
      if c in Conns(s.pool.idle) {
        assert forall d | d in held[step.t] :: d !in Conns(s.pool.idle);
      } else {
        var u :| u in s.pc && !Acts(step, u) && c in s.pc[u].Owned();
        assert forall d | d in held[u] :: d !in held[step.t];
      }
    }
  }

  lemma CleanKept(cfg: Config, s: State, step: Step)
    requires Clean(s) && Exclusive(s) && Enabled(s, step)
    ensures Clean(Apply(cfg, s, step))
  {
    var s' := Apply(cfg, s, step);
    IdleMoves(cfg, s, step);
    forall i | 0 <= i < |s'.pool.idle| ensures s'.pool.idle[i].conn !in s'.dirty {
      var e := s'.pool.idle[i];
      if e in s.pool.idle {
        var j :| 0 <= j < |s.pool.idle| && s.pool.idle[j] == e;
        assert Conns(s.pool.idle)[j] == e.conn;
        NotDirtied(cfg, s, step, e.conn);
      }
    }
    OthersStay(cfg, s, step);
    forall t | t in s'.pc && (s'.pc[t].Validating? || (s'.pc[t].GivingBack? && s'.pc[t].keep))
      ensures s'.pc[t].conn !in s'.dirty
    {
      if !Acts(step, t) {
        assert s'.pc[t].conn in s.pc[t].Owned();
        NotDirtied(cfg, s, step, s'.pc[t].conn);
      }
    }
  }

  // ------------------------------------------------------------------ every run

  lemma InvHoldsAtStart(cfg: Config, s: State)
    requires Starts(s)
    ensures Inv(cfg, s)
  {
    assert Leasing(s.pc) == {};
  }

  lemma InvKept(cfg: Config, s: State, step: Step)
    requires Inv(cfg, s) && Enabled(s, step)
    ensures Inv(cfg, Apply(cfg, s, step))
  {
    CountedKept(cfg, s, step);
    QueuedKept(cfg, s, step);
    NoLostWakeUpKept(cfg, s, step);
    ExclusiveKept(cfg, s, step);
    NoLeakKept(cfg, s, step);
    FreshKept(cfg, s, step);
    CleanKept(cfg, s, step);
  }

  lemma {:induction false} InvOnRuns(cfg: Config, s: State, steps: seq<Step>)
    requires Inv(cfg, s) && Runs(cfg, s, steps)
    ensures Inv(cfg, End(cfg, s, steps))
    decreases |steps|
  {
    if steps != [] {
      InvKept(cfg, s, steps[0]);
      InvOnRuns(cfg, Apply(cfg, s, steps[0]), steps[1..]);
    }
  }

  /** s is reached by some run from the start. */
  ghost predicate Reachable(cfg: Config, s: State) {
    exists s0, steps :: Starts(s0) && Runs(cfg, s0, steps) && End(cfg, s0, steps) == s
  }

  lemma ReachableInv(cfg: Config, s: State)
    requires Reachable(cfg, s)
    ensures Inv(cfg, s)
  {
    var s0, steps :| Starts(s0) && Runs(cfg, s0, steps) && End(cfg, s0, steps) == s;
    InvHoldsAtStart(cfg, s0);
    InvOnRuns(cfg, s0, steps);
  }
}
