/** All interleavings of threads over one connection pool.

    A state holds the pool's fields, every thread's program counter and the sockets. A
    step is one atomic action: a critical section, one action outside the lock, or a
    move of the environment. The theorems speak of every state that some finite run of
    steps reaches from the start.
 */
module PoolProtocol {
  import opened Shared
  import opened ConnectionPool

  /** Where a thread is inside `acquire`, `release` or `close_all`. */
  datatype PC =
    | Away                                         // in none of them, holding nothing
    | Entering(deadline: real)                     // about to take the lock in acquire
    | Parked(deadline: real)                       // in wait, not notified
    | Notified(deadline: real)                     // notified, about to retry the lock
    | Validating(conn: Conn, releasedAt: real)     // popped an idle connection
    | Dropping(conn: Conn)                         // closing an unusable one, then dialling
    | Dialling
    | RollingBack                                  // the dial failed
    | Holding(conn: Conn)                          // the caller has the connection
    | Returning(conn: Conn, discard: bool)         // release, before the lock
    | GivingBack(conn: Conn, keep: bool)           // release, about to take the lock
    | Closing(pending: seq<Conn>)                  // closing sockets, lock released
  {
    /** The thread occupies one of the slots counted by `_leased`. */
    predicate Leases() {
      Validating? || Dropping? || Dialling? || RollingBack? || Holding? || Returning? || GivingBack?
    }

    function Leased(): set<Conn> {
      match this
      case Validating(c, _) => {c}
      case Dropping(c) => {c}
      case Holding(c) => {c}
      case Returning(c, _) => {c}
      case GivingBack(c, _) => {c}
      case _ => {}
    }

    function ToClose(): set<Conn> {
      if Closing? then Members(pending) else {}
    }

    function Owned(): set<Conn> {
      if Closing? then ToClose() else Leased()
    }
  }

  datatype State = State(
    pool: Vars,
    pc: map<Tid, PC>,
    live: set<Conn>,      // sockets that exist, that is, connections whose `closed` is false
    dirty: set<Conn>,     // connections with a transaction left open
    nextConn: Conn,       // identifiers from here on have never been used
    now: real)

  datatype Step =
    | Tick(elapsed: real)
    | Break(conn: Conn)                            // the driver marks a connection closed
    | Work(t: Tid, leavesOpen: bool)               // the caller runs statements
    | Call(t: Tid, timeout: real)
    | Lock(t: Tid)                                 // acquire's critical section
    | TimeOut(t: Tid)                              // wait returns False
    | Validate(t: Tid, pingOk: bool)
    | Drop(t: Tid)
    | Connect(t: Tid, ok: bool)
    | Abandon(t: Tid)                              // the except branch's critical section
    | Return(t: Tid, discard: bool)
    | Inspect(t: Tid, report: TxReport)
    | GiveBack(t: Tid)                             // release's critical section
    | CloseNext(t: Tid)
    | CloseAll(t: Tid)                             // close_all's critical section

  predicate At(s: State, t: Tid, where: PC -> bool) {
    t in s.pc && where(s.pc[t])
  }

  predicate Enabled(s: State, step: Step) {
    match step
    case Tick(d) => d >= 0.0
    case Break(_) => true
    case Work(t, _) => At(s, t, (p: PC) => p.Holding?)
    case Call(t, _) => At(s, t, (p: PC) => p.Away?)
    case Lock(t) => At(s, t, (p: PC) => p.Entering? || p.Notified?)
    case TimeOut(t) => At(s, t, (p: PC) => p.Parked?)
    case Validate(t, _) => At(s, t, (p: PC) => p.Validating?)
    case Drop(t) => At(s, t, (p: PC) => p.Dropping?)
    case Connect(t, _) => At(s, t, (p: PC) => p.Dialling?)
    case Abandon(t) => At(s, t, (p: PC) => p.RollingBack?)
    case Return(t, _) => At(s, t, (p: PC) => p.Holding?)
    case Inspect(t, report) =>
      && At(s, t, (p: PC) => p.Returning?)
      && (report.AlreadyIdle? ==> s.pc[t].conn !in s.dirty)
      && (report.RolledBack? || report.RollbackFailed? ==> s.pc[t].conn in s.dirty)
    case GiveBack(t) => At(s, t, (p: PC) => p.GivingBack?)
    case CloseNext(t) => At(s, t, (p: PC) => p.Closing?)
    case CloseAll(t) => At(s, t, (p: PC) => p.Away?)
  }

  /** Notifying a set of parked threads. */
  function Woken(pc: map<Tid, PC>, ts: seq<Tid>): map<Tid, PC> {
    map t | t in pc :: if t in ts && pc[t].Parked? then Notified(pc[t].deadline) else pc[t]
  }

  function First(ts: seq<Tid>): seq<Tid> {
    if ts == [] then [] else ts[..1]
  }

  function WithoutWaiter(ts: seq<Tid>, t: Tid): seq<Tid> {
    if ts == [] then [] else if ts[0] == t then ts[1..] else [ts[0]] + WithoutWaiter(ts[1..], t)
  }

  function AfterTake(t: Tid, deadline: real, o: Outcome): PC {
    match o
    case Reuse(c, at) => Validating(c, at)
    case Dial => Dialling
    case Wait => Parked(deadline)
    case Exhausted => Away
  }

  function Apply(cfg: Config, s: State, step: Step): State
    requires Enabled(s, step)
  {
    match step
    case Tick(d) => s.(now := s.now + d)
    case Break(c) => s.(live := s.live - {c})
    case Work(t, leavesOpen) =>
      s.(dirty := if leavesOpen then s.dirty + {s.pc[t].conn} else s.dirty - {s.pc[t].conn})
    case Call(t, timeout) => s.(pc := s.pc[t := Entering(s.now + timeout)])
    case Lock(t) =>
      var deadline := s.pc[t].deadline;
      var (pool, o) := Take(cfg, s.pool, t, s.now, deadline);
      s.(pool := pool, pc := s.pc[t := AfterTake(t, deadline, o)])
    case TimeOut(t) =>
      var deadline := s.pc[t].deadline;
      s.(pool := s.pool.(waiters := WithoutWaiter(s.pool.waiters, t)),
         pc := s.pc[t := if deadline - s.now <= 0.0 then Away else Entering(deadline)])
    case Validate(t, pingOk) =>
      var c, idleFor := s.pc[t].conn, s.now - s.pc[t].releasedAt;
      // The ping is a statement: it opens a transaction, and only a ping that works is rolled back.
      var pinged := c in s.live && cfg.pingAfter <= idleFor < cfg.recycle;
      s.(dirty := if !pinged then s.dirty else if pingOk then s.dirty - {c} else s.dirty + {c},
         pc := s.pc[t := if IsUsable(cfg, c !in s.live, idleFor, pingOk) then Holding(c) else Dropping(c)])
    case Drop(t) =>
      s.(live := s.live - {s.pc[t].conn}, pc := s.pc[t := Dialling])
    case Connect(t, ok) =>
      if ok then
        s.(live := s.live + {s.nextConn}, dirty := s.dirty - {s.nextConn},
           nextConn := s.nextConn + 1, pc := s.pc[t := Holding(s.nextConn)])
      else
        s.(pc := s.pc[t := RollingBack])
    case Abandon(t) =>
      s.(pool := UndoSlot(s.pool), pc := Woken(s.pc[t := Away], First(s.pool.waiters)))
    case Return(t, discard) => s.(pc := s.pc[t := Returning(s.pc[t].conn, discard)])
    case Inspect(t, report) =>
      var c := s.pc[t].conn;
      var asked := !s.pc[t].discard && c in s.live;
      s.(dirty := if asked && report.RolledBack? then s.dirty - {c} else s.dirty,
         pc := s.pc[t := GivingBack(c, WorthKeeping(s.pc[t].discard, c !in s.live, report))])
    case GiveBack(t) =>
      var c, keep := s.pc[t].conn, s.pc[t].keep;
      var after := if Stays(cfg, s.pool, keep) then Away else Closing([c]);
      s.(pool := Give(cfg, s.pool, c, keep, s.now), pc := Woken(s.pc[t := after], First(s.pool.waiters)))
    case CloseNext(t) =>
      var todo := s.pc[t].pending;
      if todo == [] then s.(pc := s.pc[t := Away])
      else s.(live := s.live - {todo[0]}, pc := s.pc[t := Closing(todo[1..])])
    case CloseAll(t) =>
      s.(pool := Drain(s.pool),
         pc := Woken(s.pc[t := Closing(Conns(s.pool.idle))], s.pool.waiters))
  }

  predicate Starts(s: State) {
    && s.pool == EMPTY && s.live == {} && s.dirty == {}
    && forall t | t in s.pc :: s.pc[t].Away?
  }

  /** A run is a sequence of steps each of which is enabled when its turn comes. */
  predicate Runs(cfg: Config, s: State, steps: seq<Step>)
    decreases |steps|
  {
    steps == [] || (Enabled(s, steps[0]) && Runs(cfg, Apply(cfg, s, steps[0]), steps[1..]))
  }

  function End(cfg: Config, s: State, steps: seq<Step>): State
    requires Runs(cfg, s, steps)
    decreases |steps|
  {
    if steps == [] then s else End(cfg, Apply(cfg, s, steps[0]), steps[1..])
  }

  // ---------------------------------------------------------------- the invariant

  function Leasing(pc: map<Tid, PC>): set<Tid> {
    set t | t in pc && pc[t].Leases()
  }

  function Retrying(pc: map<Tid, PC>): set<Tid> {
    set t | t in pc && pc[t].Notified?
  }

  /** Slots a thread entering acquire now could take: idle connections and undialled slots. */
  function FreeSlots(cfg: Config, s: State): int {
    |s.pool.idle| + cfg.maxSize - s.pool.open
  }

  ghost predicate Counted(cfg: Config, s: State) {
    && s.pool.open == |s.pool.idle| + s.pool.leased
    && s.pool.leased == |Leasing(s.pc)|
    && s.pool.open <= cfg.maxSize
    && |s.pool.idle| <= cfg.maxIdle
  }

  /** The condition variable's queue holds exactly the parked threads, once each. */
  ghost predicate QueueAgrees(waiters: seq<Tid>, pc: map<Tid, PC>) {
    && Distinct(waiters)
    && (forall t | t in waiters :: t in pc && pc[t].Parked?)
    && (forall t | t in pc && pc[t].Parked? :: t in waiters)
  }

  ghost predicate Queued(s: State) {
    QueueAgrees(s.pool.waiters, s.pc)
  }

  ghost predicate NoLostWakeUp(cfg: Config, s: State) {
    |s.pool.waiters| > 0 ==> FreeSlots(cfg, s) <= |Retrying(s.pc)|
  }

  function Held(pc: map<Tid, PC>): map<Tid, set<Conn>> {
    map t | t in pc :: pc[t].Owned()
  }

  /** No connection has two owners, an owner being the idle list or a thread, and none
      is owned before it was dialled. */
  ghost predicate Apart(idle: seq<Conn>, held: map<Tid, set<Conn>>, next: Conn) {
    && Distinct(idle)
    && (forall c | c in idle :: c < next)
    && (forall t, c | t in held && c in held[t] :: c < next)
    && (forall t, c | t in held && c in held[t] :: c !in idle)
    && (forall t, u, c | t in held && u in held && t != u && c in held[t] :: c !in held[u])
  }

  ghost predicate Exclusive(s: State) {
    Apart(Conns(s.pool.idle), Held(s.pc), s.nextConn)
  }

  function IdleConns(s: State): set<Conn> {
    Members(Conns(s.pool.idle))
  }

  function LeasedConns(s: State): set<Conn> {
    set t, c | t in s.pc && c in s.pc[t].Leased() :: c
  }

  function ConnsToClose(s: State): set<Conn> {
    set t, c | t in s.pc && c in s.pc[t].ToClose() :: c
  }

  /** Every socket that exists has an owner, so none is forgotten. */
  ghost predicate Covered(live: set<Conn>, idle: seq<Conn>, held: map<Tid, set<Conn>>) {
    forall c | c in live :: c in idle || exists t :: t in held && c in held[t]
  }

  ghost predicate NoLeak(s: State) {
    Covered(s.live, Conns(s.pool.idle), Held(s.pc))
  }

  /** `_idle` is sorted by release time. */
  ghost predicate Fresh(s: State) {
    && (forall i, j | 0 <= i < j < |s.pool.idle| :: s.pool.idle[i].releasedAt <= s.pool.idle[j].releasedAt)
    && (forall i | 0 <= i < |s.pool.idle| :: s.pool.idle[i].releasedAt <= s.now)
  }

  /** Nothing that could be handed out carries an open transaction. */
  ghost predicate Clean(s: State) {
    && (forall i | 0 <= i < |s.pool.idle| :: s.pool.idle[i].conn !in s.dirty)
    && (forall t | t in s.pc && s.pc[t].Validating? :: s.pc[t].conn !in s.dirty)
    && (forall t | t in s.pc && s.pc[t].GivingBack? && s.pc[t].keep :: s.pc[t].conn !in s.dirty)
  }

  ghost predicate Inv(cfg: Config, s: State) {
    Counted(cfg, s) && Queued(s) && NoLostWakeUp(cfg, s) && Exclusive(s) && NoLeak(s) && Fresh(s) && Clean(s)
  }
}
