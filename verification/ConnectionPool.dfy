/** The lock-protected part of the bounded connection pool in apps/api/app/db.py.

    A connection is an identifier; its socket, its `closed` flag and its transaction
    live in the environment (module PoolProtocol). Every method of `Pool` below is one
    critical section of the source, that is, one `with self._cond:` block.
 */
module ConnectionPool {
  import opened Shared

  type Conn = nat
  type Tid = nat

  datatype Config = Config(maxSize: nat, maxIdle: nat, recycle: real, pingAfter: real)

  /** An entry of `_idle`: the connection and when it was released. */
  datatype Idle = Idle(conn: Conn, releasedAt: real)

  /** The pool's fields. `waiters` is the condition variable's queue of threads that are
      blocked in `wait` and have not been notified, longest waiting first. */
  datatype Vars = Vars(idle: seq<Idle>, open: int, leased: int, waiters: seq<Tid>)

  /** What one pass through acquire's critical section decides. */
  datatype Outcome = Reuse(conn: Conn, releasedAt: real) | Dial | Wait | Exhausted

  /** What `release` learns about a connection's transaction before taking the lock:
      the status is UNKNOWN or the query raised, it is already idle, or an open
      transaction was rolled back or could not be. */
  datatype TxReport = Lost | AlreadyIdle | RolledBack | RollbackFailed

  const EMPTY := Vars([], 0, 0, [])

  function Take(cfg: Config, v: Vars, t: Tid, now: real, deadline: real): (Vars, Outcome) {
    if |v.idle| > 0 then
      var top := v.idle[|v.idle| - 1];
      (v.(idle := v.idle[..|v.idle| - 1], leased := v.leased + 1), Reuse(top.conn, top.releasedAt))
    else if v.open < cfg.maxSize then
      (v.(open := v.open + 1, leased := v.leased + 1), Dial)
    else if deadline - now <= 0.0 then
      (v, Exhausted)
    else
      (v.(waiters := v.waiters + [t]), Wait)
  }

  function Notify(v: Vars): Vars {
    if v.waiters == [] then v else v.(waiters := v.waiters[1..])
  }

  function UndoSlot(v: Vars): Vars {
    Notify(v.(open := v.open - 1, leased := v.leased - 1))
  }

  predicate Stays(cfg: Config, v: Vars, keep: bool) {
    keep && |v.idle| < cfg.maxIdle
  }

  function Give(cfg: Config, v: Vars, conn: Conn, keep: bool, now: real): Vars {
    var v' := v.(leased := v.leased - 1);
    Notify(if Stays(cfg, v, keep) then v'.(idle := v.idle + [Idle(conn, now)])
           else v'.(open := v.open - 1))
  }

  function Drain(v: Vars): Vars {
    Vars([], v.open - |v.idle|, v.leased, [])
  }

  /** `_is_usable`. The ping is asked only when the connection is neither closed, nor
      expired, nor fresh. */
  predicate IsUsable(cfg: Config, closed: bool, idleFor: real, pingOk: bool) {
    !closed && idleFor < cfg.recycle && (idleFor < cfg.pingAfter || pingOk)
  }

  /** The `keep` decision `release` takes before the lock. */
  predicate WorthKeeping(discard: bool, closed: bool, report: TxReport) {
    !discard && !closed && (report.AlreadyIdle? || report.RolledBack?)
  }

  function Conns(idle: seq<Idle>): seq<Conn> {
    seq(|idle|, i requires 0 <= i < |idle| => idle[i].conn)
  }

  class Pool {
    const cfg: Config
    var idle: seq<Idle>
    var open: int
    var leased: int
    var waiters: seq<Tid>

    ghost function View(): Vars
      reads this
    {
      Vars(idle, open, leased, waiters)
    }

    constructor (cfg: Config)
      ensures this.cfg == cfg && View() == EMPTY
    {
      this.cfg := cfg;
      idle, open, leased, waiters := [], 0, 0, [];
    }

    method SignalOne()
      modifies this`waiters
      ensures View() == Notify(old(View()))
    {
      if |waiters| > 0 {
        waiters := waiters[1..];
      }
    }

    method TryAcquire(t: Tid, now: real, deadline: real) returns (o: Outcome)
      modifies this
      ensures (View(), o) == Take(cfg, old(View()), t, now, deadline)
    {
      if |idle| > 0 {
        var top := idle[|idle| - 1];
        idle := idle[..|idle| - 1];
        leased := leased + 1;
        o := Reuse(top.conn, top.releasedAt);
      } else if open < cfg.maxSize {
        open := open + 1;
        leased := leased + 1;
        o := Dial;
      } else {
        var remaining := deadline - now;
        if remaining <= 0.0 {
          o := Exhausted;
        } else {
          waiters := waiters + [t];
          o := Wait;
        }
      }
    }

    /** The `except` branch of acquire: a dial failed, so its slot is handed back. */
    method AbandonSlot()
      modifies this
      ensures View() == UndoSlot(old(View()))
    {
      open := open - 1;
      leased := leased - 1;
      SignalOne();
    }

    method TakeBack(conn: Conn, keep: bool, now: real) returns (kept: bool)
      modifies this
      ensures View() == Give(cfg, old(View()), conn, keep, now)
      ensures kept == Stays(cfg, old(View()), keep)
    {
      leased := leased - 1;
      kept := keep;
      if keep && |idle| < cfg.maxIdle {
        idle := idle + [Idle(conn, now)];
      } else {
        open := open - 1;
        kept := false;
      }
      SignalOne();
    }

    /** close_all's critical section; the returned sockets are closed outside the lock. */
    method TakeAllIdle() returns (drained: seq<Conn>)
      modifies this
      ensures View() == Drain(old(View()))
      ensures drained == Conns(old(idle))
    {
      drained := Conns(idle);
      open := open - |idle|;
      idle := [];
      waiters := [];
    }
  }
}
