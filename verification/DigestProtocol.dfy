/** The notification digest of one user (apps/api/app/agents/notification_agent.py) together
    with the approval rows behind it (apps/api/app/repositories/approval.py).

    A digest reports what changed in a window and queues an email for approval; the next
    window starts at the watermark, the latest window end whose email was really sent. Runs
    of one user do not overlap; everything else interleaves with them freely. The items
    are one table, applications or scored postings; both queries have this shape. Of the
    other table there is only whether an email lists something from it.
 */
module DigestProtocol {
  import opened Shared

  type Time = int
  type Id = nat
  type ItemId = nat

  /** What an email says: a window, the items it lists, those in the window the LIMIT cut
      off, those it passed over as drafts or not scored yet, and whether it lists anything of the
      other table. */
  datatype Digest = Digest(start: Option<Time>, end: Time,
                           listed: set<ItemId>, cut: set<ItemId>, passedOver: set<ItemId>, elsewhere: bool)

  /** An email that lists nothing is not queued. */
  predicate Reports(d: Digest) {
    d.listed != {} || d.elsewhere
  }

  predicate Within(start: Option<Time>, end: Time, t: Time) {
    (start.Some? ==> start.value < t) && t <= end
  }

  predicate InWindow(d: Digest, t: Time) {
    Within(d.start, d.end, t)
  }

  datatype Status = Pending | Approved | Rejected

  /** An approval request; `email` is its payload. `claimed` and `completed` are the stamps
      executedAt and executionCompletedAt. */
  datatype Approval = Approval(status: Status, claimed: bool, completed: bool, email: Digest)

  /** A row of NotificationDigest. */
  datatype Row = Row(approvalId: Id, start: Option<Time>, end: Time)

  datatype Item = Item(stamp: Time, reportable: bool)

  datatype Phase =
    | NoRun
    | Started(now: Time)
    | Marked(now: Time, watermark: Option<Time>)
    | Composed(email: Digest)
    | Queued(approvalId: Id, email: Digest)

  datatype State = State(
    approvals: map<Id, Approval>,
    nextId: Id,
    rows: seq<Row>,          // oldest first
    items: map<ItemId, Item>,
    phase: Phase,
    lastRun: Time,           // the clock reading of the latest run
    clock: Time,
    sent: set<Digest>)       // every email whose sending provably completed

  // ------------------------------------------------------------ the SQL queries

  predicate Counts(approvals: map<Id, Approval>, r: Row) {
    r.approvalId in approvals && approvals[r.approvalId].status.Approved? && approvals[r.approvalId].completed
  }

  /** `_watermark`: the latest window end among rows whose approval was approved and whose
      execution completed. A row whose approval is gone joins nothing. */
  function Watermark(approvals: map<Id, Approval>, rows: seq<Row>): Option<Time> {
    if rows == [] then None
    else
      var last := rows[|rows| - 1];
      var before := Watermark(approvals, rows[..|rows| - 1]);
      if !Counts(approvals, last) then before
      else if before.Some? && before.value >= last.end then before
      else Some(last.end)
  }

  lemma {:induction false} WatermarkIsLatestSent(approvals: map<Id, Approval>, rows: seq<Row>)
    ensures var w := Watermark(approvals, rows);
            && (w.Some? <==> exists r | r in rows :: Counts(approvals, r))
            && (w.Some? ==> (exists r | r in rows :: Counts(approvals, r) && r.end == w.value)
                            && forall r | r in rows && Counts(approvals, r) :: r.end <= w.value)
  {
    if rows != [] {
      var last := |rows| - 1;
      WatermarkIsLatestSent(approvals, rows[..last]);
      assert rows == rows[..last] + [rows[last]];
      assert forall r :: r in rows <==> r in rows[..last] || r == rows[last];
    }
  }

  /** The newest pending request, the one a repeated run refreshes. */
  function NewestPending(approvals: map<Id, Approval>, n: nat): Option<Id> {
    if n == 0 then None
    else if n - 1 in approvals && approvals[n - 1].status.Pending? then Some(n - 1)
    else NewestPending(approvals, n - 1)
  }

  /** The newest row of a request, the one `_record_digest` updates. */
  function NewestRow(rows: seq<Row>, id: Id): Option<nat> {
    if rows == [] then None
    else if rows[|rows| - 1].approvalId == id then Some(|rows| - 1)
    else NewestRow(rows[..|rows| - 1], id)
  }

  function Recorded(rows: seq<Row>, id: Id, d: Digest): seq<Row> {
    var row := Row(id, d.start, d.end);
    var at := NewestRow(rows, id);
    if at.Some? && at.value < |rows| then rows[at.value := row] else rows + [row]
  }

  function Eligible(items: map<ItemId, Item>, start: Option<Time>, end: Time): set<ItemId> {
    set x | x in items && items[x].reportable && Within(start, end, items[x].stamp)
  }

  function PassedOver(items: map<ItemId, Item>, start: Option<Time>, end: Time): set<ItemId> {
    set x | x in items && !items[x].reportable && Within(start, end, items[x].stamp)
  }

  /** LIMIT: everything eligible if it fits, else as many as fit. */
  predicate Limited(chosen: set<ItemId>, eligible: set<ItemId>, cap: nat) {
    chosen <= eligible && if |eligible| <= cap then chosen == eligible else |chosen| == cap
  }

  /** The database of one user, changed in place by a run. */
  class Store {
    var approvals: map<Id, Approval>
    var nextId: Id
    var rows: seq<Row>

    constructor ()
      ensures approvals == map[] && nextId == 0 && rows == []
    {
      approvals, nextId, rows := map[], 0, [];
    }

    /** `queue_email_approval`. */
    method QueueEmail(email: Digest) returns (id: Id)
      modifies this
      ensures rows == old(rows)
      ensures (approvals, nextId, id) == Enqueued(old(approvals), old(nextId), email)
    {
      var i, found := nextId, false;
      while i > 0 && !found
        invariant 0 <= i <= nextId
        invariant !found ==> NewestPending(approvals, nextId) == NewestPending(approvals, i)
        invariant found ==> i < nextId && NewestPending(approvals, nextId) == Some(i)
        decreases if found then 0 else i + 1
      {
        i := i - 1;
        found := i in approvals && approvals[i].status.Pending?;
      }
      if found {
        WhatNewestPendingIs(approvals, nextId);
        id := i;
        approvals := approvals[id := approvals[id].(email := email)];
      } else {
        id := nextId;
        approvals := approvals[id := Approval(Pending, false, false, email)];
        nextId := nextId + 1;
      }
    }

    /** `_record_digest`. */
    method RecordDigest(id: Id, email: Digest)
      modifies this`rows
      ensures rows == Recorded(old(rows), id, email)
    {
      var row := Row(id, email.start, email.end);
      var i, found := |rows|, false;
      assert rows[..i] == rows;
      while i > 0 && !found
        invariant 0 <= i <= |rows|
        invariant !found ==> NewestRow(rows, id) == NewestRow(rows[..i], id)
        invariant found ==> i < |rows| && NewestRow(rows, id) == Some(i)
        decreases if found then 0 else i + 1
      {
        assert rows[..i][..i - 1] == rows[..i - 1];
        i := i - 1;
        found := rows[i].approvalId == id;
      }
      rows := if found then rows[i := row] else rows + [row];
    }
  }

  lemma {:induction false} WhatNewestPendingIs(approvals: map<Id, Approval>, n: nat)
    ensures var p := NewestPending(approvals, n);
            p.Some? ==> p.value < n && p.value in approvals && approvals[p.value].status.Pending?
  {
    if n > 0 { WhatNewestPendingIs(approvals, n - 1); }
  }

  /** Queueing refreshes the newest pending request or inserts a new one. */
  function Enqueued(approvals: map<Id, Approval>, nextId: Id, email: Digest): (map<Id, Approval>, Id, Id) {
    var p := NewestPending(approvals, nextId);
    if p.Some? && p.value in approvals then
      (approvals[p.value := approvals[p.value].(email := email)], nextId, p.value)
    else
      (approvals[nextId := Approval(Pending, false, false, email)], nextId + 1, nextId)
  }

  // ------------------------------------------------------------------- the steps

  datatype Step =
    | Tick(elapsed: nat)
    | Write(item: ItemId, stamp: Time, reportable: bool)   // a row changes, or appears, with a new stamp
    | Rescore(item: ItemId, reportable: bool)              // its stamp stays
    | Begin                                                // a run reads the clock
    | ReadWatermark
    | Compose(chosen: set<ItemId>, elsewhere: bool)
    | Queue
    | Record
    | Quit                                                 // nothing to report, no Gmail account, or a crash
    | Approve(id: Id)
    | Reject(id: Id)
    | Delete(id: Id)
    | Claim(id: Id)
    | Complete(id: Id)                                     // the send returned and this was recorded
    | Release(id: Id)

  predicate Has(s: State, id: Id, p: Approval -> bool) {
    id in s.approvals && p(s.approvals[id])
  }

  predicate Enabled(s: State, cap: nat, step: Step) {
    match step
    case Tick(_) => true
    case Write(_, _, _) => true
    case Rescore(x, _) => x in s.items
    case Begin => s.phase.NoRun?
    case ReadWatermark => s.phase.Started?
    case Compose(chosen, _) =>
      s.phase.Marked? && Limited(chosen, Eligible(s.items, s.phase.watermark, s.phase.now), cap)
    case Queue => s.phase.Composed? && Reports(s.phase.email)
    case Record => s.phase.Queued?
    case Quit => true
    case Approve(id) => Has(s, id, (a: Approval) => a.status.Pending?)
    case Reject(id) => Has(s, id, (a: Approval) => a.status.Pending?)
    case Delete(id) => id in s.approvals
    case Claim(id) => Has(s, id, (a: Approval) => a.status.Approved? && !a.claimed)
    case Complete(id) => Has(s, id, (a: Approval) => a.claimed && !a.completed)
    case Release(id) => id in s.approvals
  }

  function Apply(s: State, cap: nat, step: Step): State
    requires Enabled(s, cap, step)
  {
    match step
    case Tick(d) => s.(clock := s.clock + d)
    case Write(x, stamp, reportable) => s.(items := s.items[x := Item(stamp, reportable)])
    case Rescore(x, reportable) => s.(items := s.items[x := s.items[x].(reportable := reportable)])
    case Begin => s.(phase := Started(s.clock), lastRun := s.clock)
    case ReadWatermark => s.(phase := Marked(s.phase.now, Watermark(s.approvals, s.rows)))
    case Compose(chosen, elsewhere) =>
      var start, end := s.phase.watermark, s.phase.now;
      s.(phase := Composed(Digest(start, end, chosen, Eligible(s.items, start, end) - chosen,
                                  PassedOver(s.items, start, end), elsewhere)))
    case Queue =>
      var (approvals, nextId, id) := Enqueued(s.approvals, s.nextId, s.phase.email);
      s.(approvals := approvals, nextId := nextId, phase := Queued(id, s.phase.email))
    case Record => s.(rows := Recorded(s.rows, s.phase.approvalId, s.phase.email), phase := NoRun)
    case Quit => s.(phase := NoRun)
    case Approve(id) => s.(approvals := s.approvals[id := s.approvals[id].(status := Approved)])
    case Reject(id) => s.(approvals := s.approvals[id := s.approvals[id].(status := Rejected)])
    case Delete(id) => s.(approvals := s.approvals - {id})
    case Claim(id) => s.(approvals := s.approvals[id := s.approvals[id].(claimed := true)])
    case Complete(id) =>
      s.(approvals := s.approvals[id := s.approvals[id].(completed := true)],
         sent := s.sent + {s.approvals[id].email})
    case Release(id) =>
      s.(approvals := s.approvals[id := s.approvals[id].(claimed := false, completed := false)])
  }

  predicate Starts(s: State) {
    && s.approvals == map[] && s.rows == [] && s.items == map[] && s.phase.NoRun?
    && s.lastRun <= s.clock && s.sent == {}
  }

  predicate Runs(s: State, cap: nat, steps: seq<Step>)
    decreases |steps|
  {
    steps == [] || (Enabled(s, cap, steps[0]) && Runs(Apply(s, cap, steps[0]), cap, steps[1..]))
  }

  function End(s: State, cap: nat, steps: seq<Step>): State
    requires Runs(s, cap, steps)
    decreases |steps|
  {
    if steps == [] then s else End(Apply(s, cap, steps[0]), cap, steps[1..])
  }
}
