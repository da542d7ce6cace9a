/** No gap in what digests cover, in every run of DigestProtocol. */
module DigestTheorems {
  import opened Shared
  import opened DigestProtocol

  ghost predicate Covered(sent: set<Digest>, t: Time) {
    exists d | d in sent :: InWindow(d, t)
  }

  ghost predicate CoveredUpTo(sent: set<Digest>, t: Time) {
    forall u: Time | u <= t :: Covered(sent, u)
  }

  /** Everything before the window of d was really sent. */
  ghost predicate StartsCovered(sent: set<Digest>, start: Option<Time>) {
    start.Some? ==> CoveredUpTo(sent, start.value)
  }

  // ---------------------------------------------------------------- the invariant

  ghost predicate ApprovalsOk(s: State) {
    forall id | id in s.approvals ::
      var a := s.approvals[id];
      && id < s.nextId && StartsCovered(s.sent, a.email.start) && a.email.end <= s.lastRun
      && (a.completed ==> a.claimed && a.email in s.sent)
      && (a.claimed ==> a.status.Approved?)
  }

  /** The window a row records ends no later than that of the email its approval carries:
      a crash between queueing and recording leaves it earlier. */
  ghost predicate RowOk(s: State, r: Row) {
    && r.approvalId < s.nextId && r.end <= s.lastRun
    && (r.approvalId in s.approvals ==> r.end <= s.approvals[r.approvalId].email.end)
  }

  ghost predicate PhaseOk(s: State) {
    match s.phase
    case NoRun => true
    case Started(now) => now == s.lastRun
    case Marked(now, w) => now == s.lastRun && StartsCovered(s.sent, w)
    case Composed(d) => d.end == s.lastRun && StartsCovered(s.sent, d.start)
    case Queued(id, d) =>
      && d.end == s.lastRun && id < s.nextId
      && (id in s.approvals ==> d.end <= s.approvals[id].email.end)
  }

  ghost predicate Inv(s: State) {
    ApprovalsOk(s) && (forall r | r in s.rows :: RowOk(s, r)) && PhaseOk(s) && s.lastRun <= s.clock
  }

  lemma CoveredGrows(sent: set<Digest>, more: set<Digest>, start: Option<Time>)
    requires sent <= more && StartsCovered(sent, start)
    ensures StartsCovered(more, start)
  {
    if start.Some? {
      forall u: Time | u <= start.value ensures Covered(more, u) {
        assert Covered(sent, u);
      }
    }
  }

  /** An email whose window starts where the sent ones end extends them to its own end. */
  lemma SentUpToItsEnd(sent: set<Digest>, d: Digest)
    requires d in sent && StartsCovered(sent, d.start)
    ensures CoveredUpTo(sent, d.end)
  {
    forall u: Time | u <= d.end ensures Covered(sent, u) {
      if d.start.Some? && u <= d.start.value {
        assert Covered(sent, u);
      } else {
        assert InWindow(d, u);
      }
    }
  }

  lemma WatermarkCovered(s: State)
    requires Inv(s)
    ensures StartsCovered(s.sent, Watermark(s.approvals, s.rows))
  {
    WatermarkIsLatestSent(s.approvals, s.rows);
    var w := Watermark(s.approvals, s.rows);
    if w.Some? {
      var r :| r in s.rows && Counts(s.approvals, r) && r.end == w.value;
      var a := s.approvals[r.approvalId];
      assert RowOk(s, r);
      SentUpToItsEnd(s.sent, a.email);
    }
  }

  lemma {:induction false} NewestRowIs(rows: seq<Row>, id: Id)
    ensures NewestRow(rows, id).Some? ==> NewestRow(rows, id).value < |rows|
  {
    if rows != [] { NewestRowIs(rows[..|rows| - 1], id); }
  }

  lemma RecordKeeps(s: State, cap: nat)
    requires Inv(s) && Enabled(s, cap, Record)
    ensures Inv(Apply(s, cap, Record))
  {
    var s' := Apply(s, cap, Record);
    NewestRowIs(s.rows, s.phase.approvalId);
    forall r | r in s'.rows ensures RowOk(s', r) {
      assert r in s.rows || r == Row(s.phase.approvalId, s.phase.email.start, s.phase.email.end);
      if r in s.rows { assert RowOk(s, r); }
    }
  }

  lemma QueueKeeps(s: State, cap: nat)
    requires Inv(s) && Enabled(s, cap, Queue)
    ensures Inv(Apply(s, cap, Queue))
  {
    var s' := Apply(s, cap, Queue);
    WhatNewestPendingIs(s.approvals, s.nextId);
    forall r | r in s'.rows ensures RowOk(s', r) {
      assert RowOk(s, r);
    }
  }

  lemma CompleteKeeps(s: State, cap: nat, id: Id)
    requires Inv(s) && Enabled(s, cap, Complete(id))
    ensures Inv(Apply(s, cap, Complete(id)))
  {
    var s' := Apply(s, cap, Complete(id));
    forall i | i in s'.approvals ensures StartsCovered(s'.sent, s'.approvals[i].email.start) {
      CoveredGrows(s.sent, s'.sent, s.approvals[i].email.start);
    }
    if s.phase.Marked? { CoveredGrows(s.sent, s'.sent, s.phase.watermark); }
    if s.phase.Composed? { CoveredGrows(s.sent, s'.sent, s.phase.email.start); }
    forall r | r in s'.rows ensures RowOk(s', r) {
      assert RowOk(s, r);
    }
  }

  lemma InvKept(s: State, cap: nat, step: Step)
    requires Inv(s) && Enabled(s, cap, step)
    ensures Inv(Apply(s, cap, step))
  {
    match step
    case Record => RecordKeeps(s, cap);
    case Queue => QueueKeeps(s, cap);
    case Complete(id) => CompleteKeeps(s, cap, id);
    case ReadWatermark =>
      WatermarkCovered(s);
      OtherRowsKept(s, cap, step);
    case _ => OtherRowsKept(s, cap, step);
  }

  lemma OtherRowsKept(s: State, cap: nat, step: Step)
    requires Inv(s) && Enabled(s, cap, step) && !step.Record? && !step.Queue? && !step.Complete?
    ensures forall r | r in Apply(s, cap, step).rows :: RowOk(Apply(s, cap, step), r)
  {
    var s' := Apply(s, cap, step);
    forall r | r in s'.rows ensures RowOk(s', r) {
      assert RowOk(s, r);
    }
  }

  lemma {:induction false} InvOnRuns(s: State, cap: nat, steps: seq<Step>)
    requires Inv(s) && Runs(s, cap, steps)
    ensures Inv(End(s, cap, steps))
    decreases |steps|
  {
    if steps != [] {
      InvKept(s, cap, steps[0]);
      InvOnRuns(Apply(s, cap, steps[0]), cap, steps[1..]);
    }
  }

  /** No gap: in every run, with refreshed, rejected and deleted requests, released claims
      and crashes anywhere, each instant up to the watermark lies in the window of an email
      whose sending completed. */
  lemma NoGap(s0: State, cap: nat, steps: seq<Step>, t: Time)
    requires Starts(s0) && Runs(s0, cap, steps)
    requires var s := End(s0, cap, steps);
             var w := Watermark(s.approvals, s.rows); w.Some? && t <= w.value
    ensures exists d | d in End(s0, cap, steps).sent :: InWindow(d, t)
  {
    InvOnRuns(s0, cap, steps);
    WatermarkCovered(End(s0, cap, steps));
    assert Covered(End(s0, cap, steps).sent, t);
  }

  // ------------------------------------------------------------------- the items

  /** d accounts for an item stamped t: its window holds t and it listed the item, or the LIMIT cut
      it, or it was passed over as not reportable when the email was composed. */
  predicate Accounts(d: Digest, x: ItemId, t: Time) {
    InWindow(d, t) && x in d.listed + d.cut + d.passedOver
  }

  ghost predicate SentFor(s: State, x: ItemId, t: Time) {
    exists d | d in s.sent :: Accounts(d, x, t)
  }

  /** The watermark has passed t and no email that was sent accounts for x. */
  ghost predicate Lost(s: State, x: ItemId, t: Time) {
    var w := Watermark(s.approvals, s.rows);
    w.Some? && t <= w.value && !SentFor(s, x, t)
  }

  predicate Alive(s: State, id: Id) {
    id in s.approvals && !s.approvals[id].status.Rejected?
  }

  /** A recorded row that a send may yet turn into the watermark, or has, reaches t. */
  predicate RowReaches(s: State, r: Row, t: Time) {
    Alive(s, r.approvalId) && t <= r.end
  }

  /** A write with stamp t comes too late: a recorded row of a request that is not rejected, the
      watermark a run has read, or an email to be queued that it has composed already reaches t. */
  ghost predicate Late(s: State, t: Time) {
    || (exists r | r in s.rows :: RowReaches(s, r, t))
    || (s.phase.Marked? && s.phase.watermark.Some? && t <= s.phase.watermark.value)
    || (s.phase.Composed? && Reports(s.phase.email) && t <= s.phase.email.end)
    || (s.phase.Queued? && Alive(s, s.phase.approvalId) && t <= s.phase.email.end)
  }

  /** Whatever can reach the item's stamp accounts for it, or an email that was sent does. */
  ghost predicate ItemSafe(s: State, x: ItemId) {
    x in s.items ==>
      var t := s.items[x].stamp;
      SentFor(s, x, t)
      || (&& (forall r | r in s.rows && RowReaches(s, r, t) :: Accounts(s.approvals[r.approvalId].email, x, t))
          && (s.phase.Marked? && s.phase.watermark.Some? ==> t > s.phase.watermark.value)
          && (s.phase.Composed? && Reports(s.phase.email) && t <= s.phase.email.end ==> Accounts(s.phase.email, x, t))
          && ((s.phase.Queued? && Alive(s, s.phase.approvalId) && t <= s.phase.email.end)
              ==> Accounts(s.approvals[s.phase.approvalId].email, x, t)))
  }

  lemma SentForGrows(s: State, s': State, x: ItemId, t: Time)
    requires SentFor(s, x, t) && s.sent <= s'.sent
    ensures SentFor(s', x, t)
  {
    var d :| d in s.sent && Accounts(d, x, t);
    assert d in s'.sent;
  }

  lemma SentGrows(s: State, cap: nat, step: Step)
    requires Enabled(s, cap, step)
    ensures s.sent <= Apply(s, cap, step).sent
  {
  }

  predicate WritesTo(step: Step, x: ItemId) {
    step.Write? && step.item == x
  }

  /** A safe item stays safe until it is written again, whatever else is written. */
  lemma ItemSafeKept(s: State, cap: nat, step: Step, x: ItemId)
    requires Inv(s) && ItemSafe(s, x) && Enabled(s, cap, step) && !WritesTo(step, x)
    ensures ItemSafe(Apply(s, cap, step), x)
  {
    if x in s.items {
      var t := s.items[x].stamp;
      SentGrows(s, cap, step);
      if SentFor(s, x, t) {
        SentForGrows(s, Apply(s, cap, step), x, t);
      } else {
        match step
        case Queue => QueueKeepsSafe(s, cap, x);
        case Record => RecordKeepsSafe(s, cap, x);
        case ReadWatermark => ReadKeepsSafe(s, cap, x);
        case Complete(id) => RestKeepsSafe(s, cap, step, x);
        case _ => RestKeepsSafe(s, cap, step, x);
      }
    }
  }

  lemma QueueKeepsSafe(s: State, cap: nat, x: ItemId)
    requires Inv(s) && ItemSafe(s, x) && Enabled(s, cap, Queue) && x in s.items && !SentFor(s, x, s.items[x].stamp)
    ensures ItemSafe(Apply(s, cap, Queue), x)
  {
    var s', t, d := Apply(s, cap, Queue), s.items[x].stamp, s.phase.email;
    WhatNewestPendingIs(s.approvals, s.nextId);
    forall r | r in s'.rows && RowReaches(s', r, t) ensures Accounts(s'.approvals[r.approvalId].email, x, t) {
      assert RowOk(s, r);
      if r.approvalId == s'.phase.approvalId {
        assert r.end <= d.end;
      } else {
        assert RowReaches(s, r, t);
      }
    }
  }

  lemma RecordKeepsSafe(s: State, cap: nat, x: ItemId)
    requires Inv(s) && ItemSafe(s, x) && Enabled(s, cap, Record) && x in s.items && !SentFor(s, x, s.items[x].stamp)
    ensures ItemSafe(Apply(s, cap, Record), x)
  {
    var s', t := Apply(s, cap, Record), s.items[x].stamp;
    NewestRowIs(s.rows, s.phase.approvalId);
    forall r | r in s'.rows && RowReaches(s', r, t) ensures Accounts(s'.approvals[r.approvalId].email, x, t) {
      if r in s.rows {
        assert RowReaches(s, r, t);
      }
    }
  }

  lemma ReadKeepsSafe(s: State, cap: nat, x: ItemId)
    requires Inv(s) && ItemSafe(s, x) && Enabled(s, cap, ReadWatermark) && x in s.items && !SentFor(s, x, s.items[x].stamp)
    ensures ItemSafe(Apply(s, cap, ReadWatermark), x)
  {
    if Watermark(s.approvals, s.rows).Some? && s.items[x].stamp <= Watermark(s.approvals, s.rows).value {
      SafeIsNotLost(s, x);
    }
    var s', t := Apply(s, cap, ReadWatermark), s.items[x].stamp;
    forall r | r in s'.rows && RowReaches(s', r, t) ensures Accounts(s'.approvals[r.approvalId].email, x, t) {
      assert RowReaches(s, r, t);
    }
  }

  lemma RestKeepsSafe(s: State, cap: nat, step: Step, x: ItemId)
    requires Inv(s) && ItemSafe(s, x) && Enabled(s, cap, step) && x in s.items && !SentFor(s, x, s.items[x].stamp)
    requires !WritesTo(step, x) && !step.Queue? && !step.Record? && !step.ReadWatermark?
    ensures ItemSafe(Apply(s, cap, step), x)
  {
    var s', t := Apply(s, cap, step), s.items[x].stamp;
    forall r | r in s'.rows && RowReaches(s', r, t) ensures Accounts(s'.approvals[r.approvalId].email, x, t) {
      assert RowReaches(s, r, t);
    }
  }

  /** A safe item is not lost. */
  lemma SafeIsNotLost(s: State, x: ItemId)
    requires Inv(s) && x in s.items && ItemSafe(s, x)
    ensures !Lost(s, x, s.items[x].stamp)
  {
    var t, w := s.items[x].stamp, Watermark(s.approvals, s.rows);
    WatermarkIsLatestSent(s.approvals, s.rows);
    if w.Some? && t <= w.value {
      var r :| r in s.rows && Counts(s.approvals, r) && r.end == w.value;
      assert RowReaches(s, r, t);
      assert s.approvals[r.approvalId].email in s.sent;
    }
  }

  /** A write that is not late makes its item safe. */
  lemma TimelyIsSafe(s: State, cap: nat, x: ItemId, t: Time, reportable: bool)
    requires !Late(s, t)
    ensures ItemSafe(Apply(s, cap, Write(x, t, reportable)), x)
  {
    var s' := Apply(s, cap, Write(x, t, reportable));
    forall r | r in s'.rows ensures !RowReaches(s', r, t) {
      assert !RowReaches(s, r, t);
    }
  }

  predicate NoWriteTo(steps: seq<Step>, x: ItemId) {
    forall i | 0 <= i < |steps| :: !WritesTo(steps[i], x)
  }

  lemma {:induction false} SafeOnRuns(s: State, cap: nat, steps: seq<Step>, x: ItemId)
    requires Inv(s) && ItemSafe(s, x) && x in s.items && Runs(s, cap, steps) && NoWriteTo(steps, x)
    ensures var e := End(s, cap, steps);
            Inv(e) && x in e.items && e.items[x].stamp == s.items[x].stamp && ItemSafe(e, x)
    decreases |steps|
  {
    if steps != [] {
      assert !WritesTo(steps[0], x);
      InvKept(s, cap, steps[0]);
      ItemSafeKept(s, cap, steps[0], x);
      SafeOnRuns(Apply(s, cap, steps[0]), cap, steps[1..], x);
    }
  }

  /** No write of the run is late. */
  ghost predicate AllTimely(s: State, cap: nat, steps: seq<Step>)
    requires Runs(s, cap, steps)
    decreases |steps|
  {
    steps == [] || ((steps[0].Write? ==> !Late(s, steps[0].stamp)) && AllTimely(Apply(s, cap, steps[0]), cap, steps[1..]))
  }

  ghost predicate ItemsSafe(s: State) {
    forall x | x in s.items :: ItemSafe(s, x)
  }

  lemma ItemsSafeKept(s: State, cap: nat, step: Step)
    requires Inv(s) && ItemsSafe(s) && Enabled(s, cap, step) && (step.Write? ==> !Late(s, step.stamp))
    ensures ItemsSafe(Apply(s, cap, step))
  {
    forall x | x in Apply(s, cap, step).items ensures ItemSafe(Apply(s, cap, step), x) {
      if WritesTo(step, x) {
        TimelyIsSafe(s, cap, x, step.stamp, step.reportable);
      } else {
        ItemSafeKept(s, cap, step, x);
      }
    }
  }

  lemma {:induction false} ItemsSafeOnRuns(s: State, cap: nat, steps: seq<Step>)
    requires Inv(s) && ItemsSafe(s) && Runs(s, cap, steps) && AllTimely(s, cap, steps)
    ensures ItemsSafe(End(s, cap, steps))
    decreases |steps|
  {
    if steps != [] {
      InvKept(s, cap, steps[0]);
      ItemsSafeKept(s, cap, steps[0]);
      ItemsSafeOnRuns(Apply(s, cap, steps[0]), cap, steps[1..]);
    }
  }

  /** No item is suppressed by an email that was not sent: one whose stamp the watermark has
      passed was listed in an email that was sent, unless that email's LIMIT cut it or it
      was a draft, or not scored yet, when the email was composed. */
  lemma NoItemSuppressed(s0: State, cap: nat, steps: seq<Step>, x: ItemId)
    requires Starts(s0) && Runs(s0, cap, steps) && AllTimely(s0, cap, steps)
    requires var s := End(s0, cap, steps);
             var w := Watermark(s.approvals, s.rows); w.Some? && x in s.items && s.items[x].stamp <= w.value
    ensures var s := End(s0, cap, steps); SentFor(s, x, s.items[x].stamp)
  {
    InvOnRuns(s0, cap, steps);
    ItemsSafeOnRuns(s0, cap, steps);
    SafeIsNotLost(End(s0, cap, steps), x);
  }

  // -------------------------------------------------------- exactly when an item is lost

  /** Emails speak only of items that are there. */
  ghost predicate KnowsItems(s: State, d: Digest) {
    forall x | x in d.listed + d.cut + d.passedOver :: x in s.items
  }

  ghost predicate Known(s: State) {
    && (forall d | d in s.sent :: KnowsItems(s, d))
    && (forall id | id in s.approvals :: KnowsItems(s, s.approvals[id].email))
    && (s.phase.Composed? || s.phase.Queued? ==> KnowsItems(s, s.phase.email))
    && (s.phase.Marked? && s.phase.watermark.Some? ==> s.phase.watermark.value <= s.phase.now)
  }

  lemma KnownKept(s: State, cap: nat, step: Step)
    requires Inv(s) && Known(s) && Enabled(s, cap, step)
    ensures Known(Apply(s, cap, step))
  {
    match step
    case ReadWatermark => ReadKeepsKnown(s, cap);
    case Compose(_, _) => ComposeKeepsKnown(s, cap, step);
    case Queue => QueueKeepsKnown(s, cap);
    case Complete(id) => CompleteKeepsKnown(s, cap, id);
    case _ => RestKeepsKnown(s, cap, step);
  }

  lemma ReadKeepsKnown(s: State, cap: nat)
    requires Inv(s) && Known(s) && Enabled(s, cap, ReadWatermark)
    ensures Known(Apply(s, cap, ReadWatermark))
  {
    WatermarkNotAhead(s);
    SameItems(s, Apply(s, cap, ReadWatermark));
  }

  lemma ComposeKeepsKnown(s: State, cap: nat, step: Step)
    requires Known(s) && step.Compose? && Enabled(s, cap, step)
    ensures Known(Apply(s, cap, step))
  {
    SameItems(s, Apply(s, cap, step));
  }

  lemma QueueKeepsKnown(s: State, cap: nat)
    requires Known(s) && Enabled(s, cap, Queue)
    ensures Known(Apply(s, cap, Queue))
  {
    var s' := Apply(s, cap, Queue);
    SameItems(s, s');
    forall id | id in s'.approvals ensures KnowsItems(s', s'.approvals[id].email) {
      assert s'.approvals[id].email == s.phase.email || (id in s.approvals && s'.approvals[id].email == s.approvals[id].email);
    }
  }

  lemma CompleteKeepsKnown(s: State, cap: nat, id: Id)
    requires Known(s) && Enabled(s, cap, Complete(id))
    ensures Known(Apply(s, cap, Complete(id)))
  {
    SameItems(s, Apply(s, cap, Complete(id)));
  }

  lemma SameItems(s: State, s': State)
    requires s'.items == s.items
    ensures forall d :: KnowsItems(s', d) <==> KnowsItems(s, d)
  {
  }

  lemma MoreItems(s: State, s': State, d: Digest)
    requires KnowsItems(s, d) && forall x | x in s.items :: x in s'.items
    ensures KnowsItems(s', d)
  {
  }

  lemma RestKeepsKnown(s: State, cap: nat, step: Step)
    requires Known(s) && Enabled(s, cap, step)
    requires !step.ReadWatermark? && !step.Compose? && !step.Queue? && !step.Complete?
    ensures Known(Apply(s, cap, step))
  {
    var s' := Apply(s, cap, step);
    ItemsOnlyGrow(s, cap, step);
    EmailsStay(s, cap, step);
    forall d | KnowsItems(s, d) ensures KnowsItems(s', d) {
      MoreItems(s, s', d);
    }
    MarkStays(s, cap, step);
  }

  lemma MarkStays(s: State, cap: nat, step: Step)
    requires Enabled(s, cap, step) && !step.ReadWatermark?
    ensures Apply(s, cap, step).phase.Marked? ==> Apply(s, cap, step).phase == s.phase
  {
  }

  lemma ItemsOnlyGrow(s: State, cap: nat, step: Step)
    requires Enabled(s, cap, step)
    ensures forall x | x in s.items :: x in Apply(s, cap, step).items
  {
  }

  /** Other steps bring no new email. */
  lemma EmailsStay(s: State, cap: nat, step: Step)
    requires Enabled(s, cap, step) && !step.Compose? && !step.Queue? && !step.Complete?
    ensures var s' := Apply(s, cap, step);
            && s'.sent == s.sent
            && (forall id | id in s'.approvals :: id in s.approvals && s'.approvals[id].email == s.approvals[id].email)
            && (s'.phase.Composed? || s'.phase.Queued? ==> (s.phase.Composed? || s.phase.Queued?) && s'.phase.email == s.phase.email)
  {
  }

  lemma WatermarkNotAhead(s: State)
    requires Inv(s)
    ensures var w := Watermark(s.approvals, s.rows); w.Some? ==> w.value <= s.lastRun
  {
    WatermarkIsLatestSent(s.approvals, s.rows);
    var w := Watermark(s.approvals, s.rows);
    if w.Some? {
      var r :| r in s.rows && Counts(s.approvals, r) && r.end == w.value;
      assert RowOk(s, r);
    }
  }

  lemma {:induction false} KnownOnRuns(s: State, cap: nat, steps: seq<Step>)
    requires Inv(s) && Known(s) && Runs(s, cap, steps)
    ensures Known(End(s, cap, steps))
    decreases |steps|
  {
    if steps != [] {
      InvKept(s, cap, steps[0]);
      KnownKept(s, cap, steps[0]);
      KnownOnRuns(Apply(s, cap, steps[0]), cap, steps[1..]);
    }
  }

  /** No email speaks of x. */
  ghost predicate Unmentioned(s: State, x: ItemId) {
    && (forall d | d in s.sent :: !Mentions(d, x))
    && (forall id | id in s.approvals :: !Mentions(s.approvals[id].email, x))
    && (s.phase.Composed? || s.phase.Queued? ==> !Mentions(s.phase.email, x))
  }

  predicate Mentions(d: Digest, x: ItemId) {
    x in d.listed + d.cut + d.passedOver
  }

  lemma NewIsUnmentioned(s: State, cap: nat, x: ItemId, t: Time, reportable: bool)
    requires Known(s) && x !in s.items
    ensures Unmentioned(Apply(s, cap, Write(x, t, reportable)), x)
  {
  }

  /** A continuation that loses x. */
  ghost predicate Loses(s: State, cap: nat, more: seq<Step>, x: ItemId, t: Time) {
    Runs(s, cap, more) && NoWriteTo(more, x) && Lost(End(s, cap, more), x, t)
  }

  lemma OneStepFirst(s: State, cap: nat, step: Step, more: seq<Step>, x: ItemId, t: Time)
    requires Enabled(s, cap, step) && !WritesTo(step, x) && Loses(Apply(s, cap, step), cap, more, x, t)
    ensures Loses(s, cap, [step] + more, x, t)
  {
    Extend(s, cap, step, more);
    var all := [step] + more;
    forall i | 0 <= i < |all| ensures !WritesTo(all[i], x) {
      assert i > 0 ==> all[i] == more[i - 1] && !WritesTo(more[i - 1], x);
    }
  }

  ghost predicate HasRowTo(s: State, id: Id, t: Time) {
    Alive(s, id) && exists r :: r in s.rows && r.approvalId == id && t <= r.end
  }

  /** Once it is sent. */
  lemma SentLoses(s: State, cap: nat, id: Id, x: ItemId, t: Time)
    requires Unmentioned(s, x) && HasRowTo(s, id, t) && s.approvals[id].status.Approved? && s.approvals[id].completed
    ensures Loses(s, cap, [], x, t)
  {
    var r :| r in s.rows && r.approvalId == id && t <= r.end;
    WatermarkIsLatestSent(s.approvals, s.rows);
    assert Counts(s.approvals, r);
  }

  /** Otherwise it can still be approved, claimed and sent. */
  lemma SendingLoses(s: State, cap: nat, id: Id, x: ItemId, t: Time) returns (more: seq<Step>)
    requires Inv(s) && Unmentioned(s, x) && HasRowTo(s, id, t)
    ensures Loses(s, cap, more, x, t)
    decreases StepsToSent(s.approvals[id])
  {
    var a := s.approvals[id];
    if a.completed {
      more := [];
      SentLoses(s, cap, id, x, t);
    } else {
      var step := if a.status.Pending? then Approve(id) else if !a.claimed then Claim(id) else Complete(id);
      InvKept(s, cap, step);
      TowardsSent(s, cap, id, step, x, t);
      var rest := SendingLoses(Apply(s, cap, step), cap, id, x, t);
      OneStepFirst(s, cap, step, rest, x, t);
      more := [step] + rest;
    }
  }

  function StepsToSent(a: Approval): nat {
    if a.completed then 0 else if a.claimed then 1 else if a.status.Approved? then 2 else 3
  }

  lemma TowardsSent(s: State, cap: nat, id: Id, step: Step, x: ItemId, t: Time)
    requires Inv(s) && Unmentioned(s, x) && HasRowTo(s, id, t) && !s.approvals[id].completed
    requires step == (if s.approvals[id].status.Pending? then Approve(id)
                      else if !s.approvals[id].claimed then Claim(id) else Complete(id))
    ensures Enabled(s, cap, step)
    ensures var s' := Apply(s, cap, step);
            Unmentioned(s', x) && HasRowTo(s', id, t) && StepsToSent(s'.approvals[id]) < StepsToSent(s.approvals[id])
  {
    var s' := Apply(s, cap, step);
    assert s'.rows == s.rows && Alive(s', id);
  }

  lemma RecordingLoses(s: State, cap: nat, x: ItemId, t: Time) returns (more: seq<Step>)
    requires Inv(s) && Unmentioned(s, x)
    requires s.phase.Queued? && Alive(s, s.phase.approvalId) && t <= s.phase.email.end
    ensures Loses(s, cap, more, x, t)
  {
    var s', id := Apply(s, cap, Record), s.phase.approvalId;
    InvKept(s, cap, Record);
    NewestRowIs(s.rows, id);
    RecordedIsThere(s.rows, id, s.phase.email);
    var rest := SendingLoses(s', cap, id, x, t);
    OneStepFirst(s, cap, Record, rest, x, t);
    more := [Record] + rest;
  }

  lemma RecordedIsThere(rows: seq<Row>, id: Id, d: Digest)
    ensures Row(id, d.start, d.end) in Recorded(rows, id, d)
  {
    var row := Row(id, d.start, d.end);
    var at := NewestRow(rows, id);
    if at.Some? && at.value < |rows| {
      assert rows[at.value := row][at.value] == row;
    } else {
      assert (rows + [row])[|rows|] == row;
    }
  }

  lemma QueueingLoses(s: State, cap: nat, x: ItemId, t: Time) returns (more: seq<Step>)
    requires Inv(s) && Unmentioned(s, x) && s.phase.Composed? && Reports(s.phase.email) && t <= s.phase.email.end
    ensures Loses(s, cap, more, x, t)
  {
    InvKept(s, cap, Queue);
    WhatNewestPendingIs(s.approvals, s.nextId);
    var rest := RecordingLoses(Apply(s, cap, Queue), cap, x, t);
    OneStepFirst(s, cap, Queue, rest, x, t);
    more := [Queue] + rest;
  }

  /** Some choice within the LIMIT. */
  lemma {:induction false} SomeChoice(eligible: set<ItemId>, cap: nat) returns (chosen: set<ItemId>)
    ensures Limited(chosen, eligible, cap)
  {
    if |eligible| <= cap {
      chosen := eligible;
    } else {
      var y :| y in eligible;
      var fewer := eligible - {y};
      if |fewer| == cap {
        chosen := fewer;
      } else {
        chosen := SomeChoice(fewer, cap);
      }
    }
  }

  lemma ComposingLoses(s: State, cap: nat, x: ItemId, t: Time) returns (more: seq<Step>)
    requires Inv(s) && Known(s) && Unmentioned(s, x) && x in s.items && s.items[x].stamp == t
    requires s.phase.Marked? && s.phase.watermark.Some? && t <= s.phase.watermark.value
    ensures Loses(s, cap, more, x, t)
  {
    var chosen := SomeChoice(Eligible(s.items, s.phase.watermark, s.phase.now), cap);
    InvKept(s, cap, Compose(chosen, true));
    var rest := QueueingLoses(Apply(s, cap, Compose(chosen, true)), cap, x, t);
    OneStepFirst(s, cap, Compose(chosen, true), rest, x, t);
    more := [Compose(chosen, true)] + rest;
  }

  /** Every late write of a new item can be lost. */
  lemma LateCanBeLost(s: State, cap: nat, x: ItemId, t: Time, reportable: bool) returns (more: seq<Step>)
    requires Inv(s) && Known(s) && x !in s.items && Late(s, t)
    ensures Loses(Apply(s, cap, Write(x, t, reportable)), cap, more, x, t)
  {
    var write := Write(x, t, reportable);
    var s' := Apply(s, cap, write);
    InvKept(s, cap, write);
    KnownKept(s, cap, write);
    NewIsUnmentioned(s, cap, x, t, reportable);
    if r :| r in s.rows && RowReaches(s, r, t) {
      assert r in s'.rows && Alive(s', r.approvalId);
      more := SendingLoses(s', cap, r.approvalId, x, t);
    } else if s.phase.Marked? {
      more := ComposingLoses(s', cap, x, t);
    } else if s.phase.Composed? {
      more := QueueingLoses(s', cap, x, t);
    } else {
      more := RecordingLoses(s', cap, x, t);
    }
  }

  /** Exactly when the write of a new item can be lost: in every reachable state, some continuation
      moves the watermark past the item's stamp while no email that was sent accounts for it, if and
      only if the write came too late. */
  lemma LostIffLate(s0: State, cap: nat, steps: seq<Step>, x: ItemId, t: Time, reportable: bool)
    requires Starts(s0) && Runs(s0, cap, steps) && x !in End(s0, cap, steps).items
    ensures var s := End(s0, cap, steps);
            Late(s, t) <==> exists more :: Loses(Apply(s, cap, Write(x, t, reportable)), cap, more, x, t)
  {
    var s := End(s0, cap, steps);
    var s' := Apply(s, cap, Write(x, t, reportable));
    InvOnRuns(s0, cap, steps);
    KnownOnRuns(s0, cap, steps);
    if Late(s, t) {
      var more := LateCanBeLost(s, cap, x, t, reportable);
    } else {
      InvKept(s, cap, Write(x, t, reportable));
      TimelyIsSafe(s, cap, x, t, reportable);
      forall more | Runs(s', cap, more) && NoWriteTo(more, x) ensures !Lost(End(s', cap, more), x, t) {
        SafeOnRuns(s', cap, more, x);
        SafeIsNotLost(End(s', cap, more), x);
      }
    }
  }

  /** Within the cap nothing is cut. */
  lemma NothingCutWithinCap(s: State, cap: nat, chosen: set<ItemId>, elsewhere: bool)
    requires Enabled(s, cap, Compose(chosen, elsewhere))
    requires |Eligible(s.items, s.phase.watermark, s.phase.now)| <= cap
    ensures Apply(s, cap, Compose(chosen, elsewhere)).phase.email.cut == {}
    ensures Apply(s, cap, Compose(chosen, elsewhere)).phase.email.listed == Eligible(s.items, s.phase.watermark, s.phase.now)
  {
  }

  /** An item the watermark has passed is in no later digest, even if it only now became
      reportable: a posting scored after the digest that counted it as unscored never shows
      up as a match, because the query asks when it was discovered. */
  lemma PassedItemNeverListed(s: State, cap: nat, chosen: set<ItemId>, elsewhere: bool, x: ItemId)
    requires Enabled(s, cap, Compose(chosen, elsewhere)) && x in s.items
    requires s.phase.watermark.Some? && s.items[x].stamp <= s.phase.watermark.value
    ensures x !in Apply(s, cap, Compose(chosen, elsewhere)).phase.email.listed
  {
  }

  lemma Extend(s: State, cap: nat, step: Step, rest: seq<Step>)
    requires Enabled(s, cap, step) && Runs(Apply(s, cap, step), cap, rest)
    ensures Runs(s, cap, [step] + rest)
    ensures End(s, cap, [step] + rest) == End(Apply(s, cap, step), cap, rest)
  {
    assert ([step] + rest)[1..] == rest;
  }

  lemma {:induction false} Append(s: State, cap: nat, steps: seq<Step>, more: seq<Step>)
    requires Runs(s, cap, steps) && Runs(End(s, cap, steps), cap, more)
    ensures Runs(s, cap, steps + more) && End(s, cap, steps + more) == End(End(s, cap, steps), cap, more)
    decreases |steps|
  {
    if steps == [] {
      assert steps + more == more;
    } else {
      Append(Apply(s, cap, steps[0]), cap, steps[1..], more);
      assert steps + more == [steps[0]] + (steps[1..] + more);
      Extend(s, cap, steps[0], steps[1..] + more);
    }
  }

  // A run that sends one email, listing item 0, with the clock at 10 throughout.
  const ITEMS: map<ItemId, Item> := map[0 := Item(5, true)]
  const EMAIL := Digest(None, 10, {0}, {}, {}, false)
  const FRESH := State(map[], 0, [], map[], NoRun, 0, 10, {})
  const COMPOSED := State(map[], 0, [], ITEMS, Composed(EMAIL), 10, 10, {})
  const RECORDED := State(map[0 := Approval(Pending, false, false, EMAIL)], 1, [Row(0, None, 10)], ITEMS, NoRun, 10, 10, {})
  const SENT := State(map[0 := Approval(Approved, true, true, EMAIL)], 1, [Row(0, None, 10)], ITEMS, NoRun, 10, 10, {EMAIL})

  lemma ComposesOne(cap: nat) returns (steps: seq<Step>)
    requires cap >= 1
    ensures Runs(FRESH, cap, steps) && End(FRESH, cap, steps) == COMPOSED
  {
    var s1 := Apply(FRESH, cap, Write(0, 5, true));
    var s2 := Apply(s1, cap, Begin);
    var s3 := Apply(s2, cap, ReadWatermark);
    assert Eligible(s3.items, None, 10) == {0} && PassedOver(s3.items, None, 10) == {};
    assert s3.items == ITEMS && {0} - {0} == {};
    assert Apply(s3, cap, Compose({0}, false)) == COMPOSED;
    Extend(s3, cap, Compose({0}, false), []);
    var r3 := [Compose({0}, false)] + [];
    Extend(s2, cap, ReadWatermark, r3);
    var r2 := [ReadWatermark] + r3;
    Extend(s1, cap, Begin, r2);
    var r1 := [Begin] + r2;
    Extend(FRESH, cap, Write(0, 5, true), r1);
    steps := [Write(0, 5, true)] + r1;
  }

  lemma RecordsOne(cap: nat) returns (steps: seq<Step>)
    ensures Runs(COMPOSED, cap, steps) && End(COMPOSED, cap, steps) == RECORDED
  {
    var s1 := Apply(COMPOSED, cap, Queue);
    Extend(s1, cap, Record, []);
    Extend(COMPOSED, cap, Queue, [Record] + []);
    steps := [Queue] + ([Record] + []);
  }

  lemma SendsOne(cap: nat) returns (steps: seq<Step>)
    ensures Runs(RECORDED, cap, steps) && End(RECORDED, cap, steps) == SENT
  {
    var s1 := Apply(RECORDED, cap, Approve(0));
    var s2 := Apply(s1, cap, Claim(0));
    Extend(s2, cap, Complete(0), []);
    var r2 := [Complete(0)] + [];
    Extend(s1, cap, Claim(0), r2);
    var r1 := [Claim(0)] + r2;
    Extend(RECORDED, cap, Approve(0), r1);
    steps := [Approve(0)] + r1;
  }

  /** Without timeliness an item can be lost: one stamped 8 whose write becomes visible only
      after the run that read the clock at 10 had looked. That email is sent, the watermark
      is 10, and no email sent accounts for the item. */
  lemma LateWriteIsLost(cap: nat)
    requires cap >= 1
    ensures exists s0, steps ::
              && Starts(s0) && Runs(s0, cap, steps)
              && var s := End(s0, cap, steps);
                 && Watermark(s.approvals, s.rows) == Some(10)
                 && 1 in s.items && s.items[1] == Item(8, true)
                 && forall d | d in s.sent :: 1 !in d.listed + d.cut + d.passedOver
  {
    var first := ComposesOne(cap);
    var second := RecordsOne(cap);
    var third := SendsOne(cap);
    var late := [Write(1, 8, true)] + [];
    Extend(SENT, cap, Write(1, 8, true), []);
    Append(RECORDED, cap, third, late);
    Append(COMPOSED, cap, second, third + late);
    Append(FRESH, cap, first, second + (third + late));
    var s := End(FRESH, cap, first + (second + (third + late)));
    assert s == Apply(SENT, cap, Write(1, 8, true));
    assert Watermark(s.approvals, s.rows) == Some(10);
  }
}
