/** Carrying out merges of stories and taking them back
    (apps/api/app/services/story_dedup_migration.py).
 */
module StoryUnmerge {
  import opened Shared
  import opened StoryRemediation
  import opened StoryMerge

  /** When a row was archived, and the tick of its merge inside that transaction; a row that does not
      say gets the least tick. */
  datatype Stamp = Stamp(archivedAt: int, mergedAt: int)

  predicate Before(a: Stamp, b: Stamp) {
    a.archivedAt < b.archivedAt || (a.archivedAt == b.archivedAt && a.mergedAt < b.mergedAt)
  }

  /** What an archived row remembers: above all the survivor's content before the merge, if it was
      captured. */
  datatype Note = Note(batch: Batch, stamp: Stamp, before: Option<Content>)

  datatype Entry = Entry(content: Content, contentHash: Option<int>, live: bool, into: Option<StoryId>, note: Note)

  type Table = map<StoryId, Entry>

  datatype Merge = Merge(batch: Batch, stamp: Stamp, survivor: StoryId, duplicate: StoryId, before: Content, merged: Content)

  predicate IsLiveIn(t: Table, id: StoryId) {
    id in t && t[id].live
  }

  /** Both rows are there to be written. */
  predicate Possible(t: Table, m: Merge) {
    IsLiveIn(t, m.survivor) && IsLiveIn(t, m.duplicate) && m.survivor != m.duplicate
  }

  function Rewritten(t: Table, digest: Star -> int, id: StoryId, content: Content): Table
    requires id in t
  {
    t[id := t[id].(content := content, contentHash := Some(digest(content.star)))]
  }

  function Fold(t: Table, digest: Star -> int, m: Merge): Table {
    if !Possible(t, m) then t
    else
      Rewritten(t, digest, m.survivor, m.merged)[m.duplicate :=
        t[m.duplicate].(live := false, into := Some(m.survivor), note := Note(m.batch, m.stamp, Some(m.before)))]
  }

  function Folds(t: Table, digest: Star -> int, ms: seq<Merge>): Table {
    if ms == [] then t else Fold(Folds(t, digest, ms[..|ms| - 1]), digest, ms[|ms| - 1])
  }

  /** Every merge finds its two rows live. */
  predicate AllPossible(t: Table, digest: Star -> int, ms: seq<Merge>) {
    ms != [] ==> AllPossible(t, digest, ms[..|ms| - 1]) && Possible(Folds(t, digest, ms[..|ms| - 1]), ms[|ms| - 1])
  }

  /** and noted the survivor as it was. */
  ghost predicate Sound(t: Table, digest: Star -> int, ms: seq<Merge>) {
    ms != [] ==>
      && Sound(t, digest, ms[..|ms| - 1])
      && var u, m := Folds(t, digest, ms[..|ms| - 1]), ms[|ms| - 1];
         Possible(u, m) && m.before == u[m.survivor].content
  }

  /** The merges of one plan, all in one transaction. */
  function MergesOf(ps: seq<Proposal>, batch: Batch, archivedAt: int, tick: nat -> int): (ms: seq<Merge>)
    ensures |ms| == |ps|
  {
    seq(|ps|, i requires 0 <= i < |ps| =>
      Merge(batch, Stamp(archivedAt, tick(i)), ps[i].survivor, ps[i].duplicate, ps[i].before, ps[i].merged))
  }

  /** Something a restore could put back. */
  predicate Restorable(t: Table, id: StoryId) {
    id in t && !t[id].live && t[id].note.before.Some?
  }

  /** Two archived rows went into one survivor. */
  predicate Siblings(t: Table, id: StoryId, other: StoryId) {
    && id in t && !t[id].live && other in t && !t[other].live
    && other != id && t[id].into.Some? && t[other].into == t[id].into
  }

  /** Its survivor is there to be written. */
  predicate HasSurvivor(t: Table, id: StoryId) {
    id in t && t[id].into.Some? && t[id].into.value in t
  }

  /** Another row went into the same survivor at the same moment or later, and stays. */
  predicate Blocks(t: Table, restoring: seq<StoryId>, id: StoryId, other: StoryId) {
    && Siblings(t, id, other) && other !in restoring
    && !Before(t[other].note.stamp, t[id].note.stamp)
  }

  predicate IsBlocked(t: Table, restoring: seq<StoryId>, id: StoryId) {
    exists other | other in t :: Blocks(t, restoring, id, other)
  }

  /** The survivor goes back to its noted content and the row is live again. */
  function Unfold(t: Table, digest: Star -> int, id: StoryId): Table {
    if !Restorable(t, id) || !HasSurvivor(t, id) then t
    else
      var u := Rewritten(t, digest, t[id].into.value, Normal(t[id].note.before.value));
      u[id := u[id].(live := true, into := None)]
  }

  function Unfolds(t: Table, digest: Star -> int, plan: seq<StoryId>): Table {
    if plan == [] then t else Unfold(Unfolds(t, digest, plan[..|plan| - 1]), digest, plan[|plan| - 1])
  }

  predicate NewestFirst(t: Table, plan: seq<StoryId>) {
    && (forall id | id in plan :: Restorable(t, id))
    && (forall i, j | 0 <= i < j < |plan| :: Later(t, plan[i], plan[j]))
  }

  predicate Later(t: Table, id: StoryId, other: StoryId) {
    && Restorable(t, id) && Restorable(t, other)
    && !Before(t[id].note.stamp, t[other].note.stamp)
  }

  /** `sorted(…, reverse=True)`: stable, newest merge first. */
  function Sorted(t: Table, ids: seq<StoryId>): (plan: seq<StoryId>)
    requires forall id | id in ids :: Restorable(t, id)
    ensures NewestFirst(t, plan)
    ensures |plan| == |ids| && forall id :: id in plan <==> id in ids
  {
    if ids == [] then []
    else
      assert forall id :: id in ids <==> id in ids[..|ids| - 1] || id == ids[|ids| - 1];
      Inserted(t, Sorted(t, ids[..|ids| - 1]), ids[|ids| - 1])
  }

  function Inserted(t: Table, plan: seq<StoryId>, id: StoryId): (r: seq<StoryId>)
    requires NewestFirst(t, plan) && Restorable(t, id)
    ensures NewestFirst(t, r)
    ensures |r| == |plan| + 1 && forall other :: other in r <==> other in plan || other == id
  {
    if plan == [] then [id]
    else
      var n := |plan| - 1;
      assert forall other :: other in plan <==> other in plan[..n] || other == plan[n];
      if Later(t, plan[n], id) then plan + [id]
      else
        var front := Inserted(t, plan[..n], id);
        assert forall i | 0 <= i < |front| :: front[i] in front;
        assert forall i | 0 <= i < n :: Later(t, plan[i], plan[n]);
        assert forall other | other in front :: Later(t, other, plan[n]);
        front + [plan[n]]
  }

  datatype MergeOutcome = MergedAll(merged: nat) | MergeAborted

  datatype RestoreOutcome =
    | Restored(restored: nat, unrestorable: seq<StoryId>)
    | Refused(blocked: seq<StoryId>)
    | RestoreAborted

  class StoryTable {
    var table: Table

    constructor (table: Table)
      ensures this.table == table
    {
      this.table := table;
    }

    /** The writing half of merge_duplicate_stories: one transaction, rolled back when a row is
        not there to be written. */
    method MergeAll(digest: Star -> int, proposals: seq<Proposal>, batch: Batch, archivedAt: int, tick: nat -> int)
      returns (r: MergeOutcome)
      requires forall p | p in proposals :: p.survivor != p.duplicate
      modifies this
      ensures var ms := MergesOf(proposals, batch, archivedAt, tick);
              && (r.MergedAll? <==> AllPossible(old(table), digest, ms))
              && (r.MergedAll? ==> r.merged == |proposals| && table == Folds(old(table), digest, ms))
      ensures r.MergeAborted? ==> table == old(table)
    {
      var t := table;
      ghost var ms := MergesOf(proposals, batch, archivedAt, tick);
      for i := 0 to |proposals|
        invariant table == old(table)
        invariant t == Folds(old(table), digest, ms[..i]) && AllPossible(old(table), digest, ms[..i])
      {
        var p := proposals[i];
        var m := Merge(batch, Stamp(archivedAt, tick(i)), p.survivor, p.duplicate, p.before, p.merged);
        assert ms[..i + 1][..i] == ms[..i] && ms[i] == m;
        if !IsLiveIn(t, p.survivor) {
          ImpossibleStays(table, digest, ms, i);
          return MergeAborted;
        }
        if !IsLiveIn(t, p.duplicate) {
          ImpossibleStays(table, digest, ms, i);
          return MergeAborted;
        }
        t := Fold(t, digest, m);
      }
      assert ms[..|proposals|] == ms;
      table := t;
      r := MergedAll(|proposals|);
    }

    /** restore_merged_stories of the selected archived rows; nothing is written if any of them
        is blocked or has no survivor to write. */
    method RestoreMerged(digest: Star -> int, selected: seq<StoryId>) returns (r: RestoreOutcome)
      requires forall id | id in selected :: id in table && !table[id].live
      requires forall i, j | 0 <= i < j < |selected| :: selected[i] != selected[j]
      modifies this
      ensures r.Refused? <==> exists id :: id in selected && Restorable(old(table), id)
                                          && IsBlocked(old(table), RestorableOf(old(table), selected), id)
      ensures r.Refused? ==> forall id :: id in r.blocked <==>
        (id in selected && Restorable(old(table), id) && IsBlocked(old(table), RestorableOf(old(table), selected), id))
      ensures !r.Restored? ==> table == old(table)
      ensures r.Restored? ==>
        && table == Unfolds(old(table), digest, Sorted(old(table), RestorableOf(old(table), selected)))
        && r.restored == |RestorableOf(old(table), selected)|
        && forall id :: id in r.unrestorable <==> id in selected && !Restorable(old(table), id)
      ensures r.RestoreAborted? <==>
        !r.Refused? && exists id :: id in selected && Restorable(old(table), id) && !HasSurvivor(old(table), id)
    {
      var restoring, unrestorable := Partition(selected);
      var ordered := Sorted(table, restoring);
      var blocked := BlockedAmong(ordered, restoring);
      if blocked != [] {
        assert blocked[0] in blocked;
        return Refused(blocked);
      }
      var done := UndoAll(digest, ordered);
      r := if done then Restored(|ordered|, unrestorable) else RestoreAborted;
    }

    /** Pass 1: which rows have something to restore. */
    method Partition(selected: seq<StoryId>) returns (restoring: seq<StoryId>, unrestorable: seq<StoryId>)
      ensures restoring == RestorableOf(table, selected)
      ensures forall id :: id in unrestorable <==> id in selected && !Restorable(table, id)
    {
      restoring, unrestorable := [], [];
      for i := 0 to |selected|
        invariant restoring == RestorableOf(table, selected[..i])
        invariant forall id :: id in unrestorable <==> id in selected[..i] && !Restorable(table, id)
      {
        assert selected[..i + 1][..i] == selected[..i];
        if Restorable(table, selected[i]) {
          restoring := restoring + [selected[i]];
        } else {
          unrestorable := unrestorable + [selected[i]];
        }
      }
      assert selected[..|selected|] == selected;
    }

    /** Pass 2: which of them are blocked. */
    method BlockedAmong(ordered: seq<StoryId>, restoring: seq<StoryId>) returns (blocked: seq<StoryId>)
      ensures forall id :: id in blocked <==> id in ordered && IsBlocked(table, restoring, id)
    {
      blocked := [];
      for i := 0 to |ordered|
        invariant forall id :: id in blocked <==> id in ordered[..i] && IsBlocked(table, restoring, id)
      {
        if IsBlocked(table, restoring, ordered[i]) {
          blocked := blocked + [ordered[i]];
        }
      }
      assert ordered[..|ordered|] == ordered;
    }

    /** The transaction: all rows in the given order, or none when a survivor is gone. */
    method UndoAll(digest: Star -> int, ordered: seq<StoryId>) returns (done: bool)
      requires forall id | id in ordered :: Restorable(table, id)
      modifies this
      ensures table == if done then Unfolds(old(table), digest, ordered) else old(table)
      ensures done <==> forall id | id in ordered :: HasSurvivor(old(table), id)
    {
      var t := table;
      for i := 0 to |ordered|
        invariant table == old(table) && t == Unfolds(table, digest, ordered[..i])
        invariant forall j | 0 <= j < i :: HasSurvivor(table, ordered[j])
      {
        assert ordered[..i + 1][..i] == ordered[..i];
        var id := ordered[i];
        assert id in ordered;
        UnfoldsKeepRows(table, digest, ordered[..i]);
        if table[id].into.None? || table[id].into.value !in t {
          return false;
        }
        t := Unfold(t, digest, id);
      }
      assert ordered[..|ordered|] == ordered;
      table := t;
      return true;
    }
  }

  function RestorableOf(t: Table, ids: seq<StoryId>): (r: seq<StoryId>)
    ensures forall id :: id in r <==> id in ids && Restorable(t, id)
  {
    if ids == [] then []
    else
      assert forall id :: id in ids <==> id in ids[..|ids| - 1] || id == ids[|ids| - 1];
      RestorableOf(t, ids[..|ids| - 1]) + if Restorable(t, ids[|ids| - 1]) then [ids[|ids| - 1]] else []
  }

  lemma {:induction false} ImpossibleStays(t: Table, digest: Star -> int, ms: seq<Merge>, i: nat)
    requires i < |ms| && !Possible(Folds(t, digest, ms[..i]), ms[i])
    ensures !AllPossible(t, digest, ms)
  {
    if i + 1 < |ms| {
      var n := |ms| - 1;
      assert ms[..n][..i] == ms[..i] && ms[..n][i] == ms[i];
      ImpossibleStays(t, digest, ms[..n], i);
    }
  }

  lemma {:induction false} UnfoldsKeepRows(t: Table, digest: Star -> int, plan: seq<StoryId>)
    ensures Unfolds(t, digest, plan).Keys == t.Keys
  {
    if plan != [] {
      UnfoldsKeepRows(t, digest, plan[..|plan| - 1]);
    }
  }
}
