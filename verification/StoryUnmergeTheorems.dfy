/** Restoring is as if the restored merges had never happened. */
module StoryUnmergeTheorems {
  import opened Shared
  import opened StoryRemediation
  import opened StoryMerge
  import opened StoryUnmerge

  // ------------------------------------------------------------- after a run of merges

  ghost predicate InOrder(ms: seq<Merge>) {
    forall i, j | 0 <= i < j < |ms| :: Before(ms[i].stamp, ms[j].stamp)
  }

  /** No merge has been carried out yet. */
  ghost predicate NothingFolded(t: Table) {
    forall id | id in t :: t[id].into.None? && !Restorable(t, id)
  }

  predicate FoldedBy(e: Entry, m: Merge) {
    !e.live && e.into == Some(m.survivor) && e.note == Note(m.batch, m.stamp, Some(m.before))
  }

  predicate Duplicates(ms: seq<Merge>, id: StoryId) {
    exists k :: 0 <= k < |ms| && ms[k].duplicate == id
  }

  /** The archived rows that went into another are those of the merges, once each. */
  ghost predicate FoldedExactly(t: Table, u: Table, ms: seq<Merge>) {
    && u.Keys == t.Keys
    && (forall k | 0 <= k < |ms| :: FoldedIn(u, ms[k]))
    && (forall i, j | 0 <= i < j < |ms| :: ms[i].duplicate != ms[j].duplicate)
    && (forall id | id in u && (u[id].into.Some? || Restorable(u, id)) :: Duplicates(ms, id) && !u[id].live)
  }

  predicate FoldedIn(u: Table, m: Merge) {
    m.duplicate in u && m.survivor in u && FoldedBy(u[m.duplicate], m)
  }

  lemma {:induction false} FoldedRows(t: Table, digest: Star -> int, ms: seq<Merge>)
    requires NothingFolded(t) && Sound(t, digest, ms)
    ensures FoldedExactly(t, Folds(t, digest, ms), ms)
  {
    if ms != [] {
      FoldedRows(t, digest, ms[..|ms| - 1]);
      FoldedOneMore(t, Folds(t, digest, ms[..|ms| - 1]), digest, ms);
    }
  }

  lemma FoldedOneMore(t: Table, u: Table, digest: Star -> int, ms: seq<Merge>)
    requires ms != [] && FoldedExactly(t, u, ms[..|ms| - 1]) && Possible(u, ms[|ms| - 1])
    ensures FoldedExactly(t, Fold(u, digest, ms[|ms| - 1]), ms)
  {
    var n := |ms| - 1;
    var v := Fold(u, digest, ms[n]);
    forall k | 0 <= k < n ensures FoldedIn(v, ms[k]) && ms[k].duplicate != ms[n].duplicate {
      assert FoldedIn(u, ms[..n][k]);
    }
    forall id | id in v && (v[id].into.Some? || Restorable(v, id)) ensures Duplicates(ms, id) && !v[id].live {
      if id != ms[n].duplicate {
        assert Duplicates(ms[..n], id);
        var k :| 0 <= k < n && ms[..n][k].duplicate == id;
        assert ms[k].duplicate == id;
      } else {
        assert ms[n].duplicate == id;
      }
    }
  }

  // ----------------------------------------------------------------- taking one back

  /** The tables with and without one merge into s of d. */
  ghost predicate OneApart(x: Table, y: Table, m: Merge) {
    && x.Keys == y.Keys && m.survivor in x && m.duplicate in x && m.survivor != m.duplicate
    && (forall id | id in x && id != m.survivor && id != m.duplicate :: x[id] == y[id])
    && y[m.survivor].content == m.before
    && x[m.survivor].(content := m.before, contentHash := None) == y[m.survivor].(contentHash := None)
    && FoldedBy(x[m.duplicate], m)
    && y[m.duplicate].live && y[m.duplicate].into.None?
    && x[m.duplicate].content == y[m.duplicate].content
  }

  function Omit(ms: seq<Merge>, k: nat): seq<Merge>
    requires k < |ms|
  {
    ms[..k] + ms[k + 1..]
  }

  lemma OneApartKept(x: Table, y: Table, digest: Star -> int, k: Merge, m: Merge)
    requires OneApart(x, y, k) && m.survivor != k.survivor && Possible(x, m) && m.before == x[m.survivor].content
    ensures Possible(y, m) && m.before == y[m.survivor].content
    ensures OneApart(Fold(x, digest, m), Fold(y, digest, m), k)
  {
  }

  lemma OneFolded(y: Table, digest: Star -> int, m: Merge)
    requires Possible(y, m) && m.before == y[m.survivor].content && y[m.duplicate].into.None?
    ensures OneApart(Fold(y, digest, m), y, m)
  {
  }

  lemma {:induction false} WithoutOne(t: Table, digest: Star -> int, ms: seq<Merge>, k: nat)
    requires NothingFolded(t) && Sound(t, digest, ms) && k < |ms|
    requires forall j | k < j < |ms| :: ms[j].survivor != ms[k].survivor
    ensures Sound(t, digest, Omit(ms, k))
    ensures OneApart(Folds(t, digest, ms), Folds(t, digest, Omit(ms, k)), ms[k])
  {
    var n := |ms| - 1;
    OmitSnoc(ms, k);
    if k == n {
      FoldedRows(t, digest, ms[..n]);
      OneFolded(Folds(t, digest, ms[..n]), digest, ms[n]);
    } else {
      WithoutOne(t, digest, ms[..n], k);
      var fewer := Omit(ms[..n], k);
      OneApartKept(Folds(t, digest, ms[..n]), Folds(t, digest, fewer), digest, ms[k], ms[n]);
      OneMoreFold(t, digest, fewer, ms[n]);
    }
  }

  lemma OmitSnoc(ms: seq<Merge>, k: nat)
    requires k < |ms|
    ensures Omit(ms, k) == if k == |ms| - 1 then ms[..k] else Omit(ms[..|ms| - 1], k) + [ms[|ms| - 1]]
  {
  }

  lemma OneMoreFold(t: Table, digest: Star -> int, ms: seq<Merge>, m: Merge)
    ensures Folds(t, digest, ms + [m]) == Fold(Folds(t, digest, ms), digest, m)
    ensures Sound(t, digest, ms) && Possible(Folds(t, digest, ms), m) && m.before == Folds(t, digest, ms)[m.survivor].content
        ==> Sound(t, digest, ms + [m])
  {
    assert (ms + [m])[..|ms|] == ms;
  }

  /** The same rows: text, metrics and tags (no metrics or tags being as good as empty ones),
      liveness, what they went into, and what archived ones remember. */
  ghost predicate Same(x: Table, y: Table) {
    x.Keys == y.Keys && forall id | id in x :: SameEntry(x[id], y[id])
  }

  ghost predicate SameEntry(a: Entry, b: Entry) {
    Normal(a.content) == Normal(b.content) && a.live == b.live && a.into == b.into && (!a.live ==> a.note == b.note)
  }

  lemma UnfoldOne(x: Table, y: Table, digest: Star -> int, m: Merge)
    requires OneApart(x, y, m)
    ensures Same(Unfold(x, digest, m.duplicate), y)
  {
  }

  lemma {:induction false} SameUnfolds(x: Table, y: Table, digest: Star -> int, plan: seq<StoryId>)
    requires Same(x, y)
    ensures Same(Unfolds(x, digest, plan), Unfolds(y, digest, plan))
  {
    if plan != [] {
      SameUnfolds(x, y, digest, plan[..|plan| - 1]);
    }
  }

  // --------------------------------------------------------------------- the theorem

  /** The merges whose duplicate is not among the given rows. */
  ghost function Others(ms: seq<Merge>, ids: seq<StoryId>): seq<Merge> {
    if ms == [] then []
    else Others(ms[..|ms| - 1], ids) + if ms[|ms| - 1].duplicate in ids then [] else [ms[|ms| - 1]]
  }

  ghost predicate NoneBlocked(t: Table, plan: seq<StoryId>) {
    forall id | id in plan :: !IsBlocked(t, plan, id)
  }

  /** Nothing went later into the survivor of the newest row to be restored. */
  lemma NewestIsLast(t: Table, digest: Star -> int, ms: seq<Merge>, plan: seq<StoryId>, k: nat)
    requires NothingFolded(t) && Sound(t, digest, ms) && InOrder(ms)
    requires plan != [] && NewestFirst(Folds(t, digest, ms), plan) && NoneBlocked(Folds(t, digest, ms), plan)
    requires k < |ms| && ms[k].duplicate == plan[0]
    ensures forall j | k < j < |ms| :: ms[j].survivor != ms[k].survivor
  {
    var u := Folds(t, digest, ms);
    FoldedRows(t, digest, ms);
    forall id | id in plan ensures id == plan[0] || Later(u, plan[0], id) {
      var i :| 0 <= i < |plan| && plan[i] == id;
    }
    forall j | k < j < |ms| ensures ms[j].survivor != ms[k].survivor {
      var other := ms[j].duplicate;
      assert Before(ms[k].stamp, ms[j].stamp);
      assert FoldedIn(u, ms[k]) && FoldedIn(u, ms[j]) && other != plan[0];
      assert plan[0] in plan && !Blocks(u, plan, plan[0], other);
    }
  }

  lemma {:induction false} UnfoldsFirst(t: Table, digest: Star -> int, plan: seq<StoryId>)
    requires plan != []
    ensures Unfolds(t, digest, plan) == Unfolds(Unfold(t, digest, plan[0]), digest, plan[1..])
  {
    var n := |plan| - 1;
    if n > 0 {
      UnfoldsFirst(t, digest, plan[..n]);
      assert plan[..n][1..] == plan[1..][..n - 1];
    } else {
      assert plan[..0] == [] && plan[1..] == [];
    }
  }

  lemma {:induction false} OthersOmit(ms: seq<Merge>, k: nat, plan: seq<StoryId>)
    requires k < |ms| && plan != [] && ms[k].duplicate == plan[0]
    requires forall i | 0 <= i < |ms| && i != k :: ms[i].duplicate != plan[0]
    ensures Others(Omit(ms, k), plan[1..]) == Others(ms, plan)
  {
    var n := |ms| - 1;
    assert forall id :: id in plan <==> id == plan[0] || id in plan[1..];
    if k == n {
      assert Omit(ms, k) == ms[..n];
      OthersSame(ms[..n], plan);
    } else {
      assert Omit(ms, k)[..n - 1] == Omit(ms[..n], k) && Omit(ms, k)[n - 1] == ms[n];
      OthersOmit(ms[..n], k, plan);
    }
  }

  lemma {:induction false} OthersSame(ms: seq<Merge>, plan: seq<StoryId>)
    requires plan != [] && forall i | 0 <= i < |ms| :: ms[i].duplicate != plan[0]
    ensures Others(ms, plan[1..]) == Others(ms, plan)
  {
    if ms != [] {
      assert forall id :: id in plan <==> id == plan[0] || id in plan[1..];
      OthersSame(ms[..|ms| - 1], plan);
    }
  }

  lemma {:induction false} NoOthers(ms: seq<Merge>)
    ensures Others(ms, []) == ms
  {
    if ms != [] {
      NoOthers(ms[..|ms| - 1]);
    }
  }

  lemma DuplicateOf(t: Table, digest: Star -> int, ms: seq<Merge>, id: StoryId) returns (k: nat)
    requires NothingFolded(t) && Sound(t, digest, ms) && Restorable(Folds(t, digest, ms), id)
    ensures k < |ms| && ms[k].duplicate == id
    ensures forall i | 0 <= i < |ms| && i != k :: ms[i].duplicate != id
  {
    FoldedRows(t, digest, ms);
    assert Duplicates(ms, id);
    k :| 0 <= k < |ms| && ms[k].duplicate == id;
  }

  /** What holds of a plan still holds of its rest once its first row is back. */
  lemma RestStillFits(x: Table, y: Table, m: Merge, plan: seq<StoryId>)
    requires OneApart(x, y, m) && plan != [] && plan[0] == m.duplicate
    requires NewestFirst(x, plan) && NoneBlocked(x, plan)
    requires forall i | 0 < i < |plan| :: plan[i] != plan[0]
    ensures NewestFirst(y, plan[1..]) && NoneBlocked(y, plan[1..])
  {
    var rest := plan[1..];
    assert forall id :: id in plan <==> id == plan[0] || id in rest;
    forall id | id in rest ensures Restorable(y, id) && y[id].into == x[id].into && y[id].note == x[id].note {
      assert id in plan && id != plan[0];
    }
    forall i, j | 0 <= i < j < |rest| ensures Later(y, rest[i], rest[j]) {
      assert Later(x, plan[i + 1], plan[j + 1]);
      assert rest[i] in rest && rest[j] in rest;
    }
    forall id, other | id in rest && other in y ensures !Blocks(y, rest, id, other) {
      assert id in plan && other in x;
      assert !Blocks(x, plan, id, other);
    }
  }

  /** Restoring any selection of archived rows that the code does not refuse leaves the table as
      if those merges had never been made and all the others had. */
  lemma {:induction false} RestoreIsReplay(t: Table, digest: Star -> int, ms: seq<Merge>, plan: seq<StoryId>)
    requires NothingFolded(t) && Sound(t, digest, ms) && InOrder(ms)
    requires NewestFirst(Folds(t, digest, ms), plan) && NoneBlocked(Folds(t, digest, ms), plan)
    requires forall i, j | 0 <= i < j < |plan| :: plan[i] != plan[j]
    ensures Same(Unfolds(Folds(t, digest, ms), digest, plan), Folds(t, digest, Others(ms, plan)))
    decreases |plan|
  {
    if plan == [] {
      NoOthers(ms);
    } else {
      assert plan[0] in plan;
      var k := DuplicateOf(t, digest, ms, plan[0]);
      NewestIsLast(t, digest, ms, plan, k);
      WithoutOne(t, digest, ms, k);
      var x, y := Folds(t, digest, ms), Folds(t, digest, Omit(ms, k));
      RestStillFits(x, y, ms[k], plan);
      OmitInOrder(ms, k);
      RestoreIsReplay(t, digest, Omit(ms, k), plan[1..]);
      FirstThenRest(x, y, digest, ms[k], plan);
      OthersOmit(ms, k, plan);
      SameTrans(Unfolds(x, digest, plan), Unfolds(y, digest, plan[1..]), Folds(t, digest, Others(ms, plan)));
    }
  }

  lemma OmitInOrder(ms: seq<Merge>, k: nat)
    requires InOrder(ms) && k < |ms|
    ensures InOrder(Omit(ms, k))
  {
  }

  lemma FirstThenRest(x: Table, y: Table, digest: Star -> int, m: Merge, plan: seq<StoryId>)
    requires OneApart(x, y, m) && plan != [] && plan[0] == m.duplicate
    ensures Same(Unfolds(x, digest, plan), Unfolds(y, digest, plan[1..]))
  {
    UnfoldOne(x, y, digest, m);
    SameUnfolds(Unfold(x, digest, plan[0]), y, digest, plan[1..]);
    UnfoldsFirst(x, digest, plan);
  }

  lemma SameTrans(x: Table, y: Table, z: Table)
    requires Same(x, y) && Same(y, z)
    ensures Same(x, z)
  {
  }

  lemma {:induction false} NoneLeft(ms: seq<Merge>, ids: seq<StoryId>)
    requires forall k | 0 <= k < |ms| :: ms[k].duplicate in ids
    ensures Others(ms, ids) == []
  {
    if ms != [] {
      NoneLeft(ms[..|ms| - 1], ids);
    }
  }

  /** Restoring everything gives back the table from before the first merge. */
  lemma RestoringAllUndoesAll(t: Table, digest: Star -> int, ms: seq<Merge>, plan: seq<StoryId>)
    requires NothingFolded(t) && Sound(t, digest, ms) && InOrder(ms)
    requires NewestFirst(Folds(t, digest, ms), plan) && forall i, j | 0 <= i < j < |plan| :: plan[i] != plan[j]
    requires forall k | 0 <= k < |ms| :: ms[k].duplicate in plan
    ensures NoneBlocked(Folds(t, digest, ms), plan)
    ensures Same(Unfolds(Folds(t, digest, ms), digest, plan), t)
  {
    var u := Folds(t, digest, ms);
    FoldedRows(t, digest, ms);
    forall id, other | id in plan && other in u ensures !Blocks(u, plan, id, other) {
      if u[other].into.Some? {
        var k :| 0 <= k < |ms| && ms[k].duplicate == other;
      }
    }
    RestoreIsReplay(t, digest, ms, plan);
    NoneLeft(ms, plan);
  }

  lemma {:induction false} LastWordingStands(t: Table, digest: Star -> int, ms: seq<Merge>, j: nat)
    requires Sound(t, digest, ms) && j < |ms|
    requires forall i | j < i < |ms| :: ms[i].survivor != ms[j].survivor
    ensures var u := Folds(t, digest, ms); ms[j].survivor in u && u[ms[j].survivor].content == ms[j].merged
  {
    if j < |ms| - 1 {
      LastWordingStands(t, digest, ms[..|ms| - 1], j);
    }
  }

  /** What the refusal prevents: bringing back only an earlier row takes the last wording off the
      survivor while the row it came from stays archived. */
  lemma BlockedRestoreWouldForget(t: Table, digest: Star -> int, ms: seq<Merge>, k: nat, j: nat)
    requires NothingFolded(t) && Sound(t, digest, ms) && InOrder(ms) && k < j < |ms| && ms[k].survivor == ms[j].survivor
    requires forall i | j < i < |ms| :: ms[i].survivor != ms[j].survivor
    ensures var u, s, d := Folds(t, digest, ms), ms[j].survivor, ms[k].duplicate;
            && Restorable(u, d) && IsBlocked(u, [d], d)
            && s in u && u[s].content == ms[j].merged
            && var v := Unfold(u, digest, d);
               v[s].content == Normal(ms[k].before) && ms[j].duplicate in v && !v[ms[j].duplicate].live
  {
    var u, d := Folds(t, digest, ms), ms[k].duplicate;
    FoldedRows(t, digest, ms);
    LastWordingStands(t, digest, ms, j);
    NeverItsOwn(t, digest, ms, k);
    assert FoldedIn(u, ms[k]) && FoldedIn(u, ms[j]);
    UnfoldForgets(u, digest, ms[k], ms[j]);
    assert Before(ms[k].stamp, ms[j].stamp);
    assert Blocks(u, [d], d, ms[j].duplicate);
  }

  lemma UnfoldForgets(u: Table, digest: Star -> int, m: Merge, later: Merge)
    requires FoldedIn(u, m) && FoldedIn(u, later) && m.survivor != m.duplicate && later.duplicate != m.duplicate
    ensures var v := Unfold(u, digest, m.duplicate);
            m.survivor in v && v[m.survivor].content == Normal(m.before) && later.duplicate in v && !v[later.duplicate].live
  {
  }

  lemma {:induction false} NeverItsOwn(t: Table, digest: Star -> int, ms: seq<Merge>, k: nat)
    requires Sound(t, digest, ms) && k < |ms|
    ensures ms[k].survivor != ms[k].duplicate
  {
    if k < |ms| - 1 {
      NeverItsOwn(t, digest, ms[..|ms| - 1], k);
    }
  }

  // ------------------------------------------------------- carrying out a fresh plan

  ghost predicate RowsIn(rows: seq<Row>, t: Table) {
    forall i | 0 <= i < |rows| :: RowIn(rows[i], t)
  }

  predicate RowIn(row: Row, t: Table) {
    IsLiveIn(t, row.id) && t[row.id].content == row.content
  }

  /** Every live row, once, as it is. */
  ghost predicate ListsLive(rows: seq<Row>, t: Table) {
    DistinctIds(rows) && RowsIn(rows, t) && forall id | IsLiveIn(t, id) :: Has(rows, id)
  }

  /** What carrying out part of a plan has made of the table. */
  ghost predicate Carried(t: Table, u: Table, rows: seq<Row>, kept: seq<Row>) {
    && u.Keys == t.Keys
    && RowsIn(kept, u)
    && (forall id | id in t && !Has(rows, id) :: u[id] == t[id])
    && (forall id | Has(rows, id) && IsLiveIn(u, id) :: Has(kept, id))
  }

  function NextMerge(s: Row, row: Row, n: nat, batch: Batch, archivedAt: int, tick: nat -> int): Merge {
    Merge(batch, Stamp(archivedAt, tick(n)), s.id, row.id, s.content, Merged(s.content, row.content))
  }

  /** A plan made from the listed rows can be carried out, and leaves the rows it keeps. */
  lemma {:induction false} PlanRuns(t: Table, digest: Star -> int, rows: seq<Row>, like: Likeness, batch: Batch,
                                    archivedAt: int, tick: nat -> int)
    requires DistinctIds(rows) && RowsIn(rows, t)
    ensures var p := Planned(rows, like);
            var ms := MergesOf(p.proposals, batch, archivedAt, tick);
            Sound(t, digest, ms) && Carried(t, Folds(t, digest, ms), rows, p.kept)
  {
    if rows == [] {
      assert MergesOf([], batch, archivedAt, tick) == [];
    } else {
      var n := |rows| - 1;
      PlanRuns(t, digest, rows[..n], like, batch, archivedAt, tick);
      PlanIsWellFormed(rows[..n], like);
      OneMoreRow(t, digest, rows, Planned(rows[..n], like), like, batch, archivedAt, tick);
    }
  }

  lemma OneMoreRow(t: Table, digest: Star -> int, rows: seq<Row>, p: Planning, like: Likeness, batch: Batch,
                   archivedAt: int, tick: nat -> int)
    requires rows != [] && DistinctIds(rows) && RowIn(rows[|rows| - 1], t) && WellPlanned(rows[..|rows| - 1], p)
    requires var ms := MergesOf(p.proposals, batch, archivedAt, tick);
             Sound(t, digest, ms) && Carried(t, Folds(t, digest, ms), rows[..|rows| - 1], p.kept)
    ensures var q := Folded(p, rows[|rows| - 1], like);
            var ms := MergesOf(q.proposals, batch, archivedAt, tick);
            Sound(t, digest, ms) && Carried(t, Folds(t, digest, ms), rows, q.kept)
  {
    var n := |rows| - 1;
    var row := rows[n];
    assert !Has(rows[..n], row.id);
    forall id ensures Has(rows, id) <==> Has(rows[..n], id) || id == row.id {
      HasSnoc(rows, id);
    }
    KeptAreNot(rows, p.kept, row.id);
    var i := FirstLike(p.kept, row.content.star, like);
    if i == |p.kept| {
      Appended(t, Folds(t, digest, MergesOf(p.proposals, batch, archivedAt, tick)), rows, p.kept);
    } else {
      OneMoreProposal(t, digest, rows, p, i, batch, archivedAt, tick);
    }
  }

  lemma OneMoreProposal(t: Table, digest: Star -> int, rows: seq<Row>, p: Planning, i: nat, batch: Batch, archivedAt: int,
                        tick: nat -> int)
    requires rows != [] && RowIn(rows[|rows| - 1], t) && WellPlanned(rows[..|rows| - 1], p) && i < |p.kept|
    requires !Has(rows[..|rows| - 1], rows[|rows| - 1].id) && !Has(p.kept, rows[|rows| - 1].id)
    requires forall id :: Has(rows, id) <==> Has(rows[..|rows| - 1], id) || id == rows[|rows| - 1].id
    requires var ms := MergesOf(p.proposals, batch, archivedAt, tick);
             Sound(t, digest, ms) && Carried(t, Folds(t, digest, ms), rows[..|rows| - 1], p.kept)
    ensures var row, s := rows[|rows| - 1], p.kept[i];
            var merged := Merged(s.content, row.content);
            var ms := MergesOf(p.proposals + [Proposal(s.id, row.id, s.content, merged)], batch, archivedAt, tick);
            Sound(t, digest, ms) && Carried(t, Folds(t, digest, ms), rows, p.kept[i := Row(s.id, merged)])
  {
    var row, ms := rows[|rows| - 1], MergesOf(p.proposals, batch, archivedAt, tick);
    var m := NextMerge(p.kept[i], row, |p.proposals|, batch, archivedAt, tick);
    FoldedIntoKept(t, Folds(t, digest, ms), digest, rows, p.kept, i, m);
    OneMoreFold(t, digest, ms, m);
    NextMergeOf(p.proposals, Proposal(p.kept[i].id, row.id, p.kept[i].content, m.merged), batch, archivedAt, tick);
  }

  lemma NextMergeOf(ps: seq<Proposal>, p: Proposal, batch: Batch, archivedAt: int, tick: nat -> int)
    ensures MergesOf(ps + [p], batch, archivedAt, tick)
         == MergesOf(ps, batch, archivedAt, tick)
            + [Merge(batch, Stamp(archivedAt, tick(|ps|)), p.survivor, p.duplicate, p.before, p.merged)]
  {
  }

  lemma KeptAreNot(rows: seq<Row>, kept: seq<Row>, id: StoryId)
    requires rows != [] && !Has(rows[..|rows| - 1], id)
    requires forall i | 0 <= i < |kept| :: Has(rows[..|rows| - 1], kept[i].id)
    ensures !Has(kept, id)
  {
  }

  lemma Appended(t: Table, u: Table, rows: seq<Row>, kept: seq<Row>)
    requires rows != [] && Carried(t, u, rows[..|rows| - 1], kept)
    requires var row := rows[|rows| - 1]; RowIn(row, t) && !Has(rows[..|rows| - 1], row.id)
    requires forall id :: Has(rows, id) <==> Has(rows[..|rows| - 1], id) || id == rows[|rows| - 1].id
    ensures Carried(t, u, rows, kept + [rows[|rows| - 1]])
  {
    var row := rows[|rows| - 1];
    SameHolders(kept, kept + [row], row, |kept|);
    assert forall i | 0 <= i < |kept| :: RowIn(kept[i], u);
  }

  lemma FoldedIntoKept(t: Table, u: Table, digest: Star -> int, rows: seq<Row>, kept: seq<Row>, i: nat, m: Merge)
    requires rows != [] && Carried(t, u, rows[..|rows| - 1], kept) && i < |kept| && DistinctIds(kept)
    requires var row := rows[|rows| - 1]; RowIn(row, t) && !Has(rows[..|rows| - 1], row.id) && !Has(kept, row.id)
                                          && m.duplicate == row.id
    requires forall id :: Has(rows, id) <==> Has(rows[..|rows| - 1], id) || id == rows[|rows| - 1].id
    requires Has(rows[..|rows| - 1], kept[i].id) && m.survivor == kept[i].id
    ensures Possible(u, m) && u[m.survivor].content == kept[i].content
    ensures Carried(t, Fold(u, digest, m), rows, kept[i := Row(kept[i].id, m.merged)])
  {
    var row := rows[|rows| - 1];
    var v, kept' := Fold(u, digest, m), kept[i := Row(kept[i].id, m.merged)];
    SameHolders(kept, kept', row, i);
    assert RowIn(kept[i], u);
    forall j | 0 <= j < |kept'| ensures RowIn(kept'[j], v) {
      assert RowIn(kept[j], u) && kept[j].id != row.id;
    }
  }

  lemma HasSnoc(rows: seq<Row>, id: StoryId)
    requires rows != []
    ensures Has(rows, id) <==> Has(rows[..|rows| - 1], id) || id == rows[|rows| - 1].id
  {
    var n := |rows| - 1;
    if Has(rows, id) {
      var j :| 0 <= j < |rows| && rows[j].id == id;
      if j < n {
        assert rows[..n][j].id == id;
      }
    }
    if Has(rows[..n], id) {
      var j :| 0 <= j < n && rows[..n][j].id == id;
      assert rows[j].id == id;
    }
  }
}
