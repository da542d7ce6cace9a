/** Folding paraphrased stories into the oldest telling
    (apps/api/app/services/story_dedup_migration.py): the plan, and carrying it out.
 */
module StoryMerge {
  import opened Shared
  import opened StoryRemediation
  import opened Paraphrase

  /** A listed row; rows are listed oldest first. */
  datatype Row = Row(id: StoryId, content: Content)

  datatype Proposal = Proposal(survivor: StoryId, duplicate: StoryId, before: Content, merged: Content)

  datatype Planning = Planning(kept: seq<Row>, proposals: seq<Proposal>)

  /** Whether a row tells the same achievement as a kept one; only the STAR text is compared. */
  type Likeness = (Star, Star) -> bool

  /** The first occurrences, in order: `dict.fromkeys`. */
  function Dedup(tags: seq<string>): (r: seq<string>)
    ensures forall t :: t in r <==> t in tags
  {
    if tags == [] then []
    else
      var rest, last := Dedup(tags[..|tags| - 1]), tags[|tags| - 1];
      assert forall t :: t in tags <==> t in tags[..|tags| - 1] || t == last;
      if last in rest then rest else rest + [last]
  }

  /** The later wording, with the metrics and tags of both. */
  function Merged(survivor: Content, row: Content): Content {
    Content(row.star, Some(OrNoMetrics(survivor) + OrNoMetrics(row)), Some(Dedup(OrNoTags(survivor) + OrNoTags(row))))
  }

  /** The index of the first kept row the given one tells again, or |kept|. */
  function FirstLike(kept: seq<Row>, star: Star, like: Likeness): (i: nat)
    ensures i <= |kept| && (i < |kept| ==> like(star, kept[i].content.star))
    ensures forall j | 0 <= j < i :: !like(star, kept[j].content.star)
  {
    if kept == [] then 0
    else
      var i := FirstLike(kept[..|kept| - 1], star, like);
      if i < |kept| - 1 || like(star, kept[|kept| - 1].content.star) then i else |kept|
  }

  function Folded(p: Planning, row: Row, like: Likeness): Planning {
    var i := FirstLike(p.kept, row.content.star, like);
    if i == |p.kept| then p.(kept := p.kept + [row])
    else
      var s := p.kept[i];
      var merged := Merged(s.content, row.content);
      Planning(p.kept[i := Row(s.id, merged)], p.proposals + [Proposal(s.id, row.id, s.content, merged)])
  }

  function Planned(rows: seq<Row>, like: Likeness): Planning {
    if rows == [] then Planning([], []) else Folded(Planned(rows[..|rows| - 1], like), rows[|rows| - 1], like)
  }

  /** _plan_merges */
  method PlanMerges(rows: seq<Row>, like: Likeness) returns (proposals: seq<Proposal>)
    ensures proposals == Planned(rows, like).proposals
  {
    var kept: seq<Row> := [];
    proposals := [];
    for n := 0 to |rows|
      invariant Planning(kept, proposals) == Planned(rows[..n], like)
    {
      PlannedNext(rows, n, like);
      var row := rows[n];
      var i := FirstLike(kept, row.content.star, like);
      if i == |kept| {
        kept := kept + [row];
        continue;
      }
      var survivor := kept[i];
      var merged := Merged(survivor.content, row.content);
      proposals := proposals + [Proposal(survivor.id, row.id, survivor.content, merged)];
      kept := kept[i := Row(survivor.id, merged)];
    }
    assert rows[..|rows|] == rows;
  }

  lemma PlannedNext(rows: seq<Row>, n: nat, like: Likeness)
    requires n < |rows|
    ensures Planned(rows[..n + 1], like) == Folded(Planned(rows[..n], like), rows[n], like)
  {
    assert rows[..n + 1][..n] == rows[..n];
  }

  // ------------------------------------------------------------- what a plan is like

  ghost predicate DistinctIds(rows: seq<Row>) {
    forall i, j | 0 <= i < j < |rows| :: rows[i].id != rows[j].id
  }

  predicate Has(rows: seq<Row>, id: StoryId) {
    exists i :: 0 <= i < |rows| && rows[i].id == id
  }

  /** The duplicate comes later than its survivor, once, and never survives anything later. */
  ghost predicate WellPlanned(rows: seq<Row>, p: Planning) {
    && |p.kept| + |p.proposals| == |rows|
    && DistinctIds(p.kept)
    && (forall i | 0 <= i < |p.kept| :: Has(rows, p.kept[i].id))
    && (forall k | 0 <= k < |p.proposals| :: Has(p.kept, p.proposals[k].survivor) && ComesAfter(rows, p.proposals[k]))
    && (forall k | 0 <= k < |p.proposals| :: !Has(p.kept, p.proposals[k].duplicate))
    && (forall k, l | 0 <= k < l < |p.proposals| :: p.proposals[k].duplicate != p.proposals[l].duplicate)
  }

  ghost predicate ComesAfter(rows: seq<Row>, p: Proposal) {
    exists i, j :: 0 <= i < j < |rows| && rows[i].id == p.survivor && rows[j].id == p.duplicate
  }

  lemma {:induction false} PlanIsWellFormed(rows: seq<Row>, like: Likeness)
    requires DistinctIds(rows)
    ensures WellPlanned(rows, Planned(rows, like))
  {
    if rows != [] {
      var n := |rows| - 1;
      PlanIsWellFormed(rows[..n], like);
      StillWellPlanned(rows, Planned(rows[..n], like), like);
    }
  }

  lemma StillWellPlanned(rows: seq<Row>, p: Planning, like: Likeness)
    requires rows != [] && DistinctIds(rows) && WellPlanned(rows[..|rows| - 1], p)
    ensures WellPlanned(rows, Folded(p, rows[|rows| - 1], like))
  {
    var n := |rows| - 1;
    var row := rows[n];
    var q := Folded(p, row, like);
    var i := FirstLike(p.kept, row.content.star, like);
    assert !Has(rows[..n], row.id);
    forall id | Has(rows[..n], id) ensures Has(rows, id) {
      var j :| 0 <= j < n && rows[..n][j].id == id;
      assert rows[j].id == id;
    }
    assert Has(rows, row.id);
    forall k | 0 <= k < |p.proposals|
      ensures ComesAfter(rows, p.proposals[k]) && p.proposals[k].duplicate != row.id
    {
      assert ComesAfter(rows[..n], p.proposals[k]);
      var a, b :| 0 <= a < b < n && rows[..n][a].id == p.proposals[k].survivor && rows[..n][b].id == p.proposals[k].duplicate;
      assert rows[a].id == p.proposals[k].survivor && rows[b].id == p.proposals[k].duplicate;
    }
    SameHolders(p.kept, q.kept, row, i);
    if i < |p.kept| {
      assert Has(rows[..n], p.kept[i].id);
      var a :| 0 <= a < n && rows[..n][a].id == p.kept[i].id;
      assert rows[a].id == p.kept[i].id && rows[n].id == row.id;
      assert ComesAfter(rows, q.proposals[|p.proposals|]);
    }
  }

  lemma SameHolders(kept: seq<Row>, kept': seq<Row>, row: Row, i: nat)
    requires i <= |kept|
    requires if i == |kept| then kept' == kept + [row] else |kept'| == |kept| && kept' == kept[i := kept'[i]] && kept'[i].id == kept[i].id
    ensures forall id :: Has(kept', id) <==> Has(kept, id) || (i == |kept| && id == row.id)
  {
    forall id | Has(kept, id) ensures Has(kept', id) {
      var j :| 0 <= j < |kept| && kept[j].id == id;
      assert kept'[j].id == id;
    }
    if i == |kept| {
      assert kept'[i].id == row.id;
    }
  }

  // --------------------------------------------------- nothing is dropped, twice is once?

  ghost predicate HoldsOf(kept: seq<Row>, proposals: seq<Proposal>, row: Row) {
    exists i :: 0 <= i < |kept| && Holds(kept[i], proposals, row)
  }

  /** A kept row that is the given one or took it in, with all its tags and metric names. */
  ghost predicate Holds(k: Row, proposals: seq<Proposal>, row: Row) {
    && (k.id == row.id || Joined(proposals, k.id, row.id))
    && (forall t | t in OrNoTags(row.content) :: t in OrNoTags(k.content))
    && (forall m | m in OrNoMetrics(row.content) :: m in OrNoMetrics(k.content))
  }

  predicate Joined(proposals: seq<Proposal>, survivor: StoryId, duplicate: StoryId) {
    exists k :: 0 <= k < |proposals| && proposals[k].survivor == survivor && proposals[k].duplicate == duplicate
  }

  lemma {:induction false} NothingIsDropped(rows: seq<Row>, like: Likeness)
    ensures var p := Planned(rows, like); forall r | r in rows :: HoldsOf(p.kept, p.proposals, r)
  {
    if rows != [] {
      var n := |rows| - 1;
      NothingIsDropped(rows[..n], like);
      var p, q := Planned(rows[..n], like), Planned(rows, like);
      forall r | r in rows ensures HoldsOf(q.kept, q.proposals, r) {
        if r in rows[..n] {
          StillHolds(p, rows[n], like, r);
        } else {
          var i := FirstLike(p.kept, rows[n].content.star, like);
          if i < |p.kept| {
            assert q.proposals[|p.proposals|].survivor == q.kept[i].id && q.proposals[|p.proposals|].duplicate == r.id;
          }
          assert Holds(q.kept[i], q.proposals, r);
        }
      }
    }
  }

  lemma StillHolds(p: Planning, row: Row, like: Likeness, r: Row)
    requires HoldsOf(p.kept, p.proposals, r)
    ensures HoldsOf(Folded(p, row, like).kept, Folded(p, row, like).proposals, r)
  {
    var q := Folded(p, row, like);
    var i :| 0 <= i < |p.kept| && Holds(p.kept[i], p.proposals, r);
    if Joined(p.proposals, p.kept[i].id, r.id) {
      var k :| 0 <= k < |p.proposals| && p.proposals[k].survivor == p.kept[i].id && p.proposals[k].duplicate == r.id;
      assert q.proposals[k] == p.proposals[k];
    }
    assert Holds(q.kept[i], q.proposals, r);
  }

  /** No row tells again what an earlier one tells. */
  ghost predicate NoTwoAlike(rows: seq<Row>, like: Likeness) {
    forall i, j | 0 <= i < j < |rows| :: !like(rows[j].content.star, rows[i].content.star)
  }

  /** Nothing is planned exactly when no two rows are alike. */
  lemma {:induction false} NothingToMergeIff(rows: seq<Row>, like: Likeness)
    ensures TellsAlike(rows, Planned(rows, like), like)
  {
    if rows != [] {
      var n := |rows| - 1;
      NothingToMergeIff(rows[..n], like);
      OneMoreTold(rows[..n], rows[n], Planned(rows[..n], like), like);
      assert rows[..n] + [rows[n]] == rows;
    }
  }

  ghost predicate TellsAlike(rows: seq<Row>, p: Planning, like: Likeness) {
    && (p.proposals == [] <==> NoTwoAlike(rows, like))
    && (p.proposals == [] ==> p.kept == rows)
  }

  lemma OneMoreTold(rows: seq<Row>, row: Row, p: Planning, like: Likeness)
    requires TellsAlike(rows, p, like)
    ensures TellsAlike(rows + [row], Folded(p, row, like), like)
  {
    OneMoreAlike(rows, row, like);
    KeptOrFolded(p, row, like);
  }

  lemma KeptOrFolded(p: Planning, row: Row, like: Likeness)
    ensures var q := Folded(p, row, like);
            if FirstLike(p.kept, row.content.star, like) == |p.kept|
            then q == Planning(p.kept + [row], p.proposals) else |q.proposals| > |p.proposals|
  {
  }

  lemma OneMoreAlike(rows: seq<Row>, row: Row, like: Likeness)
    ensures NoTwoAlike(rows + [row], like) <==> NoTwoAlike(rows, like) && FirstLike(rows, row.content.star, like) == |rows|
  {
    var all := rows + [row];
    assert forall i | 0 <= i < |rows| :: all[i] == rows[i];
    var i := FirstLike(rows, row.content.star, like);
    if i < |rows| {
      assert like(all[|rows|].content.star, all[i].content.star);
    }
    if NoTwoAlike(all, like) {
      forall i, j | 0 <= i < j < |rows| ensures !like(rows[j].content.star, rows[i].content.star) {
        assert !like(all[j].content.star, all[i].content.star);
      }
    }
  }

  ghost predicate Symmetric(like: Likeness) {
    forall a, b :: like(a, b) == like(b, a)
  }

  /** What is like a like one of these texts is like the first. */
  ghost predicate TransitiveOn(like: Likeness, texts: Star -> bool) {
    forall a, b, c | texts(a) && texts(b) && texts(c) && like(a, b) && like(b, c) :: like(a, c)
  }

  ghost predicate TextsIn(rows: seq<Row>, texts: Star -> bool) {
    forall i | 0 <= i < |rows| :: texts(rows[i].content.star)
  }

  /** A second run on what the first one keeps finds nothing. */
  ghost predicate Settles(rows: seq<Row>, like: Likeness) {
    Planned(Planned(rows, like).kept, like).proposals == []
  }

  /** It finds nothing if likeness is transitive on the texts of the rows. */
  lemma {:induction false} SecondRunFindsNothing(rows: seq<Row>, like: Likeness, texts: Star -> bool)
    requires Symmetric(like) && TransitiveOn(like, texts) && TextsIn(rows, texts)
    ensures NoTwoAlike(Planned(rows, like).kept, like) && TextsIn(Planned(rows, like).kept, texts)
    ensures Settles(rows, like)
  {
    if rows != [] {
      SecondRunFindsNothing(rows[..|rows| - 1], like, texts);
      StillNoTwoAlike(Planned(rows[..|rows| - 1], like), rows[|rows| - 1], like, texts);
    }
    NothingToMergeIff(Planned(rows, like).kept, like);
  }

  lemma StillNoTwoAlike(p: Planning, row: Row, like: Likeness, texts: Star -> bool)
    requires Symmetric(like) && TransitiveOn(like, texts)
    requires NoTwoAlike(p.kept, like) && TextsIn(p.kept, texts) && texts(row.content.star)
    ensures NoTwoAlike(Folded(p, row, like).kept, like) && TextsIn(Folded(p, row, like).kept, texts)
  {
    var q := Folded(p, row, like);
    var m := FirstLike(p.kept, row.content.star, like);
    if m < |p.kept| {
      forall i, j | 0 <= i < j < |q.kept| ensures !like(q.kept[j].content.star, q.kept[i].content.star) {
        assert !like(p.kept[j].content.star, p.kept[i].content.star);
      }
    }
  }

  /** Exactly when the sweep is idempotent on stories with texts of a given kind: when likeness,
      which is symmetric, is transitive on them. */
  lemma IdempotentIff(like: Likeness, texts: Star -> bool)
    requires Symmetric(like)
    ensures (forall rows: seq<Row> | TextsIn(rows, texts) :: Settles(rows, like)) <==> TransitiveOn(like, texts)
  {
    if TransitiveOn(like, texts) {
      forall rows: seq<Row> | TextsIn(rows, texts) ensures Settles(rows, like) {
        SecondRunFindsNothing(rows, like, texts);
      }
    } else {
      var a, b, c :| texts(a) && texts(b) && texts(c) && like(a, b) && like(b, c) && !like(a, c);
      var rows := [Row(1, Bare(a)), Row(2, Bare(c)), Row(3, Bare(b))];
      assert TextsIn(rows, texts);
      SecondRunMayMergeMore(rows[0], rows[1], rows[2], like);
    }
  }

  function Bare(star: Star): Content {
    Content(star, Some(map[]), Some([]))
  }

  /** Three rows of which the last is like both others, which are not alike: the survivor takes
      the last one's wording and is then like the second. */
  lemma SecondRunMayMergeMore(a: Row, b: Row, c: Row, like: Likeness)
    requires like(c.content.star, a.content.star) && like(b.content.star, c.content.star)
    requires !like(b.content.star, a.content.star)
    ensures Planned([a, b, c], like).kept == [Row(a.id, Merged(a.content, c.content)), b]
    ensures !Settles([a, b, c], like)
  {
    var a' := Row(a.id, Merged(a.content, c.content));
    ThirdFolds(a, b, c, a', like);
    LikeRowsFold(a', b, like);
  }

  /** The code's comparison, under one of its presets. */
  function Alike(t: Thresholds, r: Reader): Likeness {
    (a, b) => Matches(a, b, t, r)
  }

  lemma AlikeIsSymmetric(t: Thresholds, r: Reader)
    ensures Symmetric(Alike(t, r))
  {
    forall a, b ensures Alike(t, r)(a, b) == Alike(t, r)(b, a) {
      MatchesEitherWay(a, b, t, r);
    }
  }

  /** So the sweep settles every list of given stories exactly when the comparison is transitive on them. */
  lemma SweepIsIdempotentIff(t: Thresholds, r: Reader, texts: Star -> bool)
    ensures (forall rows: seq<Row> | TextsIn(rows, texts) :: Settles(rows, Alike(t, r))) <==> TransitiveOn(Alike(t, r), texts)
  {
    AlikeIsSymmetric(t, r);
    IdempotentIff(Alike(t, r), texts);
  }

  /** Under both presets of the code it is not transitive: titles of six keywords that move on by
      one keyword each time. The sweep is not idempotent on them. */
  lemma SweepIsNotIdempotent(ws: seq<string>, action: seq<string>, result: seq<string>, t: Thresholds, r: Reader)
    requires Material(ws, action, result, r) && (t == CREATE_TIME || t == BULK_MIGRATION)
    ensures var a, b, c := Row(1, Bare(Telling(Six(ws, 0), action, result))), Row(2, Bare(Telling(Six(ws, 2), action, result))),
                           Row(3, Bare(Telling(Six(ws, 1), action, result)));
            !Settles([a, b, c], Alike(t, r))
  {
    NeighboursMatch(ws, action, result, t, r);
    var a, b, c := Telling(Six(ws, 0), action, result), Telling(Six(ws, 2), action, result), Telling(Six(ws, 1), action, result);
    MatchesEitherWay(b, c, t, r);
    SecondRunMayMergeMore(Row(1, Bare(a)), Row(2, Bare(b)), Row(3, Bare(c)), Alike(t, r));
  }

  /** There are such stories. */
  lemma SomeSweepIsNotIdempotent(t: Thresholds, r: Reader)
    requires r.Valid() && NoneRepeated(r.stopwords) && (t == CREATE_TIME || t == BULK_MIGRATION)
    ensures exists rows: seq<Row> :: !Settles(rows, Alike(t, r))
  {
    SomeMaterial(r);
    SweepMergesTwice(Repeated("abcdefgh"), Repeated("abc"), Repeated("de"), t, r);
  }

  lemma SweepMergesTwice(ws: seq<string>, action: seq<string>, result: seq<string>, t: Thresholds, r: Reader)
    requires Material(ws, action, result, r) && (t == CREATE_TIME || t == BULK_MIGRATION)
    ensures exists rows: seq<Row> :: !Settles(rows, Alike(t, r))
  {
    SweepIsNotIdempotent(ws, action, result, t, r);
    OneIsEnough([Row(1, Bare(Telling(Six(ws, 0), action, result))), Row(2, Bare(Telling(Six(ws, 2), action, result))),
                 Row(3, Bare(Telling(Six(ws, 1), action, result)))], Alike(t, r));
  }

  lemma {:induction false} OneIsEnough(rows: seq<Row>, like: Likeness)
    requires !Settles(rows, like)
    ensures exists some: seq<Row> :: !Settles(some, like)
  {
  }

  lemma ThirdFolds(a: Row, b: Row, c: Row, a': Row, like: Likeness)
    requires !like(b.content.star, a.content.star) && like(c.content.star, a.content.star)
    requires a' == Row(a.id, Merged(a.content, c.content))
    ensures Planned([a, b, c], like).kept == [a', b]
  {
    FirstTwoPlanned(a, b, like);
    OneMore([a, b], c, like);
    FoldsAtFirst(Planning([a, b], []), c, like);
    ThreeRows(a, b, c, a');
  }

  lemma ThreeRows<T>(a: T, b: T, c: T, a': T)
    ensures [a, b] + [c] == [a, b, c] && [a, b][0 := a'] == [a', b]
  {
  }

  lemma FoldsAtFirst(p: Planning, row: Row, like: Likeness)
    requires p.kept != [] && like(row.content.star, p.kept[0].content.star)
    ensures Folded(p, row, like).kept == p.kept[0 := Row(p.kept[0].id, Merged(p.kept[0].content, row.content))]
    ensures |Folded(p, row, like).proposals| == |p.proposals| + 1
  {
  }

  lemma FirstTwoPlanned(a: Row, b: Row, like: Likeness)
    requires !like(b.content.star, a.content.star)
    ensures Planned([a, b], like) == Planning([a, b], [])
  {
    NothingToMergeIff([a, b], like);
    assert Planned([a, b], like) == Planning(Planned([a, b], like).kept, Planned([a, b], like).proposals);
  }

  lemma LikeRowsFold(a: Row, b: Row, like: Likeness)
    requires like(b.content.star, a.content.star)
    ensures |Planned([a, b], like).proposals| == 1
  {
    OneMore([], a, like);
    OneMore([a], b, like);
    assert [] + [a] == [a] && [a] + [b] == [a, b];
    assert Planned([], like) == Planning([], []);
    assert Planned([a], like) == Planning([a], []);
    FoldsAtFirst(Planning([a], []), b, like);
  }

  lemma OneMore(rows: seq<Row>, row: Row, like: Likeness)
    ensures Planned(rows + [row], like) == Folded(Planned(rows, like), row, like)
  {
    assert (rows + [row])[..|rows|] == rows;
  }

  lemma FirstOfTwo(kept: seq<Row>, star: Star, like: Likeness)
    requires |kept| <= 2
    ensures FirstLike(kept, star, like) ==
      if |kept| > 0 && like(star, kept[0].content.star) then 0
      else if |kept| > 1 && like(star, kept[1].content.star) then 1 else |kept|
  {
  }
}
