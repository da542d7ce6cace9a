/** The reviewed sweep (apps/api/scripts/story_dedup_sweep.py): what a plan digest fixes, and what
    each exit code means.
 */
module StorySweep {
  import opened Shared
  import opened StoryRemediation
  import opened Paraphrase
  import opened StoryMerge
  import opened StoryUnmerge
  import opened StoryUnmergeTheorems

  // ------------------------------------------------------------------------ the digest

  datatype Triple = Triple(survivor: StoryId, duplicate: StoryId, merged: string)

  /** How triples of strings compare in Python. */
  type Order = (Triple, Triple) -> bool

  ghost predicate IsTotalOrder(le: Order) {
    && (forall a, b :: le(a, b) || le(b, a))
    && (forall a, b | le(a, b) && le(b, a) :: a == b)
    && (forall a, b, c | le(a, b) && le(b, c) :: le(a, c))
  }

  function Triples(ps: seq<Proposal>, json: Content -> string): (r: seq<Triple>)
    ensures |r| == |ps|
  {
    seq(|ps|, i requires 0 <= i < |ps| => Triple(ps[i].survivor, ps[i].duplicate, json(ps[i].merged)))
  }

  function Inserted(s: seq<Triple>, x: Triple, le: Order): seq<Triple> {
    if s == [] || le(s[|s| - 1], x) then s + [x] else Inserted(s[..|s| - 1], x, le) + [s[|s| - 1]]
  }

  function InOrderOf(s: seq<Triple>, le: Order): seq<Triple> {
    if s == [] then [] else Inserted(InOrderOf(s[..|s| - 1], le), s[|s| - 1], le)
  }

  /** _plan_digest; `hash` stands for SHA-256 of the JSON of the sorted list. */
  function PlanDigest(ps: seq<Proposal>, json: Content -> string, le: Order, hash: seq<Triple> -> string): string {
    hash(InOrderOf(Triples(ps, json), le))
  }

  function Count(s: seq<Triple>, x: Triple): nat {
    if s == [] then 0 else Count(s[..|s| - 1], x) + if s[|s| - 1] == x then 1 else 0
  }

  ghost predicate Ascending(s: seq<Triple>, le: Order) {
    forall i, j | 0 <= i < j < |s| :: le(s[i], s[j])
  }

  lemma {:induction false} InsertedHas(s: seq<Triple>, x: Triple, le: Order)
    ensures forall y :: y in Inserted(s, x, le) <==> y in s || y == x
  {
    if s != [] && !le(s[|s| - 1], x) {
      InsertedHas(s[..|s| - 1], x, le);
    }
  }

  lemma {:induction false} InsertedCounts(s: seq<Triple>, x: Triple, le: Order)
    ensures forall y :: Count(Inserted(s, x, le), y) == Count(s, y) + if x == y then 1 else 0
  {
    if s == [] || le(s[|s| - 1], x) {
      assert (s + [x])[..|s|] == s;
    } else {
      InsertedCounts(s[..|s| - 1], x, le);
      var r := Inserted(s[..|s| - 1], x, le);
      assert (r + [s[|s| - 1]])[..|r|] == r;
    }
  }

  lemma {:induction false} InsertedFits(s: seq<Triple>, x: Triple, le: Order)
    requires IsTotalOrder(le) && Ascending(s, le)
    ensures Ascending(Inserted(s, x, le), le)
  {
    if s != [] && !le(s[|s| - 1], x) {
      var n := |s| - 1;
      InsertedFits(s[..n], x, le);
      InsertedHas(s[..n], x, le);
      var r := Inserted(s[..n], x, le);
      forall i | 0 <= i < |r| ensures le(r[i], s[n]) {
        assert r[i] in r;
      }
    }
  }

  lemma {:induction false} InOrderFits(s: seq<Triple>, le: Order)
    requires IsTotalOrder(le)
    ensures Ascending(InOrderOf(s, le), le)
    ensures forall y :: Count(InOrderOf(s, le), y) == Count(s, y)
  {
    if s != [] {
      InOrderFits(s[..|s| - 1], le);
      InsertedFits(InOrderOf(s[..|s| - 1], le), s[|s| - 1], le);
      InsertedCounts(InOrderOf(s[..|s| - 1], le), s[|s| - 1], le);
    }
  }

  lemma {:induction false} CountIn(s: seq<Triple>, x: Triple)
    ensures Count(s, x) > 0 <==> x in s
  {
    if s != [] {
      CountIn(s[..|s| - 1], x);
    }
  }

  /** Ascending sequences with the same elements are the same. */
  lemma {:induction false} AscendingUnique(a: seq<Triple>, b: seq<Triple>, le: Order)
    requires IsTotalOrder(le) && Ascending(a, le) && Ascending(b, le)
    requires forall y :: Count(a, y) == Count(b, y)
    ensures a == b
  {
    if a == [] || b == [] {
      if a != [] {
        CountIn(a, a[0]);
        CountIn(b, a[0]);
      }
      if b != [] {
        CountIn(a, b[0]);
        CountIn(b, b[0]);
      }
    } else {
      var x, y := a[|a| - 1], b[|b| - 1];
      CountIn(a, x);
      CountIn(b, x);
      CountIn(a, y);
      CountIn(b, y);
      assert x in b && y in a;
      assert le(x, y) && le(y, x);
      var a', b' := a[..|a| - 1], b[..|b| - 1];
      forall z ensures Count(a', z) == Count(b', z) {
        assert Count(a, z) == Count(b, z);
      }
      AscendingUnique(a', b', le);
    }
  }

  ghost predicate Injective<A(!new), B>(f: A -> B) {
    forall a, b | f(a) == f(b) :: a == b
  }

  ghost predicate Rearranged(a: seq<Triple>, b: seq<Triple>) {
    forall x :: Count(a, x) == Count(b, x)
  }

  lemma InOrderIff(a: seq<Triple>, b: seq<Triple>, le: Order)
    requires IsTotalOrder(le)
    ensures InOrderOf(a, le) == InOrderOf(b, le) <==> Rearranged(a, b)
  {
    InOrderFits(a, le);
    InOrderFits(b, le);
    if Rearranged(a, b) {
      AscendingUnique(InOrderOf(a, le), InOrderOf(b, le), le);
    }
    if InOrderOf(a, le) == InOrderOf(b, le) {
      forall x ensures Count(a, x) == Count(b, x) {
        assert Count(InOrderOf(a, le), x) == Count(a, x);
      }
    }
  }

  /** Two plans have one digest exactly when one is a rearrangement of the other. */
  lemma DigestIff(p: seq<Proposal>, q: seq<Proposal>, json: Content -> string, le: Order, hash: seq<Triple> -> string)
    requires IsTotalOrder(le) && Injective(hash)
    ensures PlanDigest(p, json, le, hash) == PlanDigest(q, json, le, hash) <==> Rearranged(Triples(p, json), Triples(q, json))
  {
    InOrderIff(Triples(p, json), Triples(q, json), le);
  }

  // -------------------------------------------------- what the digest leaves open

  ghost predicate SameMerge(p: Proposal, q: Proposal) {
    p.survivor == q.survivor && p.duplicate == q.duplicate && p.merged == q.merged
  }

  /** Rows as they may be listed: none before an older one. */
  ghost predicate ByAge(rows: seq<Row>, created: StoryId -> int) {
    forall i, j | 0 <= i < j < |rows| :: created(rows[i].id) <= created(rows[j].id)
  }

  /** Folding in either of two duplicates leaves the same content whether or not the other was folded
      in before: same metrics, and tags in the same order. */
  predicate BringNothing(s: Content, a: Content, b: Content) {
    Merged(Merged(s, a), b) == Merged(s, b) && Merged(Merged(s, b), a) == Merged(s, a)
  }

  /** What the digest leaves open. Of three tellings, pairwise alike under any likeness, the two later
      ones of one age may be listed in either order. The two plans have one digest exactly when
      each duplicate leaves the same content with or without the other before it; then the survivor
      ends up with the content of the one or of the other. */
  lemma DigestForgetsOrder(s: Row, a: Row, b: Row, like: Likeness, created: StoryId -> int, json: Content -> string,
                           le: Order, hash: seq<Triple> -> string)
    requires IsTotalOrder(le) && Injective(hash) && Injective(json)
    requires created(s.id) <= created(a.id) == created(b.id) && a.id != b.id
    requires like(a.content.star, s.content.star) && like(b.content.star, s.content.star)
    requires like(b.content.star, a.content.star) && like(a.content.star, b.content.star)
    ensures ByAge([s, a, b], created) && ByAge([s, b, a], created)
    ensures var p, q := Planned([s, a, b], like), Planned([s, b, a], like);
            && (PlanDigest(p.proposals, json, le, hash) == PlanDigest(q.proposals, json, le, hash)
                <==> BringNothing(s.content, a.content, b.content))
            && (PlanDigest(p.proposals, json, le, hash) == PlanDigest(q.proposals, json, le, hash)
                ==> p.kept == [Row(s.id, Merged(s.content, b.content))] && q.kept == [Row(s.id, Merged(s.content, a.content))])
  {
    ThreeByAge(s, a, b, created);
    ThreeByAge(s, b, a, created);
    BothFold(s, a, b, like);
    BothFold(s, b, a, like);
    var sa, sb := Merged(s.content, a.content), Merged(s.content, b.content);
    var p1, p2 := Proposal(s.id, a.id, s.content, sa), Proposal(s.id, b.id, sa, Merged(sa, b.content));
    var q1, q2 := Proposal(s.id, b.id, s.content, sb), Proposal(s.id, a.id, sb, Merged(sb, a.content));
    DigestOfTwo(p1, p2, q1, q2, json, le, hash);
  }

  lemma ThreeByAge(s: Row, a: Row, b: Row, created: StoryId -> int)
    requires created(s.id) <= created(a.id) <= created(b.id)
    ensures ByAge([s, a, b], created)
  {
  }

  /** Two merges into one survivor, the other way round. */
  lemma DigestOfTwo(p1: Proposal, p2: Proposal, q1: Proposal, q2: Proposal, json: Content -> string, le: Order,
                    hash: seq<Triple> -> string)
    requires IsTotalOrder(le) && Injective(hash) && Injective(json)
    requires p1.survivor == q2.survivor && p1.duplicate == q2.duplicate && p2.survivor == q1.survivor && p2.duplicate == q1.duplicate
    requires p1.duplicate != p2.duplicate
    ensures PlanDigest([p1, p2], json, le, hash) == PlanDigest([q1, q2], json, le, hash)
       <==> p1.merged == q2.merged && p2.merged == q1.merged
  {
    var a, b := Triples([p1, p2], json), Triples([q1, q2], json);
    DigestIff([p1, p2], [q1, q2], json, le, hash);
    assert a == [a[0], a[1]] && b == [b[0], b[1]];
    if Rearranged(a, b) {
      SameMembers(a, b);
      assert a[0] in a && a[1] in a;
    }
    if a[0] == b[1] && a[1] == b[0] {
      TwoSwapped(a[0], a[1]);
    }
  }

  lemma TwoSwapped(x: Triple, y: Triple)
    ensures Rearranged([x, y], [y, x])
  {
    forall z ensures Count([x, y], z) == Count([y, x], z) {
      TwoCounted(x, y, z);
      TwoCounted(y, x, z);
    }
  }

  lemma TwoCounted(x: Triple, y: Triple, z: Triple)
    ensures Count([x, y], z) == (if x == z then 1 else 0) + if y == z then 1 else 0
  {
    assert [x, y][..1] == [x];
    assert [x][..0] == [];
    assert Count([x], z) == if x == z then 1 else 0;
  }

  lemma OneRow(s: Row, like: Likeness)
    ensures Planned([s], like) == Planning([s], [])
  {
    OneMore([], s, like);
    assert [] + [s] == [s];
  }

  /** One more row that is like the only one kept. */
  lemma ThenOne(rows: seq<Row>, x: Row, ps: seq<Proposal>, row: Row, like: Likeness, m: Content)
    requires Planned(rows, like) == Planning([x], ps) && like(row.content.star, x.content.star)
    requires m == Merged(x.content, row.content)
    ensures Planned(rows + [row], like) == Planning([Row(x.id, m)], ps + [Proposal(x.id, row.id, x.content, m)])
  {
    OneMore(rows, row, like);
    OneFolds(x, row, ps, like);
  }

  lemma BothFold(s: Row, a: Row, b: Row, like: Likeness)
    requires like(a.content.star, s.content.star) && like(b.content.star, a.content.star)
    ensures var sa := Merged(s.content, a.content);
            var sab := Merged(sa, b.content);
            Planned([s, a, b], like)
            == Planning([Row(s.id, sab)], [Proposal(s.id, a.id, s.content, sa), Proposal(s.id, b.id, sa, sab)])
  {
    var sa := Merged(s.content, a.content);
    var sab := Merged(sa, b.content);
    OneRow(s, like);
    ThenOne([s], s, [], a, like, sa);
    var p1, p2 := Proposal(s.id, a.id, s.content, sa), Proposal(s.id, b.id, sa, sab);
    Appended(s, a, b, p1, p2);
    ThenOne([s, a], Row(s.id, sa), [p1], b, like, sab);
  }

  lemma Appended(s: Row, a: Row, b: Row, p1: Proposal, p2: Proposal)
    ensures [s] + [a] == [s, a] && [s, a] + [b] == [s, a, b] && [] + [p1] == [p1] && [p1] + [p2] == [p1, p2]
  {
  }

  lemma OneFolds(s: Row, row: Row, ps: seq<Proposal>, like: Likeness)
    requires like(row.content.star, s.content.star)
    ensures var m := Merged(s.content, row.content);
            Folded(Planning([s], ps), row, like) == Planning([Row(s.id, m)], ps + [Proposal(s.id, row.id, s.content, m)])
  {
    FirstOfTwo([s], row.content.star, like);
    assert [s][0 := Row(s.id, Merged(s.content, row.content))] == [Row(s.id, Merged(s.content, row.content))];
  }

  lemma BareBringNothing(s: Star, a: Star, b: Star)
    ensures BringNothing(Bare(s), Bare(a), Bare(b)) && Merged(Bare(s), Bare(a)) == Bare(a) && Merged(Bare(s), Bare(b)) == Bare(b)
  {
    var none: map<string, string> := map[];
    assert none + none == none;
  }

  /** It happens under both presets of the code: three titles of five keywords in common and one of
      their own. */
  lemma SweepForgetsOrder(ws: seq<string>, action: seq<string>, result: seq<string>, t: Thresholds, r: Reader,
                          created: StoryId -> int, json: Content -> string, le: Order, hash: seq<Triple> -> string)
    requires Material(ws, action, result, r) && (t == CREATE_TIME || t == BULK_MIGRATION)
    requires IsTotalOrder(le) && Injective(hash) && Injective(json) && created(1) <= created(2) == created(3)
    ensures var s, a, b := Row(1, Bare(Telling(FiveAnd(ws, 5), action, result))), Row(2, Bare(Telling(FiveAnd(ws, 6), action, result))),
                           Row(3, Bare(Telling(FiveAnd(ws, 7), action, result)));
            var p, q := Planned([s, a, b], Alike(t, r)), Planned([s, b, a], Alike(t, r));
            && ByAge([s, a, b], created) && ByAge([s, b, a], created)
            && PlanDigest(p.proposals, json, le, hash) == PlanDigest(q.proposals, json, le, hash)
            && p.kept == [Row(1, b.content)] && q.kept == [Row(1, a.content)] && a.content != b.content
  {
    var s, a, b := Telling(FiveAnd(ws, 5), action, result), Telling(FiveAnd(ws, 6), action, result), Telling(FiveAnd(ws, 7), action, result);
    FiveAndOneMatch(ws, 6, 5, action, result, t, r);
    FiveAndOneMatch(ws, 7, 5, action, result, t, r);
    FiveAndOneMatch(ws, 7, 6, action, result, t, r);
    FiveAndOneMatch(ws, 6, 7, action, result, t, r);
    BareBringNothing(s, a, b);
    TheyDiffer(ws, 6, 7, action, result, r);
    DigestForgetsOrder(Row(1, Bare(s)), Row(2, Bare(a)), Row(3, Bare(b)), Alike(t, r), created, json, le, hash);
  }

  // ------------------------------------------------------ what it does fix, and when

  /** The wording the last merge into s gives it. */
  function LastInto(a: seq<Triple>, s: StoryId): Option<string> {
    if a == [] then None
    else if a[|a| - 1].survivor == s then Some(a[|a| - 1].merged)
    else LastInto(a[..|a| - 1], s)
  }

  /** Its place is i. */
  ghost predicate LastAt(a: seq<Triple>, s: StoryId, i: nat) {
    i < |a| && a[i].survivor == s && forall j | i < j < |a| :: a[j].survivor != s
  }

  lemma {:induction false} LastPlace(a: seq<Triple>, s: StoryId) returns (i: nat)
    requires LastInto(a, s).Some?
    ensures LastAt(a, s, i) && LastInto(a, s) == Some(a[i].merged)
  {
    var n := |a| - 1;
    if a[n].survivor == s {
      i := n;
    } else {
      i := LastPlace(a[..n], s);
      assert forall j | 0 <= j < n :: a[..n][j] == a[j];
    }
  }

  lemma {:induction false} NoneInto(a: seq<Triple>, s: StoryId)
    ensures LastInto(a, s).None? <==> forall x | x in a :: x.survivor != s
  {
    if a != [] {
      NoneInto(a[..|a| - 1], s);
      assert a == a[..|a| - 1] + [a[|a| - 1]];
    }
  }

  /** Merges in the order of the listing. */
  ghost predicate ByAgeOfDuplicate(a: seq<Triple>, created: StoryId -> int) {
    forall i, j | 0 <= i < j < |a| :: created(a[i].duplicate) <= created(a[j].duplicate)
  }

  /** The i-th merge is one of a youngest duplicate of s. */
  ghost predicate Youngest(a: seq<Triple>, created: StoryId -> int, s: StoryId, i: int) {
    && 0 <= i < |a| && a[i].survivor == s
    && forall j | 0 <= j < |a| && a[j].survivor == s :: created(a[j].duplicate) <= created(a[i].duplicate)
  }

  /** All youngest duplicates of s leave it with one wording. */
  ghost predicate YoungestAgree(a: seq<Triple>, created: StoryId -> int, s: StoryId) {
    forall i, j | Youngest(a, created, s, i) && Youngest(a, created, s, j) :: a[i].merged == a[j].merged
  }

  /** Exactly when the digest fixes the wording a survivor ends up with: every plan by age with the
      same merges leaves the same wording, if and only if all youngest duplicates do. */
  lemma DigestFixesTheWordingIff(a: seq<Triple>, created: StoryId -> int, s: StoryId)
    requires ByAgeOfDuplicate(a, created)
    ensures YoungestAgree(a, created, s)
       <==> forall b | Rearranged(a, b) && ByAgeOfDuplicate(b, created) :: LastInto(b, s) == LastInto(a, s)
  {
    if YoungestAgree(a, created, s) {
      forall b | Rearranged(a, b) && ByAgeOfDuplicate(b, created) ensures LastInto(b, s) == LastInto(a, s) {
        DigestFixesTheWording(a, b, created, s);
      }
    } else {
      var i, j :| Youngest(a, created, s, i) && Youngest(a, created, s, j) && a[i].merged != a[j].merged;
      var b := OtherWording(a, created, s, i, j);
      assert Rearranged(a, b) && ByAgeOfDuplicate(b, created);
    }
  }

  lemma DigestFixesTheWording(a: seq<Triple>, b: seq<Triple>, created: StoryId -> int, s: StoryId)
    requires Rearranged(a, b) && ByAgeOfDuplicate(a, created) && ByAgeOfDuplicate(b, created) && YoungestAgree(a, created, s)
    ensures LastInto(b, s) == LastInto(a, s)
  {
    SameMembers(a, b);
    NoneInto(a, s);
    NoneInto(b, s);
    if LastInto(a, s).Some? {
      var i := LastPlace(a, s);
      var k := LastPlace(b, s);
      LastIsYoungest(a, b, created, s, i, k);
      LastIsYoungest(b, a, created, s, k, i);
      YoungestAtLast(a, created, s, i);
      assert b[k] in a;
      var j :| 0 <= j < |a| && a[j] == b[k];
      assert Youngest(a, created, s, j);
    }
  }

  lemma YoungestAtLast(a: seq<Triple>, created: StoryId -> int, s: StoryId, i: nat)
    requires ByAgeOfDuplicate(a, created) && LastAt(a, s, i)
    ensures Youngest(a, created, s, i)
  {
  }

  /** When two youngest duplicates disagree, another plan ends in another wording: the last merge and
      one that disagrees with it change places. All between them are of one age. */
  lemma OtherWording(a: seq<Triple>, created: StoryId -> int, s: StoryId, i: nat, j: nat) returns (b: seq<Triple>)
    requires ByAgeOfDuplicate(a, created) && Youngest(a, created, s, i) && Youngest(a, created, s, j) && a[i].merged != a[j].merged
    ensures Rearranged(a, b) && ByAgeOfDuplicate(b, created) && LastInto(b, s) != LastInto(a, s)
  {
    NoneInto(a, s);
    assert a[i] in a;
    var l := LastPlace(a, s);
    YoungestAtLast(a, created, s, l);
    var k := if a[i].merged != a[l].merged then i else j;
    assert k < l && created(a[k].duplicate) == created(a[l].duplicate);
    b := Exchanged(a, k, l);
    ExchangedCounts(a, k, l);
    ExchangedByAge(a, created, k, l);
    LastIs(b, s, l);
  }

  function Exchanged(a: seq<Triple>, k: nat, l: nat): seq<Triple>
    requires k < l < |a|
  {
    a[k := a[l]][l := a[k]]
  }

  lemma {:induction false} CountUpdated(a: seq<Triple>, k: nat, x: Triple, z: Triple)
    requires k < |a|
    ensures Count(a[k := x], z) + (if a[k] == z then 1 else 0) == Count(a, z) + if x == z then 1 else 0
  {
    var n := |a| - 1;
    if k == n {
      assert a[k := x][..n] == a[..n];
    } else {
      assert a[k := x][..n] == a[..n][k := x];
      CountUpdated(a[..n], k, x, z);
    }
  }

  lemma ExchangedCounts(a: seq<Triple>, k: nat, l: nat)
    requires k < l < |a|
    ensures Rearranged(a, Exchanged(a, k, l))
  {
    forall z ensures Count(a, z) == Count(Exchanged(a, k, l), z) {
      CountUpdated(a, k, a[l], z);
      CountUpdated(a[k := a[l]], l, a[k], z);
    }
  }

  lemma ExchangedByAge(a: seq<Triple>, created: StoryId -> int, k: nat, l: nat)
    requires k < l < |a| && ByAgeOfDuplicate(a, created) && created(a[k].duplicate) == created(a[l].duplicate)
    ensures ByAgeOfDuplicate(Exchanged(a, k, l), created)
  {
    var b := Exchanged(a, k, l);
    assert forall i | 0 <= i < |a| :: created(b[i].duplicate) == created(a[i].duplicate);
  }

  lemma {:induction false} LastIs(a: seq<Triple>, s: StoryId, i: nat)
    requires LastAt(a, s, i)
    ensures LastInto(a, s) == Some(a[i].merged)
  {
    if i < |a| - 1 {
      LastIs(a[..|a| - 1], s, i);
    }
  }

  /** The last merge into s of one plan is as young as that of the other. */
  lemma LastIsYoungest(a: seq<Triple>, b: seq<Triple>, created: StoryId -> int, s: StoryId, i: nat, k: nat)
    requires (forall x | x in b :: x in a) && ByAgeOfDuplicate(a, created) && LastAt(a, s, i) && LastAt(b, s, k)
    ensures created(b[k].duplicate) <= created(a[i].duplicate)
  {
    assert b[k] in a;
    var k' :| 0 <= k' < |a| && a[k'] == b[k];
    assert k' <= i;
  }

  lemma SameMembers(a: seq<Triple>, b: seq<Triple>)
    requires Rearranged(a, b)
    ensures forall x :: x in a <==> x in b
  {
    forall x ensures x in a <==> x in b {
      CountIn(a, x);
      CountIn(b, x);
      assert Count(a, x) == Count(b, x);
    }
  }

  /** Every plan of rows listed by age has its merges by age. */
  lemma {:induction false} PlansAreByAge(rows: seq<Row>, like: Likeness, created: StoryId -> int, json: Content -> string)
    requires ByAge(rows, created)
    ensures ByAgeOfDuplicate(Triples(Planned(rows, like).proposals, json), created)
    ensures forall p | p in Planned(rows, like).proposals :: Has(rows, p.duplicate)
  {
    if rows != [] {
      var n := |rows| - 1;
      PlansAreByAge(rows[..n], like, created, json);
      var ps := Planned(rows[..n], like).proposals;
      forall p | p in ps ensures created(p.duplicate) <= created(rows[n].id) && Has(rows, p.duplicate) {
        var i :| 0 <= i < n && rows[..n][i].id == p.duplicate;
        assert rows[i].id == p.duplicate;
      }
      assert Has(rows, rows[n].id);
      assert forall i | 0 <= i < |ps| :: ps[i] in ps;
      assert forall i | 0 <= i < |ps| :: Triples(ps, json)[i].duplicate == ps[i].duplicate;
    }
  }

  /** When creation times differ the digest fixes the plan, merge by merge. */
  lemma {:induction false} DigestFixesThePlan(p: seq<Proposal>, q: seq<Proposal>, created: StoryId -> int, json: Content -> string)
    requires Rearranged(Triples(p, json), Triples(q, json))
    requires OldestFirst(p, created) && OldestFirst(q, created)
    ensures Triples(p, json) == Triples(q, json)
  {
    var a, b := Triples(p, json), Triples(q, json);
    if p == [] || q == [] {
      BothEmpty(a, b);
    } else {
      var m, n := |p| - 1, |q| - 1;
      SameLast(p, q, created, json);
      assert Triples(p[..m], json) == a[..m] && Triples(q[..n], json) == b[..n];
      assert Rearranged(a[..m], b[..n]) by {
        FrontsRearranged(a, b);
      }
      DigestFixesThePlan(p[..m], q[..n], created, json);
      assert a == a[..m] + [a[m]] && b == b[..n] + [b[n]];
    }
  }

  lemma BothEmpty(a: seq<Triple>, b: seq<Triple>)
    requires Rearranged(a, b) && (a == [] || b == [])
    ensures a == b
  {
    if a != [] {
      CountIn(a, a[0]);
      CountIn(b, a[0]);
    }
    if b != [] {
      CountIn(a, b[0]);
      CountIn(b, b[0]);
    }
  }

  lemma FrontsRearranged(a: seq<Triple>, b: seq<Triple>)
    requires a != [] && b != [] && Rearranged(a, b) && a[|a| - 1] == b[|b| - 1]
    ensures Rearranged(a[..|a| - 1], b[..|b| - 1])
  {
    var a', b' := a[..|a| - 1], b[..|b| - 1];
    forall x ensures Count(a', x) == Count(b', x) {
      assert Count(a, x) == Count(b, x);
    }
  }

  /** The last merge is the one of the youngest duplicate. */
  lemma SameLast(p: seq<Proposal>, q: seq<Proposal>, created: StoryId -> int, json: Content -> string)
    requires p != [] && q != [] && Rearranged(Triples(p, json), Triples(q, json))
    requires OldestFirst(p, created) && OldestFirst(q, created)
    ensures Triples(p, json)[|p| - 1] == Triples(q, json)[|q| - 1]
  {
    var a, b, m, n := Triples(p, json), Triples(q, json), |p| - 1, |q| - 1;
    CountIn(a, a[m]);
    CountIn(b, a[m]);
    CountIn(a, b[n]);
    CountIn(b, b[n]);
    assert Count(a, a[m]) == Count(b, a[m]) && Count(a, b[n]) == Count(b, b[n]);
    var i :| 0 <= i <= n && b[i] == a[m];
    var j :| 0 <= j <= m && a[j] == b[n];
    assert q[i].duplicate == p[m].duplicate && p[j].duplicate == q[n].duplicate;
  }

  /** The duplicates of a plan in the order of the listing, no two of one age. */
  ghost predicate OldestFirst(ps: seq<Proposal>, created: StoryId -> int) {
    forall i, j | 0 <= i < j < |ps| :: created(ps[i].duplicate) < created(ps[j].duplicate)
  }

  /** Every plan is in that order if its rows are. */
  lemma {:induction false} PlansAreOldestFirst(rows: seq<Row>, like: Likeness, created: StoryId -> int)
    requires forall i, j | 0 <= i < j < |rows| :: created(rows[i].id) < created(rows[j].id)
    ensures OldestFirst(Planned(rows, like).proposals, created)
    ensures forall p | p in Planned(rows, like).proposals :: Has(rows, p.duplicate)
  {
    if rows != [] {
      var n := |rows| - 1;
      PlansAreOldestFirst(rows[..n], like, created);
      var ps := Planned(rows[..n], like).proposals;
      forall p | p in ps ensures created(p.duplicate) < created(rows[n].id) && Has(rows, p.duplicate) {
        var i :| 0 <= i < n && rows[..n][i].id == p.duplicate;
        assert rows[i].id == p.duplicate;
      }
      assert Has(rows, rows[n].id);
      assert forall i | 0 <= i < |ps| :: ps[i] in ps;
    }
  }

  // ------------------------------------------------------------------------- the sweep

  datatype Args = Args(user: string, confirmed: Option<string>, apply: bool, conservative: bool)

  datatype PlanFile = PlanFile(kind: string, user: string, digest: Option<string>, reviewedBy: Option<string>,
                               conservative: bool)

  datatype PlanArg = NotGiven | NoSuchFile | Given(file: PlanFile)

  datatype Exit = Code(n: nat) | Refusal | Traceback

  predicate IsBlank(s: string, space: char -> bool) {
    forall i | 0 <= i < |s| :: space(s[i])
  }

  /** A signed plan for this user and these thresholds, the user named twice. */
  predicate Reviewed(args: Args, plan: PlanArg, space: char -> bool) {
    && args.confirmed == Some(args.user)
    && plan.Given? && plan.file.kind == "merge" && plan.file.user == args.user && plan.file.digest.Some?
    && plan.file.reviewedBy.Some? && !IsBlank(plan.file.reviewedBy.value, space)
    && plan.file.conservative == args.conservative
  }

  method RequireReviewedPlan(args: Args, plan: PlanArg, space: char -> bool) returns (file: Option<PlanFile>)
    ensures file.Some? ==> plan == Given(file.value) && file.value.digest.Some?
    ensures Reviewed(args, plan, space) <==> file.Some? && file.value.conservative == args.conservative
  {
    if args.confirmed != Some(args.user) {
      return None;
    }
    if !plan.Given? {
      return None;
    }
    if plan.file.kind != "merge" {
      return None;
    }
    if plan.file.user != args.user {
      return None;
    }
    if plan.file.digest.None? {
      return None;
    }
    if plan.file.reviewedBy.None? || IsBlank(plan.file.reviewedBy.value, space) {
      return None;
    }
    return Some(plan.file);
  }

  function LiveIds(t: Table): set<StoryId> {
    set id | id in t && t[id].live
  }

  /** Reading the table takes place twice, and again to count, and anybody may write in between. */
  datatype World = World(atCheck: seq<Row>, atWrite: seq<Row>, drift: int)

  /** How triples are made, ordered and hashed. */
  datatype Hashing = Hashing(json: Content -> string, le: Order, hash: seq<Triple> -> string) {
    function Of(ps: seq<Proposal>): string {
      PlanDigest(ps, json, le, hash)
    }
  }

  datatype Clock = Clock(batch: Batch, archivedAt: int, tick: nat -> int)

  /** What a sweep ends with, and the table it leaves; `drift` is what others have added to the
      live rows by the final count. */
  ghost function Sweep(args: Args, plan: PlanArg, space: char -> bool, likeness: bool -> Likeness, h: Hashing,
                       digest: Star -> int, w: World, table: Table, clock: Clock): (Exit, Table)
  {
    var like := likeness(args.conservative);
    var executed := Planned(w.atWrite, like).proposals;
    var ms := MergesOf(executed, clock.batch, clock.archivedAt, clock.tick);
    var after := Folds(table, digest, ms);
    if !args.apply then (Code(0), table)
    else if !Reviewed(args, plan, space) then (Refusal, table)
    else if Some(h.Of(Planned(w.atCheck, like).proposals)) != plan.file.digest then (Code(2), table)
    else if !AllPossible(table, digest, ms) then (Traceback, table)
    else if Some(h.Of(executed)) != plan.file.digest then (Code(5), after)
    else (Code(if |LiveIds(after)| + w.drift == |w.atWrite| - |executed| then 0 else 3), after)
  }

  /** _run_sweep */
  method RunSweep(args: Args, plan: PlanArg, space: char -> bool, likeness: bool -> Likeness, h: Hashing,
                  digest: Star -> int, w: World, bank: StoryTable, clock: Clock)
    returns (r: Exit)
    requires DistinctIds(w.atWrite)
    modifies bank
    ensures (r, bank.table) == Sweep(args, plan, space, likeness, h, digest, w, old(bank.table), clock)
  {
    var like := likeness(args.conservative);
    if !args.apply {
      return Code(0);
    }
    var file := RequireReviewedPlan(args, plan, space);
    if file.None? || file.value.conservative != args.conservative {
      return Refusal;
    }
    var live := PlanMerges(w.atCheck, like);
    if Some(h.Of(live)) != file.value.digest {
      return Code(2);
    }
    var proposals := PlanMerges(w.atWrite, like);
    PlanIsWellFormed(w.atWrite, like);
    forall p | p in proposals ensures p.survivor != p.duplicate {
      DuplicatesGo(w.atWrite, Planned(w.atWrite, like), p);
    }
    var outcome := bank.MergeAll(digest, proposals, clock.batch, clock.archivedAt, clock.tick);
    if outcome.MergeAborted? {
      return Traceback;
    }
    var afterCount := |LiveIds(bank.table)| + w.drift;
    if Some(h.Of(proposals)) != file.value.digest {
      return Code(5);
    }
    if afterCount != |w.atWrite| - outcome.merged {
      return Code(3);
    }
    return Code(0);
  }

  lemma DuplicatesGo(rows: seq<Row>, p: Planning, q: Proposal)
    requires WellPlanned(rows, p) && q in p.proposals
    ensures q.survivor != q.duplicate
  {
    var k :| 0 <= k < |p.proposals| && p.proposals[k] == q;
    assert Has(p.kept, p.proposals[k].survivor) && !Has(p.kept, p.proposals[k].duplicate);
  }

  /** Each merge archives one row. */
  lemma {:induction false} MergesAreCounted(t: Table, digest: Star -> int, ms: seq<Merge>)
    requires AllPossible(t, digest, ms)
    ensures |LiveIds(Folds(t, digest, ms))| == |LiveIds(t)| - |ms|
  {
    if ms != [] {
      var u, m := Folds(t, digest, ms[..|ms| - 1]), ms[|ms| - 1];
      MergesAreCounted(t, digest, ms[..|ms| - 1]);
      assert LiveIds(Fold(u, digest, m)) == LiveIds(u) - {m.duplicate};
    }
  }

  lemma {:induction false} SoundIsPossible(t: Table, digest: Star -> int, ms: seq<Merge>)
    requires Sound(t, digest, ms)
    ensures AllPossible(t, digest, ms)
  {
    if ms != [] {
      SoundIsPossible(t, digest, ms[..|ms| - 1]);
    }
  }

  lemma {:induction false} RowsAreCounted(rows: seq<Row>, ids: set<StoryId>)
    requires DistinctIds(rows) && forall id :: id in ids <==> Has(rows, id)
    ensures |ids| == |rows|
  {
    if rows == [] {
      assert forall id :: !Has(rows, id);
      assert ids == {};
    } else {
      var n := |rows| - 1;
      forall id ensures id in ids - {rows[n].id} <==> Has(rows[..n], id) {
        HasSnoc(rows, id);
      }
      assert rows[n].id in ids by {
        assert Has(rows, rows[n].id);
      }
      RowsAreCounted(rows[..n], ids - {rows[n].id});
    }
  }

  /** Without other writers the sweep can be carried out, and its counts add up. */
  lemma QuietSweepReconciles(t: Table, digest: Star -> int, rows: seq<Row>, like: Likeness, clock: Clock)
    requires ListsLive(rows, t)
    ensures var ps := Planned(rows, like).proposals;
            var ms := MergesOf(ps, clock.batch, clock.archivedAt, clock.tick);
            AllPossible(t, digest, ms) && |LiveIds(Folds(t, digest, ms))| == |rows| - |ps|
  {
    PlanRuns(t, digest, rows, like, clock.batch, clock.archivedAt, clock.tick);
    var ms := MergesOf(Planned(rows, like).proposals, clock.batch, clock.archivedAt, clock.tick);
    SoundIsPossible(t, digest, ms);
    MergesAreCounted(t, digest, ms);
    forall id ensures id in LiveIds(t) <==> Has(rows, id) {
      if Has(rows, id) {
        var i :| 0 <= i < |rows| && rows[i].id == id;
        assert RowIn(rows[i], t);
      }
    }
    RowsAreCounted(rows, LiveIds(t));
  }

  /** Exit 0 of a real sweep, whoever wrote between the check, the plan, the transaction and the
      count: the plan was signed for this user, what was carried out is any plan with the signed
      digest up to order, and the counts add up. */
  lemma ExitZeroRunsTheReviewedPlan(args: Args, plan: PlanArg, space: char -> bool, likeness: bool -> Likeness, h: Hashing,
                                    digest: Star -> int, w: World, table: Table, clock: Clock, reviewed: seq<Proposal>)
    requires IsTotalOrder(h.le) && Injective(h.hash) && args.apply
    requires Sweep(args, plan, space, likeness, h, digest, w, table, clock).0 == Code(0)
    ensures Reviewed(args, plan, space)
    ensures var executed := Planned(w.atWrite, likeness(args.conservative)).proposals;
            var after := Sweep(args, plan, space, likeness, h, digest, w, table, clock).1;
            && (Some(h.Of(reviewed)) == plan.file.digest ==> Rearranged(Triples(executed, h.json), Triples(reviewed, h.json)))
            && after == Folds(table, digest, MergesOf(executed, clock.batch, clock.archivedAt, clock.tick))
            && |LiveIds(table)| - |executed| + w.drift == |w.atWrite| - |executed|
  {
    var executed := Planned(w.atWrite, likeness(args.conservative)).proposals;
    DigestIff(executed, reviewed, h.json, h.le, h.hash);
    MergesAreCounted(table, digest, MergesOf(executed, clock.batch, clock.archivedAt, clock.tick));
  }

  /** Rows listed by age, no two stories of one age. */
  ghost predicate AgesDiffer(rows: seq<Row>, created: StoryId -> int) {
    forall i, j | 0 <= i < j < |rows| :: created(rows[i].id) < created(rows[j].id)
  }

  /** If moreover the signed plan was made from rows of different ages, and so was the one carried
      out, the two are the same merge by merge. */
  lemma ExitZeroRunsItInOrder(args: Args, plan: PlanArg, space: char -> bool, likeness: bool -> Likeness, h: Hashing,
                              digest: Star -> int, w: World, table: Table, clock: Clock, read: seq<Row>, created: StoryId -> int)
    requires IsTotalOrder(h.le) && Injective(h.hash) && Injective(h.json) && args.apply
    requires Sweep(args, plan, space, likeness, h, digest, w, table, clock).0 == Code(0)
    requires Reviewed(args, plan, space)
             && Some(h.Of(Planned(read, likeness(args.conservative)).proposals)) == plan.file.digest
    requires AgesDiffer(read, created) && AgesDiffer(w.atWrite, created)
    ensures var p, q := Planned(w.atWrite, likeness(args.conservative)).proposals, Planned(read, likeness(args.conservative)).proposals;
            |p| == |q| && forall i | 0 <= i < |p| :: SameMerge(p[i], q[i])
  {
    var like := likeness(args.conservative);
    var p, q := Planned(w.atWrite, like).proposals, Planned(read, like).proposals;
    ExitZeroRunsTheReviewedPlan(args, plan, space, likeness, h, digest, w, table, clock, q);
    PlansAreOldestFirst(read, like, created);
    PlansAreOldestFirst(w.atWrite, like, created);
    DigestFixesThePlan(p, q, created, h.json);
    SameTriples(p, q, h.json);
  }

  /** And whatever the ages elsewhere, a survivor ends up with the reviewed wording if in the plan that
      was read its youngest duplicates agree on one. */
  lemma ExitZeroWritesTheReviewedWording(args: Args, plan: PlanArg, space: char -> bool, likeness: bool -> Likeness, h: Hashing,
                                         digest: Star -> int, w: World, table: Table, clock: Clock, read: seq<Row>,
                                         created: StoryId -> int, s: StoryId)
    requires IsTotalOrder(h.le) && Injective(h.hash) && args.apply
    requires Sweep(args, plan, space, likeness, h, digest, w, table, clock).0 == Code(0)
    requires Reviewed(args, plan, space)
             && Some(h.Of(Planned(read, likeness(args.conservative)).proposals)) == plan.file.digest
    requires ByAge(read, created) && ByAge(w.atWrite, created)
    requires YoungestAgree(Triples(Planned(read, likeness(args.conservative)).proposals, h.json), created, s)
    ensures LastInto(Triples(Planned(w.atWrite, likeness(args.conservative)).proposals, h.json), s)
         == LastInto(Triples(Planned(read, likeness(args.conservative)).proposals, h.json), s)
  {
    var like := likeness(args.conservative);
    var p, q := Planned(w.atWrite, like).proposals, Planned(read, like).proposals;
    ExitZeroRunsTheReviewedPlan(args, plan, space, likeness, h, digest, w, table, clock, q);
    PlansAreByAge(read, like, created, h.json);
    PlansAreByAge(w.atWrite, like, created, h.json);
    DigestFixesTheWording(Triples(q, h.json), Triples(p, h.json), created, s);
  }

  lemma SameTriples(p: seq<Proposal>, q: seq<Proposal>, json: Content -> string)
    requires Injective(json) && Triples(p, json) == Triples(q, json)
    ensures |p| == |q| && forall i | 0 <= i < |p| :: SameMerge(p[i], q[i])
  {
    assert |p| == |Triples(p, json)| == |q|;
    forall i | 0 <= i < |p| ensures SameMerge(p[i], q[i]) {
      assert Triples(p, json)[i] == Triples(q, json)[i];
    }
  }
}
