/** When two stories tell the same achievement (apps/api/app/services/story_paraphrase.py). */
module Paraphrase {
  import opened Shared
  import opened StoryRemediation

  /** Lower-casing, and the words that do not count. */
  datatype Reader = Reader(lower: string -> string, stopwords: set<string>) {
    /** What ASCII fixes. */
    ghost predicate Valid() {
      forall s | IsLower(s) :: lower(s) == s
    }
  }

  predicate StartsWord(c: char) {
    'a' <= c <= 'z' || '0' <= c <= '9'
  }

  predicate InWord(c: char) {
    StartsWord(c) || c in {'+', '#', '.', '/', '-'}
  }

  /** Words of small letters and digits with spaces between. */
  predicate IsLower(s: string) {
    forall i | 0 <= i < |s| :: StartsWord(s[i]) || s[i] == ' '
  }

  function RunOf(s: string): (k: nat)
    ensures k <= |s|
  {
    if s == "" || !InWord(s[0]) then 0 else 1 + RunOf(s[1..])
  }

  /** Every maximal match of `[a-z0-9][a-z0-9+#./-]*`. */
  function Words(s: string): seq<string>
    decreases |s|
  {
    if s == "" then []
    else if StartsWord(s[0]) then [s[..RunOf(s)]] + Words(s[RunOf(s)..])
    else Words(s[1..])
  }

  /** _significant_tokens */
  function Keywords(text: string, r: Reader): set<string> {
    set w | w in Words(r.lower(text)) && |w| >= 3 && w !in r.stopwords
  }

  function Text(s: Star, f: Field): string {
    if f in s then s[f] else ""
  }

  function First(s: string, n: nat): string {
    if |s| <= n then s else s[..n]
  }

  function TitleKeys(s: Star, r: Reader): set<string> {
    Keywords(Text(s, Title), r)
  }

  function AchievementKeys(s: Star, r: Reader): set<string> {
    Keywords(First(Text(s, Action) + " " + Text(s, Result), 250), r)
  }

  datatype Thresholds = Thresholds(titleRatio: real, titleShared: nat, achievementRatio: real, achievementShared: nat)

  const CREATE_TIME := Thresholds(0.70, 4, 0.30, 5)
  const BULK_MIGRATION := Thresholds(0.60, 4, 0.30, 5)

  /** The Jaccard ratio and the shared count clear their floors; an empty side shares nothing. */
  predicate Clears(a: set<string>, b: set<string>, ratio: real, shared: nat) {
    var common := if a == {} || b == {} then 0 else |a * b|;
    var jaccard := if common == 0 then 0.0 else common as real / |a + b| as real;
    jaccard >= ratio && common >= shared
  }

  /** is_paraphrase_match */
  predicate Matches(a: Star, b: Star, t: Thresholds, r: Reader) {
    && Clears(TitleKeys(a, r), TitleKeys(b, r), t.titleRatio, t.titleShared)
    && Clears(AchievementKeys(a, r), AchievementKeys(b, r), t.achievementRatio, t.achievementShared)
  }

  lemma ClearsEitherWay(a: set<string>, b: set<string>, ratio: real, shared: nat)
    ensures Clears(a, b, ratio, shared) == Clears(b, a, ratio, shared)
  {
    assert a * b == b * a && a + b == b + a;
  }

  lemma MatchesEitherWay(a: Star, b: Star, t: Thresholds, r: Reader)
    ensures Matches(a, b, t, r) == Matches(b, a, t, r)
  {
    ClearsEitherWay(TitleKeys(a, r), TitleKeys(b, r), t.titleRatio, t.titleShared);
    ClearsEitherWay(AchievementKeys(a, r), AchievementKeys(b, r), t.achievementRatio, t.achievementShared);
  }

  /** A story whose title has fewer keywords than the floor is not even like itself. */
  lemma ShortTitleMatchesNothing(a: Star, b: Star, t: Thresholds, r: Reader)
    requires |TitleKeys(a, r)| < t.titleShared
    ensures !Matches(a, b, t, r) && !Matches(b, a, t, r)
  {
    var x, y := TitleKeys(a, r), TitleKeys(b, r);
    SubsetIsSmaller(x * y, x);
    MatchesEitherWay(a, b, t, r);
  }

  lemma SubsetIsSmaller(x: set<string>, y: set<string>)
    requires x <= y
    ensures |x| <= |y|
  {
    assert y == x + (y - x);
  }

  // ------------------------------------------------------------- stories made of keywords

  predicate IsKeyword(w: string, r: Reader) {
    |w| >= 3 && w !in r.stopwords && forall i | 0 <= i < |w| :: StartsWord(w[i])
  }

  function Spaced(ws: seq<string>): string {
    if ws == [] then "" else if |ws| == 1 then ws[0] else ws[0] + " " + Spaced(ws[1..])
  }

  lemma {:induction false} RunIs(w: string, rest: string)
    requires forall i | 0 <= i < |w| :: StartsWord(w[i])
    requires rest == "" || !InWord(rest[0])
    ensures RunOf(w + rest) == |w|
  {
    if w == "" {
      assert w + rest == rest;
    } else {
      assert (w + rest)[1..] == w[1..] + rest;
      RunIs(w[1..], rest);
    }
  }

  lemma WordOff(w: string, rest: string)
    requires w != "" && forall i | 0 <= i < |w| :: StartsWord(w[i])
    requires rest == "" || !InWord(rest[0])
    ensures Words(w + rest) == [w] + Words(rest)
  {
    RunIs(w, rest);
    assert (w + rest)[..|w|] == w && (w + rest)[|w|..] == rest;
  }

  lemma SpaceOff(rest: string)
    ensures Words(" " + rest) == Words(rest)
  {
    assert (" " + rest)[1..] == rest;
  }

  lemma {:induction false} WordsOfSpaced(ws: seq<string>, r: Reader)
    requires forall i | 0 <= i < |ws| :: IsKeyword(ws[i], r)
    ensures Words(Spaced(ws)) == ws && IsLower(Spaced(ws))
  {
    if |ws| == 1 {
      assert ws[0] + "" == ws[0];
      WordOff(ws[0], "");
    } else if |ws| > 1 {
      WordsOfSpaced(ws[1..], r);
      SpaceOff(Spaced(ws[1..]));
      WordOff(ws[0], " " + Spaced(ws[1..]));
      assert ws[0] + " " + Spaced(ws[1..]) == ws[0] + (" " + Spaced(ws[1..]));
    }
  }

  lemma KeywordsOfSpaced(ws: seq<string>, r: Reader)
    requires r.Valid() && forall i | 0 <= i < |ws| :: IsKeyword(ws[i], r)
    ensures Keywords(Spaced(ws), r) == Members(ws)
  {
    WordsOfSpaced(ws, r);
  }

  /** A story with these words in the title; what was done, and what came of it. */
  function Telling(title: seq<string>, action: seq<string>, result: seq<string>): Star {
    map[Title := Spaced(title), Action := Spaced(action), Result := Spaced(result)]
  }

  lemma {:induction false} SpacedTogether(a: seq<string>, b: seq<string>)
    requires a != [] && b != []
    ensures Spaced(a) + " " + Spaced(b) == Spaced(a + b)
  {
    if |a| == 1 {
      assert (a + b)[1..] == b;
    } else {
      assert (a + b)[1..] == a[1..] + b;
      SpacedTogether(a[1..], b);
      assert a[0] + " " + Spaced(a[1..]) + " " + Spaced(b) == a[0] + " " + (Spaced(a[1..]) + " " + Spaced(b));
    }
  }

  lemma TellingKeys(title: seq<string>, action: seq<string>, result: seq<string>, r: Reader)
    requires r.Valid() && action != [] && result != [] && |Spaced(action + result)| <= 250
    requires forall i | 0 <= i < |title| :: IsKeyword(title[i], r)
    requires forall i | 0 <= i < |action + result| :: IsKeyword((action + result)[i], r)
    ensures var s := Telling(title, action, result);
            TitleKeys(s, r) == Members(title) && AchievementKeys(s, r) == Members(action + result)
  {
    TellingTitle(title, action, result, r);
    TellingAchievement(title, action, result, r);
  }

  lemma TellingTitle(title: seq<string>, action: seq<string>, result: seq<string>, r: Reader)
    requires r.Valid() && forall i | 0 <= i < |title| :: IsKeyword(title[i], r)
    ensures TitleKeys(Telling(title, action, result), r) == Members(title)
  {
    KeywordsOfSpaced(title, r);
  }

  lemma TellingAchievement(title: seq<string>, action: seq<string>, result: seq<string>, r: Reader)
    requires r.Valid() && action != [] && result != [] && |Spaced(action + result)| <= 250
    requires forall i | 0 <= i < |action + result| :: IsKeyword((action + result)[i], r)
    ensures AchievementKeys(Telling(title, action, result), r) == Members(action + result)
  {
    KeywordsOfSpaced(action + result, r);
    SpacedTogether(action, result);
  }

  // --------------------------------------------------------------- near and far titles

  /** What a witness is made of: eight different keywords for titles and five for one achievement. */
  ghost predicate Material(ws: seq<string>, action: seq<string>, result: seq<string>, r: Reader) {
    && r.Valid() && |ws| == 8 && Different(ws) && (forall i | 0 <= i < |ws| :: IsKeyword(ws[i], r))
    && action != [] && result != [] && |action + result| == 5 && Different(action + result)
    && (forall i | 0 <= i < |action + result| :: IsKeyword((action + result)[i], r))
    && |Spaced(action + result)| <= 250
  }

  predicate Different(ws: seq<string>) {
    forall i, j | 0 <= i < j < |ws| :: ws[i] != ws[j]
  }

  lemma {:induction false} SizeOf(ws: seq<string>)
    requires Different(ws)
    ensures |Members(ws)| == |ws|
  {
    if ws == [] {
      assert Members(ws) == {};
    } else {
      var n := |ws| - 1;
      SizeOf(ws[..n]);
      assert ws[n] !in ws[..n];
      assert Members(ws) == Members(ws[..n]) + {ws[n]};
    }
  }

  /** Six keywords each, so many of them shared. */
  lemma ClearsBy(a: seq<string>, b: seq<string>, common: seq<string>, all: seq<string>, ratio: real, shared: nat)
    requires Different(common) && Different(all) && a != [] && b != [] && common != [] && all != []
    requires Members(a) * Members(b) == Members(common) && Members(a) + Members(b) == Members(all)
    ensures Clears(Members(a), Members(b), ratio, shared)
       <==> |common| as real / |all| as real >= ratio && |common| >= shared
  {
    SizeOf(common);
    SizeOf(all);
    assert a[0] in Members(a) && b[0] in Members(b);
  }

  /** The titles of words i..i+6. */
  function Six(ws: seq<string>, i: nat): seq<string>
    requires i + 6 <= |ws|
  {
    ws[i..i + 6]
  }

  lemma SameAchievement(title: seq<string>, title': seq<string>, ws: seq<string>, action: seq<string>, result: seq<string>,
                        t: Thresholds, r: Reader)
    requires Material(ws, action, result, r) && (t == CREATE_TIME || t == BULK_MIGRATION)
    requires (forall i | 0 <= i < |title| :: IsKeyword(title[i], r)) && forall i | 0 <= i < |title'| :: IsKeyword(title'[i], r)
    ensures Matches(Telling(title, action, result), Telling(title', action, result), t, r)
       <==> Clears(Members(title), Members(title'), t.titleRatio, t.titleShared)
  {
    TellingKeys(title, action, result, r);
    TellingKeys(title', action, result, r);
    var done := action + result;
    ClearsBy(done, done, done, done, t.achievementRatio, t.achievementShared);
  }

  /** Five shared words of seven are enough for both presets, four of eight for neither. */
  lemma Ratios(shared: nat, t: Thresholds)
    requires (shared == 5 || shared == 4) && (t == CREATE_TIME || t == BULK_MIGRATION)
    ensures shared as real / (12 - shared) as real >= t.titleRatio && shared >= t.titleShared <==> shared == 5
  {
  }

  lemma SharedOf(ws: seq<string>, i: nat, j: nat)
    requires Different(ws) && i < j && j + 6 <= |ws| && j <= i + 6
    ensures Members(Six(ws, j)) * Members(Six(ws, i)) == Members(ws[j..i + 6])
  {
    var a, b, common := Six(ws, j), Six(ws, i), ws[j..i + 6];
    forall w ensures w in a && w in b <==> w in common {
      if w in a && w in b {
        var k :| 0 <= k < 6 && a[k] == w;
        var l :| 0 <= l < 6 && b[l] == w;
        assert ws[j + k] == ws[i + l];
        assert common[k] == w;
      }
      if w in common {
        var k :| 0 <= k < i + 6 - j && common[k] == w;
        assert a[k] == w && b[k + j - i] == w;
      }
    }
  }

  lemma UnionOf(ws: seq<string>, i: nat, j: nat)
    requires i < j && j + 6 <= |ws| && j <= i + 6
    ensures Members(Six(ws, j)) + Members(Six(ws, i)) == Members(ws[i..j + 6])
  {
    var a, b, all := Six(ws, j), Six(ws, i), ws[i..j + 6];
    forall w ensures w in a || w in b <==> w in all {
      if w in all {
        var k :| 0 <= k < j + 6 - i && all[k] == w;
        if k < 6 {
          assert b[k] == w;
        } else {
          assert a[k + i - j] == w;
        }
      }
      if w in a {
        var k :| 0 <= k < 6 && a[k] == w;
        assert all[k + j - i] == w;
      }
      if w in b {
        var k :| 0 <= k < 6 && b[k] == w;
        assert all[k] == w;
      }
    }
  }

  lemma Overlap(ws: seq<string>, i: nat, j: nat, t: Thresholds)
    requires Different(ws) && i < j && j + 6 <= |ws| && j <= i + 2 && (t == CREATE_TIME || t == BULK_MIGRATION)
    ensures Clears(Members(Six(ws, j)), Members(Six(ws, i)), t.titleRatio, t.titleShared) <==> j == i + 1
  {
    SharedOf(ws, i, j);
    UnionOf(ws, i, j);
    Ratios(i + 6 - j, t);
    ClearsBy(Six(ws, j), Six(ws, i), ws[j..i + 6], ws[i..j + 6], t.titleRatio, t.titleShared);
  }

  /** A title shifted by one word still matches, one shifted by two does not. */
  lemma NeighboursMatch(ws: seq<string>, action: seq<string>, result: seq<string>, t: Thresholds, r: Reader)
    requires Material(ws, action, result, r) && (t == CREATE_TIME || t == BULK_MIGRATION)
    ensures var a, b, c := Telling(Six(ws, 0), action, result), Telling(Six(ws, 1), action, result), Telling(Six(ws, 2), action, result);
            Matches(b, a, t, r) && Matches(c, b, t, r) && !Matches(c, a, t, r)
  {
    SameAchievement(Six(ws, 1), Six(ws, 0), ws, action, result, t, r);
    SameAchievement(Six(ws, 2), Six(ws, 1), ws, action, result, t, r);
    SameAchievement(Six(ws, 2), Six(ws, 0), ws, action, result, t, r);
    Overlap(ws, 0, 1, t);
    Overlap(ws, 1, 2, t);
    Overlap(ws, 0, 2, t);
  }

  /** The first five words and one more. */
  function FiveAnd(ws: seq<string>, k: nat): seq<string>
    requires 5 <= k < |ws|
  {
    ws[..5] + [ws[k]]
  }

  lemma FiveShared(ws: seq<string>, k: nat, l: nat)
    requires Different(ws) && 5 <= k < |ws| && 5 <= l < |ws| && k != l
    ensures Members(FiveAnd(ws, k)) * Members(FiveAnd(ws, l)) == Members(ws[..5])
    ensures Members(FiveAnd(ws, k)) + Members(FiveAnd(ws, l)) == Members(ws[..5] + [ws[k], ws[l]])
    ensures Different(ws[..5]) && Different(ws[..5] + [ws[k], ws[l]])
  {
    var five := ws[..5];
    forall w ensures w in FiveAnd(ws, k) && w in FiveAnd(ws, l) <==> w in five {
      assert w in FiveAnd(ws, k) <==> w in five || w == ws[k];
      assert w in FiveAnd(ws, l) <==> w in five || w == ws[l];
    }
    assert forall w :: w in five + [ws[k], ws[l]] <==> w in five || w == ws[k] || w == ws[l];
  }

  /** Any two of the titles that share five words match. */
  lemma FiveAndOneMatch(ws: seq<string>, k: nat, l: nat, action: seq<string>, result: seq<string>, t: Thresholds, r: Reader)
    requires Material(ws, action, result, r) && (t == CREATE_TIME || t == BULK_MIGRATION)
    requires 5 <= k < |ws| && 5 <= l < |ws| && k != l
    ensures Matches(Telling(FiveAnd(ws, k), action, result), Telling(FiveAnd(ws, l), action, result), t, r)
  {
    SameAchievement(FiveAnd(ws, k), FiveAnd(ws, l), ws, action, result, t, r);
    FiveShared(ws, k, l);
    Ratios(5, t);
    ClearsBy(FiveAnd(ws, k), FiveAnd(ws, l), ws[..5], ws[..5] + [ws[k], ws[l]], t.titleRatio, t.titleShared);
  }

  lemma TheyDiffer(ws: seq<string>, k: nat, l: nat, action: seq<string>, result: seq<string>, r: Reader)
    requires Material(ws, action, result, r) && 5 <= k < |ws| && 5 <= l < |ws| && k != l
    ensures Telling(FiveAnd(ws, k), action, result) != Telling(FiveAnd(ws, l), action, result)
  {
    TellingTitle(FiveAnd(ws, k), action, result, r);
    TellingTitle(FiveAnd(ws, l), action, result, r);
    assert FiveAnd(ws, k)[5] == ws[k];
    assert ws[k] in Members(FiveAnd(ws, k)) && ws[k] !in Members(FiveAnd(ws, l));
  }

  // ------------------------------------------------------------- there is such material

  function Repeated(cs: string): (ws: seq<string>)
    ensures |ws| == |cs|
  {
    seq(|cs|, i requires 0 <= i < |cs| => [cs[i], cs[i], cs[i], cs[i], cs[i], cs[i]])
  }

  lemma RepeatedAreKeywords(cs: string, r: Reader)
    requires (forall i | 0 <= i < |cs| :: 'a' <= cs[i] <= 'z') && forall i, j | 0 <= i < j < |cs| :: cs[i] != cs[j]
    requires NoneRepeated(r.stopwords)
    ensures Different(Repeated(cs)) && forall i | 0 <= i < |cs| :: IsKeyword(Repeated(cs)[i], r)
  {
    var ws := Repeated(cs);
    forall i, j | 0 <= i < j < |ws| ensures ws[i] != ws[j] {
      assert ws[i][0] == cs[i] && ws[j][0] == cs[j];
    }
  }

  lemma {:induction false} SpacedLength(ws: seq<string>)
    requires forall i | 0 <= i < |ws| :: |ws[i]| == 6
    ensures |Spaced(ws)| <= 7 * |ws|
  {
    if |ws| > 1 {
      SpacedLength(ws[1..]);
    }
  }

  /** No word is one letter six times; no stop word of the code is. */
  predicate NoneRepeated(words: set<string>) {
    forall w | w in words :: |w| < 6 || w[0] != w[1]
  }

  lemma SomeMaterial(r: Reader)
    requires r.Valid() && NoneRepeated(r.stopwords)
    ensures Material(Repeated("abcdefgh"), Repeated("abc"), Repeated("de"), r)
  {
    RepeatedAreKeywords("abcdefgh", r);
    RepeatedAreKeywords("abcde", r);
    assert Repeated("abc") + Repeated("de") == Repeated("abcde");
    SpacedLength(Repeated("abcde"));
  }
}
