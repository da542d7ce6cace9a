/** Breaking a paragraph into lines (scripts/generate_ba_resume.py). */
module Wrap {

  /** What the page offers: the width of each character of the font, and which are blank. */
  datatype Page = Page(charWidth: char -> real, blank: char -> bool, width: real) {
    ghost predicate Valid() {
      blank(' ') && forall c :: charWidth(c) >= 0.0
    }
  }

  function TextWidth(s: string, page: Page): real {
    if s == [] then 0.0 else TextWidth(s[..|s| - 1], page) + page.charWidth(s[|s| - 1])
  }

  predicate IsWord(s: string, page: Page) {
    s != [] && forall i | 0 <= i < |s| :: !page.blank(s[i])
  }

  /** `str.split` */
  function Split(s: string, page: Page): (words: seq<string>)
    ensures forall i | 0 <= i < |words| :: IsWord(words[i], page)
  {
    if s == [] then []
    else
      var n := |s| - 1;
      var front := Split(s[..n], page);
      if page.blank(s[n]) then front
      else if n == 0 || page.blank(s[n - 1]) || front == [] then front + [[s[n]]]
      else front[|front| - 1 := front[|front| - 1] + [s[n]]]
  }

  function StripLeft(s: string, page: Page): string {
    if s != [] && page.blank(s[0]) then StripLeft(s[1..], page) else s
  }

  function StripRight(s: string, page: Page): string {
    if s != [] && page.blank(s[|s| - 1]) then StripRight(s[..|s| - 1], page) else s
  }

  function Strip(s: string, page: Page): string {
    StripRight(StripLeft(s, page), page)
  }

  /** The words of one line with single spaces between them. */
  function Join(words: seq<string>): string {
    if words == [] then ""
    else if |words| == 1 then words[0]
    else Join(words[..|words| - 1]) + " " + words[|words| - 1]
  }

  predicate Fits(words: seq<string>, page: Page) {
    TextWidth(Join(words), page) <= page.width
  }

  /** Each word goes on the current line if that still fits, and starts a new line otherwise. */
  function Greedy(words: seq<string>, page: Page): (lines: seq<seq<string>>)
    ensures words != [] ==> lines != []
    ensures forall i | 0 <= i < |lines| :: lines[i] != []
  {
    if words == [] then []
    else
      var n := |words| - 1;
      var lines, w := Greedy(words[..n], page), words[n];
      if lines != [] && Fits(lines[|lines| - 1] + [w], page) then lines[|lines| - 1 := lines[|lines| - 1] + [w]]
      else lines + [[w]]
  }

  function Texts(lines: seq<seq<string>>): (r: seq<string>)
    ensures |r| == |lines|
  {
    seq(|lines|, i requires 0 <= i < |lines| => Join(lines[i]))
  }

  method WrapText(text: string, page: Page) returns (lines: seq<string>)
    requires page.Valid()
    ensures lines == Texts(Greedy(Split(text, page), page))
  {
    var words := Split(text, page);
    var cur: string;
    lines, cur := [], "";
    for i := 0 to |words|
      invariant Written(lines, cur, Greedy(words[..i], page))
      invariant cur == "" <==> i == 0
    {
      var word := words[i];
      NextWord(words, i, lines, cur, page);
      var trial := Strip(cur + " " + word, page);
      if TextWidth(trial, page) <= page.width {
        cur := trial;
      } else {
        if cur != "" {
          lines := lines + [cur];
        }
        cur := word;
      }
    }
    assert words[..|words|] == words;
    if cur != "" {
      lines := lines + [cur];
    }
  }

  lemma NextWord(words: seq<string>, i: nat, lines: seq<string>, cur: string, page: Page)
    requires page.Valid() && i < |words| && forall j | 0 <= j < |words| :: IsWord(words[j], page)
    requires Written(lines, cur, Greedy(words[..i], page)) && (cur == "" <==> i == 0)
    ensures var w, trial, layout := words[i], Strip(cur + " " + words[i], page), Greedy(words[..i + 1], page);
            if TextWidth(trial, page) <= page.width then trial != "" && Written(lines, trial, layout)
            else w != "" && Written(lines + (if cur == "" then [] else [cur]), w, layout)
  {
    assert words[..i + 1][..i] == words[..i] && words[..i + 1][i] == words[i];
    GreedyWords(words[..i], page);
    CurrentLine(words[..i], words[i], cur, page);
    NextLine(words[..i + 1], lines, cur, page);
  }

  /** All lines but the current one are out. */
  predicate Written(lines: seq<string>, cur: string, layout: seq<seq<string>>) {
    if cur == "" then lines == [] && layout == []
    else layout != [] && lines == Texts(layout[..|layout| - 1]) && cur == Join(Last(layout))
  }

  lemma NextLine(words: seq<string>, lines: seq<string>, cur: string, page: Page)
    requires words != [] && Written(lines, cur, Greedy(words[..|words| - 1], page)) && words[|words| - 1] != ""
    ensures var w, layout := words[|words| - 1], Greedy(words[..|words| - 1], page);
            if cur != "" && Fits(Last(layout) + [w], page)
            then Join(Last(layout) + [w]) != "" && Written(lines, Join(Last(layout) + [w]), Greedy(words, page))
            else Written(lines + (if cur == "" then [] else [cur]), w, Greedy(words, page))
  {
    var w, layout := words[|words| - 1], Greedy(words[..|words| - 1], page);
    if cur != "" {
      LongerLine(layout, w);
      NewLine(layout, w);
    }
  }

  lemma LongerLine(layout: seq<seq<string>>, w: string)
    requires layout != [] && Last(layout) != [] && w != ""
    ensures var longer := layout[|layout| - 1 := Last(layout) + [w]];
            longer[..|layout| - 1] == layout[..|layout| - 1] && Last(longer) == Last(layout) + [w]
    ensures Join(Last(layout) + [w]) != ""
  {
    assert (Last(layout) + [w])[..|Last(layout)|] == Last(layout);
  }

  lemma NewLine(layout: seq<seq<string>>, w: string)
    requires layout != []
    ensures (layout + [[w]])[..|layout|] == layout && Last(layout + [[w]]) == [w] && Join([w]) == w
    ensures Texts(layout) == Texts(layout[..|layout| - 1]) + [Join(Last(layout))]
  {
  }

  function Last<T>(s: seq<T>): T
    requires s != []
  {
    s[|s| - 1]
  }

  // ----------------------------------------------------------------- one turn of the loop

  lemma {:induction false} GreedyWords(words: seq<string>, page: Page)
    requires forall i | 0 <= i < |words| :: IsWord(words[i], page)
    ensures forall i, j | 0 <= i < |Greedy(words, page)| && 0 <= j < |Greedy(words, page)[i]| ::
              IsWord(Greedy(words, page)[i][j], page)
  {
    if words != [] {
      GreedyWords(words[..|words| - 1], page);
    }
  }

  lemma {:induction false} JoinEnds(words: seq<string>, page: Page)
    requires words != [] && forall i | 0 <= i < |words| :: IsWord(words[i], page)
    ensures var s := Join(words); s != [] && !page.blank(s[0]) && !page.blank(s[|s| - 1])
  {
    if |words| > 1 {
      JoinEnds(words[..|words| - 1], page);
    }
  }

  /** Stripping only matters before the first word. */
  lemma TrialIs(cur: string, word: string, page: Page)
    requires page.Valid() && IsWord(word, page) && (cur != "" ==> !page.blank(cur[0]))
    ensures Strip(cur + " " + word, page) == if cur == "" then word else cur + " " + word
  {
    var s := cur + " " + word;
    if cur == "" {
      assert s[0] == ' ' && s[1..] == word;
      assert StripLeft(s, page) == StripLeft(word, page) == word;
    } else {
      assert s[0] == cur[0];
    }
    assert s[|s| - 1] == word[|word| - 1];
  }

  lemma CurrentLine(words: seq<string>, word: string, cur: string, page: Page)
    requires page.Valid() && IsWord(word, page) && forall i | 0 <= i < |words| :: IsWord(words[i], page)
    requires forall i, j | 0 <= i < |Greedy(words, page)| && 0 <= j < |Greedy(words, page)[i]| ::
               IsWord(Greedy(words, page)[i][j], page)
    requires cur == "" <==> words == []
    requires words != [] ==> cur == Join(Last(Greedy(words, page)))
    ensures Strip(cur + " " + word, page) == if words == [] then word else Join(Last(Greedy(words, page)) + [word])
  {
    if words != [] {
      var last := Last(Greedy(words, page));
      JoinEnds(last, page);
      assert (last + [word])[..|last|] == last;
    }
    TrialIs(cur, word, page);
  }

  // --------------------------------------------------------------- what wrapping promises

  function Flat(lines: seq<seq<string>>): seq<string> {
    if lines == [] then [] else Flat(lines[..|lines| - 1]) + lines[|lines| - 1]
  }

  /** The words in order, on lines that fit unless a line is a single word. */
  ghost predicate Lays(lines: seq<seq<string>>, words: seq<string>, page: Page) {
    && Flat(lines) == words
    && forall i | 0 <= i < |lines| :: lines[i] != [] && (|lines[i]| == 1 || Fits(lines[i], page))
  }

  lemma {:induction false} GreedyLays(words: seq<string>, page: Page)
    ensures Lays(Greedy(words, page), words, page)
  {
    if words != [] {
      var n := |words| - 1;
      GreedyLays(words[..n], page);
      OneMoreWord(Greedy(words[..n], page), words[..n], words[n], page);
      assert words == words[..n] + [words[n]];
    }
  }

  lemma OneMoreWord(lines: seq<seq<string>>, words: seq<string>, w: string, page: Page)
    requires Lays(lines, words, page)
    ensures Lays(lines + [[w]], words + [w], page)
    ensures lines != [] && Fits(Last(lines) + [w], page) ==> Lays(lines[|lines| - 1 := Last(lines) + [w]], words + [w], page)
  {
    assert (lines + [[w]])[..|lines|] == lines;
    if lines != [] {
      assert lines[|lines| - 1 := Last(lines) + [w]][..|lines| - 1] == lines[..|lines| - 1];
    }
  }

  lemma {:induction false} WidthOfParts(s: string, t: string, page: Page)
    ensures TextWidth(s + t, page) == TextWidth(s, page) + TextWidth(t, page)
  {
    if t == [] {
      assert s + t == s;
    } else {
      assert (s + t)[..|s + t| - 1] == s + t[..|t| - 1];
      WidthOfParts(s, t[..|t| - 1], page);
    }
  }

  lemma {:induction false} WidthNonNegative(s: string, page: Page)
    requires page.Valid()
    ensures TextWidth(s, page) >= 0.0
  {
    if s != [] {
      WidthNonNegative(s[..|s| - 1], page);
    }
  }

  /** Fewer words at the front or at the back never take more room. */
  lemma {:induction false} SuffixIsNarrower(words: seq<string>, k: nat, page: Page)
    requires page.Valid() && k < |words|
    ensures TextWidth(Join(words[k..]), page) <= TextWidth(Join(words), page)
  {
    var n := |words| - 1;
    if k == 0 {
      assert words[k..] == words;
    } else if k == n {
      assert words[k..] == [words[n]];
      JoinWidth(words, page);
      WidthNonNegative(Join(words[..n]), page);
    } else {
      SuffixIsNarrower(words[..n], k, page);
      assert words[k..][..|words[k..]| - 1] == words[..n][k..];
      JoinWidth(words, page);
      JoinWidth(words[k..], page);
    }
  }

  lemma JoinWidth(words: seq<string>, page: Page)
    requires page.Valid() && |words| > 1
    ensures TextWidth(Join(words), page)
         == TextWidth(Join(words[..|words| - 1]), page) + page.charWidth(' ') + TextWidth(words[|words| - 1], page)
    ensures TextWidth(Join(words[..|words| - 1]), page) <= TextWidth(Join(words), page)
  {
    var n := |words| - 1;
    WidthOfParts(Join(words[..n]) + " ", words[n], page);
    WidthOfParts(Join(words[..n]), " ", page);
    assert TextWidth(" ", page) == TextWidth("", page) + page.charWidth(' ');
    WidthNonNegative(words[n], page);
  }

  /** A layout of one word fewer: what is left of the last line still fits. */
  lemma LastWordOff(other: seq<seq<string>>, words: seq<string>, page: Page) returns (fewer: seq<seq<string>>)
    requires page.Valid() && words != [] && Lays(other, words, page)
    ensures other != [] && Lays(fewer, words[..|words| - 1], page) && Last(Last(other)) == words[|words| - 1]
    ensures var line := Last(other);
            fewer == if |line| == 1 then other[..|other| - 1] else other[|other| - 1 := line[..|line| - 1]]
  {
    assert other != [];
    var m := |other| - 1;
    var line := other[m];
    assert words == Flat(other[..m]) + line;
    if |line| == 1 {
      fewer := other[..m];
    } else {
      fewer := other[m := line[..|line| - 1]];
      assert fewer[..m] == other[..m];
      assert Flat(fewer) == Flat(other[..m]) + line[..|line| - 1];
      JoinWidth(line, page);
    }
  }

  /** No layout has fewer lines, and one with as many has no fewer words on its last line. */
  lemma {:induction false} GreedyStaysAhead(words: seq<string>, other: seq<seq<string>>, page: Page)
    requires page.Valid() && Lays(other, words, page)
    ensures var lines := Greedy(words, page);
            && |lines| <= |other|
            && (words != [] && |lines| == |other| ==> |Last(lines)| <= |Last(other)|)
  {
    if words != [] {
      var n := |words| - 1;
      var fewer := LastWordOff(other, words, page);
      GreedyStaysAhead(words[..n], fewer, page);
      var lines := Greedy(words[..n], page);
      if |Last(other)| > 1 && |fewer| == |lines| {
        GreedyLays(words[..n], page);
        LastFitsToo(lines, fewer, words[..n], words[n], page);
      }
    }
  }

  /** If the longer last line takes one more word, so does the shorter. */
  lemma LastFitsToo(lines: seq<seq<string>>, other: seq<seq<string>>, words: seq<string>, w: string, page: Page)
    requires page.Valid() && lines != [] && other != []
    requires Flat(lines) == words && Flat(other) == words && Last(lines) != [] && |Last(lines)| <= |Last(other)|
    requires Fits(Last(other) + [w], page)
    ensures Fits(Last(lines) + [w], page)
  {
    var a, b := Last(lines), Last(other);
    var k := |b| - |a|;
    assert words == Flat(lines[..|lines| - 1]) + a && words == Flat(other[..|other| - 1]) + b;
    assert b[k..] == words[|words| - |a|..] == a;
    assert (b + [w])[k..] == a + [w];
    SuffixIsNarrower(b + [w], k, page);
  }

  /** Splitting the lines again gives the words back. */
  lemma {:induction false} SplitOfParts(s: string, word: string, page: Page)
    requires page.Valid() && IsWord(word, page)
    ensures Split(s + " " + word, page) == Split(s, page) + [word]
  {
    var t := s + " " + word;
    var n := |t| - 1;
    if |word| == 1 {
      assert t[..n] == s + " " && t[n] == word[0] && word == [word[0]];
      assert (s + " ")[..|s|] == s;
    } else {
      var front := word[..|word| - 1];
      SplitOfParts(s, front, page);
      assert t[..n] == s + " " + front && t[n - 1] == front[|front| - 1];
      assert word == front + [word[|word| - 1]];
    }
  }

  lemma {:induction false} SplitOneWord(word: string, page: Page)
    requires IsWord(word, page)
    ensures Split(word, page) == [word]
  {
    if |word| == 1 {
      assert word == [word[0]] && word[..0] == [];
    } else {
      SplitOneWord(word[..|word| - 1], page);
      assert word == word[..|word| - 1] + [word[|word| - 1]];
    }
  }

  lemma {:induction false} SplitOfJoin(words: seq<string>, page: Page)
    requires page.Valid() && forall i | 0 <= i < |words| :: IsWord(words[i], page)
    ensures Split(Join(words), page) == words
  {
    if |words| == 1 {
      SplitOneWord(words[0], page);
    } else if |words| > 1 {
      var n := |words| - 1;
      SplitOfJoin(words[..n], page);
      SplitOfParts(Join(words[..n]), words[n], page);
    }
  }

  function SplitAll(lines: seq<string>, page: Page): seq<string> {
    if lines == [] then [] else SplitAll(lines[..|lines| - 1], page) + Split(lines[|lines| - 1], page)
  }

  lemma {:induction false} SplitTexts(lines: seq<seq<string>>, page: Page)
    requires page.Valid()
    requires forall i, j | 0 <= i < |lines| && 0 <= j < |lines[i]| :: IsWord(lines[i][j], page)
    ensures SplitAll(Texts(lines), page) == Flat(lines)
  {
    if lines != [] {
      var n := |lines| - 1;
      assert Texts(lines)[..n] == Texts(lines[..n]);
      SplitTexts(lines[..n], page);
      SplitOfJoin(lines[n], page);
    }
  }

  /** For every text, font and width: the lines hold the words of the text in order, every line
      fits or is one word, and no other way to lay out the words has fewer lines. */
  lemma WrapIsBest(text: string, page: Page, other: seq<seq<string>>)
    requires page.Valid()
    ensures var words := Split(text, page);
            var lines := Texts(Greedy(words, page));
            && SplitAll(lines, page) == words
            && (forall i | 0 <= i < |lines| :: TextWidth(lines[i], page) <= page.width || |Split(lines[i], page)| == 1)
            && (Lays(other, words, page) ==> |lines| <= |other|)
  {
    var words := Split(text, page);
    var lines := Greedy(words, page);
    GreedyWords(words, page);
    GreedyLays(words, page);
    SplitTexts(lines, page);
    forall i | 0 <= i < |lines| ensures Split(Join(lines[i]), page) == lines[i] {
      SplitOfJoin(lines[i], page);
    }
    if Lays(other, words, page) {
      GreedyStaysAhead(words, other, page);
    }
  }
}
