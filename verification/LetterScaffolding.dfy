/** Taking a letter apart again (apps/api/app/agents/cover_letter_agent.py, build_body and
    strip_letter_scaffolding; split_paragraphs of services/cover_letter_quality.py).

    Lower-casing goes character by character.
 */
module LetterScaffolding {
  import opened LetterText

  /** What Unicode says of characters, and the list of closings: whole first lines, and what a
      sign-off may start with. */
  datatype Chars = Chars(lower: char -> char, isWord: char -> bool, isDigit: char -> bool, closings: set<string>,
                         openers: seq<string>) {
    /** What ASCII fixes, and what the list has in common. */
    ghost predicate Valid() {
      && (forall c | 'a' <= c <= 'z' || c == ' ' || c == ',' || c == ':' || IsMark(c) :: lower(c) == c)
      && lower('D') == 'd' && lower('H') == 'h' && lower('S') == 's' && lower('T') == 't'
      && (forall c | IsSpace(c) || IsMark(c) :: !isWord(c))
      && (forall c | c in closings :: c != "" && MayClose(c[0]))
      && (forall i | 0 <= i < |openers| :: openers[i] != "" && MayClose(openers[i][0]))
      && openers != [] && openers[0] == "sincerely"
    }

    function Low(s: string): string {
      seq(|s|, i requires 0 <= i < |s| => lower(s[i]))
    }
  }

  /** No sign-off starts with any other letter. */
  predicate MayClose(c: char) {
    c in {'s', 'k', 'w', 'b', 'y', 'r', 't'}
  }

  const OPENERS: seq<string> :=
    ["sincerely", "kind regards", "warm regards", "best regards", "yours sincerely", "yours faithfully", "regards",
     "best,", "thank you,"]

  /** The list the code has. */
  lemma TheListIsValid(cs: Chars)
    requires cs.Valid()
    ensures cs.(closings := CLOSINGS, openers := OPENERS).Valid()
  {
    assert forall c | c in CLOSINGS :: c != "" && MayClose(c[0]);
    assert forall i | 0 <= i < |OPENERS| :: OPENERS[i] != "" && MayClose(OPENERS[i][0]);
  }

  // ------------------------------------------------------------------ paragraphs

  function SpaceRun(s: string): (k: nat)
    ensures k <= |s|
  {
    if s != "" && IsSpace(s[0]) then 1 + SpaceRun(s[1..]) else 0
  }

  /** One past the last line feed among the first k characters, or 0. */
  function AfterLastFeed(s: string, k: nat): (e: nat)
    requires k <= |s|
    ensures e <= k
  {
    if k == 0 then 0 else if s[k - 1] == '\n' then k else AfterLastFeed(s, k - 1)
  }

  /** How much `\n\s*\n` matches at the start of s, or 0. */
  function BlankLine(s: string): (e: nat)
    ensures e <= |s|
  {
    if s == "" || s[0] != '\n' then 0
    else
      var last := AfterLastFeed(s[1..], SpaceRun(s[1..]));
      if last == 0 then 0 else 1 + last
  }

  /** `re.split(r"\n\s*\n", s)` */
  function Chunks(s: string): (r: seq<string>)
    ensures r != []
    decreases |s|
  {
    if s == "" then [""]
    else if BlankLine(s) > 0 then [""] + Chunks(s[BlankLine(s)..])
    else
      var rest := Chunks(s[1..]);
      [[s[0]] + rest[0]] + rest[1..]
  }

  function SplitAtFeeds(s: string): (r: seq<string>)
    ensures r != []
  {
    if s == "" then [""]
    else if s[0] == '\n' then [""] + SplitAtFeeds(s[1..])
    else
      var rest := SplitAtFeeds(s[1..]);
      [[s[0]] + rest[0]] + rest[1..]
  }

  function Trimmed(chunks: seq<string>): seq<string> {
    if chunks == [] then []
    else (if Strip(chunks[0]) == "" then [] else [Strip(chunks[0])]) + Trimmed(chunks[1..])
  }

  /** split_paragraphs */
  function Paragraphs(body: string): seq<string> {
    var ps := Trimmed(Chunks(body));
    if |ps| == 1 && '\n' in body then Trimmed(SplitAtFeeds(body)) else ps
  }

  function Join(ps: seq<string>): string {
    if ps == [] then "" else if |ps| == 1 then ps[0] else ps[0] + "\n\n" + Join(ps[1..])
  }

  /** One trimmed paragraph. */
  predicate Solid(p: string) {
    IsTrimmed(p) && NoBlankLine(p)
  }

  predicate IsTrimmed(s: string) {
    s != "" && !IsSpace(s[0]) && !IsSpace(s[|s| - 1])
  }

  predicate NoBlankLine(p: string) {
    forall i | 0 <= i < |p| :: BlankLine(p[i..]) == 0
  }

  lemma {:induction false} SpaceRunInside(p: string, rest: string)
    requires p != "" && !IsSpace(p[|p| - 1])
    ensures SpaceRun(p + rest) == SpaceRun(p) < |p|
  {
    if IsSpace(p[0]) {
      assert (p + rest)[1..] == p[1..] + rest;
      SpaceRunInside(p[1..], rest);
    }
  }

  lemma {:induction false} SameFeeds(s: string, t: string, k: nat)
    requires k <= |s| && k <= |t| && s[..k] == t[..k]
    ensures AfterLastFeed(s, k) == AfterLastFeed(t, k)
  {
    if k > 0 {
      assert s[k - 1] == s[..k][k - 1] && t[k - 1] == t[..k][k - 1];
      assert s[..k - 1] == s[..k][..k - 1] && t[..k - 1] == t[..k][..k - 1];
      SameFeeds(s, t, k - 1);
    }
  }

  lemma BlankLineInside(p: string, rest: string)
    requires p != "" && !IsSpace(p[|p| - 1])
    ensures BlankLine(p + rest) == BlankLine(p)
  {
    if p[0] == '\n' {
      assert |p| > 1;
      assert (p + rest)[1..] == p[1..] + rest;
      SpaceRunInside(p[1..], rest);
      SameFeeds(p[1..] + rest, p[1..], SpaceRun(p[1..]));
    }
  }

  lemma NoBlankLineBehind(p: string, k: nat)
    requires NoBlankLine(p) && k <= |p|
    ensures NoBlankLine(p[k..])
  {
    forall i | 0 <= i < |p[k..]| ensures BlankLine(p[k..][i..]) == 0 {
      assert p[k..][i..] == p[k + i..];
    }
  }

  /** A solid paragraph and a blank line after it come off as one chunk. */
  lemma {:induction false} ChunkOff(p: string, rest: string)
    requires p != "" ==> !IsSpace(p[|p| - 1])
    requires NoBlankLine(p)
    requires rest != "" && !IsSpace(rest[0])
    ensures Chunks(p + "\n\n" + rest) == [p] + Chunks(rest)
  {
    if p == "" {
      BlankLineOff(rest);
      assert p + "\n\n" + rest == "\n\n" + rest;
    } else {
      assert p[0..] == p;
      BlankLineInside(p, "\n\n" + rest);
      NoBlankLineBehind(p, 1);
      ChunkOff(p[1..], rest);
      CharacterOff(p, "\n\n", rest);
      assert [p[0]] + p[1..] == p;
    }
  }

  lemma CharacterOff(p: string, between: string, rest: string)
    requires p != ""
    ensures var s := p + between + rest; s == p + (between + rest) && s[0] == p[0] && s[1..] == p[1..] + between + rest
  {
  }

  lemma BlankLineOff(rest: string)
    requires rest != "" && !IsSpace(rest[0])
    ensures Chunks("\n\n" + rest) == [""] + Chunks(rest)
  {
    var s := "\n\n" + rest;
    assert s[1..] == "\n" + rest && s[2..] == rest;
    assert s[1..][1..] == rest;
    assert SpaceRun(s[1..]) == 1;
    assert BlankLine(s) == 2;
  }

  lemma SolidIsStripped(p: string)
    requires IsTrimmed(p)
    ensures Strip(p) == p
  {
  }

  lemma ParagraphOff(p: string, rest: string)
    requires Solid(p) && rest != "" && !IsSpace(rest[0])
    ensures Trimmed(Chunks(p + "\n\n" + rest)) == [p] + Trimmed(Chunks(rest))
  {
    ChunkOff(p, rest);
    SolidIsStripped(p);
    assert ([p] + Chunks(rest))[1..] == Chunks(rest);
  }

  lemma {:induction false} LastParagraph(p: string)
    requires p != "" ==> !IsSpace(p[|p| - 1])
    requires NoBlankLine(p)
    ensures Chunks(p) == [p]
  {
    if p != "" {
      assert p[0..] == p;
      NoBlankLineBehind(p, 1);
      LastParagraph(p[1..]);
      assert [p[0]] + p[1..] == p;
    }
  }

  predicate AllSolid(ps: seq<string>) {
    forall i | 0 <= i < |ps| :: Solid(ps[i])
  }

  lemma {:induction false} JoinedSplit(ps: seq<string>)
    requires ps != [] && AllSolid(ps)
    ensures Join(ps) != "" && !IsSpace(Join(ps)[0])
    ensures Trimmed(Chunks(Join(ps))) == ps
  {
    if |ps| == 1 {
      LastParagraph(ps[0]);
      SolidIsStripped(ps[0]);
      assert Trimmed([ps[0]]) == [ps[0]] by {
        assert [ps[0]][1..] == [];
      }
    } else {
      JoinedSplit(ps[1..]);
      ParagraphOff(ps[0], Join(ps[1..]));
    }
  }

  /** Paragraphs and then some more text, with blank lines between. */
  function Then(ps: seq<string>, rest: string): string {
    if ps == [] then rest else ps[0] + "\n\n" + Then(ps[1..], rest)
  }

  lemma {:induction false} ThenSplit(ps: seq<string>, rest: string)
    requires AllSolid(ps) && rest != "" && !IsSpace(rest[0])
    ensures Then(ps, rest) != "" && !IsSpace(Then(ps, rest)[0])
    ensures Trimmed(Chunks(Then(ps, rest))) == ps + Trimmed(Chunks(rest))
  {
    if ps != [] {
      ThenSplit(ps[1..], rest);
      ThenOne(ps[0], Then(ps[1..], rest), ps[1..] + Trimmed(Chunks(rest)));
      HeadFirst(ps, Trimmed(Chunks(rest)));
    }
  }

  lemma ThenOne(p: string, rest: string, more: seq<string>)
    requires Solid(p) && rest != "" && !IsSpace(rest[0]) && Trimmed(Chunks(rest)) == more
    ensures var s := p + "\n\n" + rest; s != "" && !IsSpace(s[0]) && Trimmed(Chunks(s)) == [p] + more
  {
    ParagraphOff(p, rest);
  }

  lemma HeadFirst<T>(s: seq<T>, t: seq<T>)
    requires s != []
    ensures [s[0]] + (s[1..] + t) == s + t
  {
  }

  lemma {:induction false} JoinedThen(ps: seq<string>, rest: string)
    requires ps != []
    ensures Join(ps) + "\n\n" + rest == Then(ps, rest)
  {
    if |ps| > 1 {
      JoinedThen(ps[1..], rest);
      JoinRegrouped(ps[0], Join(ps[1..]), rest);
    } else {
      assert Then(ps[1..], rest) == rest;
    }
  }

  lemma JoinRegrouped(p: string, joined: string, rest: string)
    ensures p + "\n\n" + joined + "\n\n" + rest == p + "\n\n" + (joined + "\n\n" + rest)
  {
  }

  // ------------------------------------------------------------------- scaffolding

  function WithoutCommas(s: string): string {
    if s != "" && s[|s| - 1] == ',' then WithoutCommas(s[..|s| - 1]) else s
  }

  function FirstLine(p: string): string {
    if TextLines(p) == [] then "" else TextLines(p)[0]
  }

  predicate Closes(p: string, cs: Chars) {
    || WithoutCommas(cs.Low(Strip(FirstLine(p)))) in cs.closings
    || exists i :: 0 <= i < |cs.openers| && cs.openers[i] <= cs.Low(p)
  }

  predicate AllDigits(s: string, cs: Chars) {
    forall i | 0 <= i < |s| :: cs.isDigit(s[i])
  }

  predicate IsDateWith(p: string, cs: Chars, a: nat) {
    var n := |p| - 5;
    && 1 <= a && a + 1 < n && AllDigits(p[..a], cs) && p[a] == ' '
    && (forall i | a < i < n :: 'A' <= p[i] <= 'Z' || 'a' <= p[i] <= 'z')
    && p[n] == ' ' && AllDigits(p[n + 1..], cs)
  }

  /** "7 July 2026" */
  predicate IsDate(p: string, cs: Chars) {
    IsDateWith(p, cs, 1) || IsDateWith(p, cs, 2)
  }

  /** Date, addressee or salutation. */
  predicate Heads(p: string, cs: Chars) {
    IsDate(p, cs) || "dear " <= cs.Low(p) || "hiring team" <= cs.Low(p) || "re:" <= cs.Low(p)
  }

  predicate IsMark(c: char) {
    c == '.' || c == '!' || c == '?'
  }

  predicate EndsPart(c: char) {
    IsMark(c) || c == '\n'
  }

  function PartEnd(s: string): (e: nat)
    ensures e <= |s| && (e < |s| ==> EndsPart(s[e]))
    ensures forall i | 0 <= i < e :: !EndsPart(s[i])
  {
    if s == "" || EndsPart(s[0]) then 0 else 1 + PartEnd(s[1..])
  }

  const ANCHOR: string := "led me to the"

  predicate AnchorAt(s: string, cs: Chars, i: int)
    requires 0 <= i <= |s|
  {
    && i + |ANCHOR| <= |s| && (forall j | i <= j < i + |ANCHOR| :: cs.lower(s[j]) == ANCHOR[j - i])
    && (i > 0 ==> !cs.isWord(s[i - 1])) && (i + |ANCHOR| < |s| ==> !cs.isWord(s[i + |ANCHOR|]))
  }

  predicate HasAnchor(s: string, cs: Chars) {
    exists i :: 0 <= i <= |s| && AnchorAt(s, cs, i)
  }

  /** A sentence that goes goes together with the white space after it. */
  function Without(s: string, drops: string -> bool): (r: string)
    ensures |r| <= |s|
    decreases |s|
  {
    if s == "" then ""
    else
      var e := PartEnd(s);
      if e == |s| then s
      else if IsMark(s[e]) && drops(s[..e]) then Without(LStrip(s[e + 1..]), drops)
      else s[..e + 1] + Without(s[e + 1..], drops)
  }

  function Anchored(cs: Chars): string -> bool {
    part => HasAnchor(part, cs)
  }

  /** The substitution of `[^.!?\n]*\bled me to the\b[^.!?\n]*[.!?]\s*` by nothing: every sentence
      with the anchor goes. */
  function Clean(s: string, cs: Chars): string {
    Without(s, Anchored(cs))
  }

  datatype Verdict = Ends | Drops | Keeps(paragraph: string)

  /** What becomes of one paragraph. */
  function Judge(p: string, cs: Chars): Verdict {
    if Closes(p, cs) then Ends
    else if Heads(p, cs) then Drops
    else if Strip(Clean(p, cs)) == "" then Drops
    else Keeps(Strip(Clean(p, cs)))
  }

  function KeptOf(ps: seq<string>, judge: string -> Verdict): seq<string> {
    if ps == [] then []
    else
      match judge(ps[0])
      case Ends => []
      case Drops => KeptOf(ps[1..], judge)
      case Keeps(p) => [p] + KeptOf(ps[1..], judge)
  }

  function Stripped(text: string, cs: Chars): string {
    var kept := Join(KeptOf(Paragraphs(text), p => Judge(p, cs)));
    if kept == "" then Strip(text) else kept
  }

  /** strip_letter_scaffolding */
  method StripLetterScaffolding(text: string, cs: Chars) returns (r: string)
    ensures r == Stripped(text, cs)
  {
    var kept := Sift(Paragraphs(text), p => Judge(p, cs));
    r := Join(kept);
    if r == "" {
      r := Strip(text);
    }
  }

  /** Its loop: up to the sign-off, what is left of each paragraph that is no scaffolding. */
  method Sift(ps: seq<string>, judge: string -> Verdict) returns (kept: seq<string>)
    ensures kept == KeptOf(ps, judge)
  {
    kept := [];
    for i := 0 to |ps|
      invariant KeptOf(ps, judge) == kept + KeptOf(ps[i..], judge)
    {
      assert ps[i..][1..] == ps[i + 1..];
      var verdict := judge(ps[i]);
      if verdict.Ends? {
        return;
      }
      if verdict.Keeps? {
        kept := kept + [verdict.paragraph];
      }
    }
  }

  // ------------------------------------------------------------ the letter's own hook

  /** The clause that names role and company. */
  function RoleClause(phrase: string, title: string, company: string): string {
    "My background " + phrase + " " + ANCHOR + " " + RoleTail(title, company)
  }

  function RoleTail(title: string, company: string): string {
    title + " role at " + company + "."
  }

  function Hook(reason: string, clause: string): string {
    if reason == "" then clause else reason + " " + clause
  }

  function Build(reason: string, clause: string, paragraphs: seq<string>): string {
    Join([Hook(reason, clause)] + paragraphs)
  }

  /** No sentence mark and no line feed. */
  predicate IsPlain(s: string) {
    forall i | 0 <= i < |s| :: !EndsPart(s[i])
  }

  predicate EndsSentence(s: string) {
    s != "" && IsMark(s[|s| - 1])
  }

  lemma {:induction false} PartEndIs(s: string, rest: string)
    requires IsPlain(s) && rest != "" && EndsPart(rest[0])
    ensures PartEnd(s + rest) == |s|
  {
    if s != "" {
      assert (s + rest)[1..] == s[1..] + rest;
      PartEndIs(s[1..], rest);
    } else {
      assert s + rest == rest;
    }
  }

  lemma AnchorInside(a: string, b: string, cs: Chars)
    requires cs.Valid()
    ensures HasAnchor(a + " " + ANCHOR + " " + b, cs)
  {
    var s, i := a + " " + ANCHOR + " " + b, |a| + 1;
    assert s[i..i + |ANCHOR|] == ANCHOR;
    forall j | i <= j < i + |ANCHOR| ensures cs.lower(s[j]) == ANCHOR[j - i] {
      assert s[j] == s[i..i + |ANCHOR|][j - i] == ANCHOR[j - i];
      assert 'a' <= ANCHOR[j - i] <= 'z' || ANCHOR[j - i] == ' ';
    }
    assert s[i - 1] == ' ' && s[i + |ANCHOR|] == ' ';
    assert AnchorAt(s, cs, i);
  }

  lemma PlainLiterals()
    ensures IsPlain("My background ") && IsPlain(" ") && IsPlain(ANCHOR) && IsPlain(" role at ")
  {
  }

  lemma PlainParts(a: string, b: string)
    ensures IsPlain(a + b) <==> IsPlain(a) && IsPlain(b)
  {
    assert forall i | 0 <= i < |a| :: (a + b)[i] == a[i];
    assert forall i | 0 <= i < |b| :: (a + b)[|a| + i] == b[i];
  }

  lemma PlainSentence(a: string, b: string)
    requires IsPlain(a) && IsPlain(b)
    ensures IsPlain(a + " " + ANCHOR + " " + b)
  {
    PlainLiterals();
    PlainParts(a, " ");
    PlainParts(a + " ", ANCHOR);
    PlainParts(a + " " + ANCHOR, " ");
    PlainParts(a + " " + ANCHOR + " ", b);
  }

  /** Cleaning goes part by part. */
  lemma {:induction false} CleanStep(part: string, end: char, after: string, drops: string -> bool)
    requires IsPlain(part) && EndsPart(end)
    ensures Without(part + [end] + after, drops) ==
      if IsMark(end) && drops(part) then Without(LStrip(after), drops) else part + [end] + Without(after, drops)
  {
    PartEndIs(part, [end] + after);
    PartsOf(part, end, after);
  }

  lemma PartsOf(part: string, end: char, after: string)
    ensures var s := part + [end] + after;
            && s == part + ([end] + after) && |s| > |part| && s[..|part|] == part && s[|part|] == end
            && s[|part| + 1..] == after && s[..|part| + 1] == part + [end]
  {
  }
}
