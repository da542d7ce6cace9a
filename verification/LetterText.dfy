/** Composing a letter and reading its signer back (apps/api/app/agents/cover_letter_agent.py,
    compose_letter, _closing_line_signer and stored_signoff_name).

    Lower-casing is a parameter: nothing is assumed of it but that "Sincerely" becomes
    "sincerely".
 */
module LetterText {
  import opened Shared
  import opened Lines

  // --------------------------------------------------------- Python's str methods

  predicate IsSpace(c: char) {
    || '\t' <= c <= '\r' || '\U{1c}' <= c <= ' ' || c == '\U{85}' || c == '\U{a0}' || c == '\U{1680}'
    || '\U{2000}' <= c <= '\U{200a}' || c == '\U{2028}' || c == '\U{2029}' || c == '\U{202f}'
    || c == '\U{205f}' || c == '\U{3000}'
  }

  predicate BreaksLine(c: char) {
    || '\n' <= c <= '\r' || '\U{1c}' <= c <= '\U{1e}' || c == '\U{85}' || c == '\U{2028}' || c == '\U{2029}'
  }

  function TextLines(s: string): seq<string> {
    SplitLines(s, BreaksLine, '\r', '\n')
  }

  function LStrip(s: string): (r: string)
    ensures |r| <= |s|
  {
    if s != "" && IsSpace(s[0]) then LStrip(s[1..]) else s
  }

  function RStrip(s: string): string {
    if s != "" && IsSpace(s[|s| - 1]) then RStrip(s[..|s| - 1]) else s
  }

  function Strip(s: string): string {
    RStrip(LStrip(s))
  }

  /** The number of words `s.split()` yields. */
  function Tokens(s: string): nat {
    if s == "" then 0
    else if IsSpace(s[0]) then Tokens(s[1..])
    else if |s| == 1 || IsSpace(s[1]) then 1 + Tokens(s[1..])
    else Tokens(s[1..])
  }

  /** The index of the first comma, or the length. */
  function Comma(s: string): (i: nat)
    ensures i <= |s| && (i < |s| ==> s[i] == ',')
  {
    if s == "" || s[0] == ',' then 0 else 1 + Comma(s[1..])
  }

  function WithoutDots(s: string): string {
    if s != "" && s[|s| - 1] == '.' then WithoutDots(s[..|s| - 1]) else s
  }

  // ------------------------------------------------------------------- the letter

  const CLOSINGS: set<string> := {
    "sincerely", "kind regards", "warm regards", "best regards", "yours sincerely",
    "yours faithfully", "regards", "best", "thank you"
  }

  const MAX_NAME_TOKENS := 8

  /** compose_letter; `paragraphs` is the body's paragraphs joined by blank lines. */
  function Compose(date: string, company: string, title: string, paragraphs: string, signer: string): string {
    UpToBody(date, company, title, paragraphs) + ("Sincerely,\n" + signer + "\n")
  }

  function UpToBody(date: string, company: string, title: string, paragraphs: string): string {
    date + "\n\n" + "Hiring Team\n" + company + "\n" + "Re: " + title + "\n\n"
    + "Dear Hiring Team at " + company + ",\n\n" + paragraphs + "\n\n"
  }

  /** _closing_line_signer: None when the line closes nothing, else the signer it carries. */
  function ClosingLineSigner(lower: string -> string, line: string): Option<string> {
    var stripped := Strip(line);
    if stripped == "" then None
    else
      var comma := Comma(stripped);
      if comma < |stripped| then
        if lower(Strip(stripped[..comma])) in CLOSINGS then Some(Strip(stripped[comma + 1..])) else None
      else if lower(Strip(WithoutDots(stripped))) in CLOSINGS then Some("") else None
  }

  function FirstNonBlank(lines: seq<string>): string {
    if lines == [] then "" else if Strip(lines[0]) != "" then Strip(lines[0]) else FirstNonBlank(lines[1..])
  }

  function NameOrNothing(signer: string): string {
    if 0 < Tokens(signer) <= MAX_NAME_TOKENS then signer else ""
  }

  /** The sign-off of the last closing line among the first n lines. */
  function SignOff(lower: string -> string, lines: seq<string>, n: nat): string
    requires n <= |lines|
  {
    if n == 0 then ""
    else
      var signer := ClosingLineSigner(lower, lines[n - 1]);
      if signer.None? then SignOff(lower, lines, n - 1)
      else NameOrNothing(if signer.value == "" then FirstNonBlank(lines[n..]) else signer.value)
  }

  function StoredSignOff(lower: string -> string, letter: string): string {
    SignOff(lower, TextLines(letter), |TextLines(letter)|)
  }

  /** stored_signoff_name, scanning upwards. */
  method StoredSignOffName(lower: string -> string, letter: string) returns (name: string)
    ensures name == StoredSignOff(lower, letter)
  {
    var lines := TextLines(letter);
    var index := |lines|;
    while index > 0
      invariant 0 <= index <= |lines|
      invariant StoredSignOff(lower, letter) == SignOff(lower, lines, index)
    {
      index := index - 1;
      var signer := ClosingLineSigner(lower, lines[index]);
      if signer.Some? {
        var found := signer.value;
        if found == "" {
          found := FirstFilled(lines[index + 1..]);
        }
        return if 0 < Tokens(found) <= MAX_NAME_TOKENS then found else "";
      }
    }
    return "";
  }

  method FirstFilled(lines: seq<string>) returns (line: string)
    ensures line == FirstNonBlank(lines)
  {
    for i := 0 to |lines|
      invariant FirstNonBlank(lines) == FirstNonBlank(lines[i..])
    {
      if Strip(lines[i]) != "" {
        return Strip(lines[i]);
      }
      assert lines[i..][1..] == lines[i + 1..];
    }
    return "";
  }

  // -------------------------------------------------------------- the round trip

  predicate OneLineText(s: string) {
    forall i | 0 <= i < |s| :: !BreaksLine(s[i])
  }

  lemma ComposedLines(date: string, company: string, title: string, paragraphs: string, signer: string)
    returns (head: seq<string>)
    requires OneLineText(signer)
    ensures TextLines(Compose(date, company, title, paragraphs, signer)) == head + ["Sincerely,", signer]
  {
    var before := UpToBody(date, company, title, paragraphs);
    head := TextLines(before);
    SplitAfterLineFeed(before, "Sincerely,\n" + signer + "\n", BreaksLine, '\r', '\n');
    SignOffLines(signer);
  }

  lemma TwoLines(first: string, second: string)
    requires OneLineText(first) && OneLineText(second)
    ensures TextLines((first + ['\n']) + (second + ['\n'])) == [first, second]
  {
    SplitAfterLineFeed(first + ['\n'], second + ['\n'], BreaksLine, '\r', '\n');
    OneLine(first, BreaksLine, '\r', '\n');
    OneLine(second, BreaksLine, '\r', '\n');
  }

  lemma SignOffLines(signer: string)
    requires OneLineText(signer)
    ensures TextLines("Sincerely,\n" + signer + "\n") == ["Sincerely,", signer]
  {
    TwoLines("Sincerely,", signer);
    assert "Sincerely,\n" + signer + "\n" == ("Sincerely," + ['\n']) + (signer + ['\n']);
  }

  lemma SincerelyCloses(lower: string -> string)
    requires lower("Sincerely") == "sincerely"
    ensures ClosingLineSigner(lower, "Sincerely,") == Some("")
  {
    var line := "Sincerely,";
    assert LStrip(line) == line && RStrip(line) == line;
    CommaAfter("Sincerely", "");
    assert line == "Sincerely" + "," + "";
    assert line[..9] == "Sincerely" && line[10..] == "";
    assert Strip("Sincerely") == "Sincerely" && Strip("") == "";
  }

  lemma {:induction false} CommaAfter(head: string, rest: string)
    requires ',' !in head
    ensures Comma(head + "," + rest) == |head|
  {
    if head != "" {
      assert (head + "," + rest)[1..] == head[1..] + "," + rest;
      CommaAfter(head[1..], rest);
    } else {
      assert (head + "," + rest)[0] == ',';
    }
  }

  /** What a stored letter says its signer is: the name, trimmed, unless it has too many
      words or would itself be taken for a closing line. */
  lemma StoredSignOffIs(lower: string -> string, date: string, company: string, title: string,
                        paragraphs: string, signer: string)
    requires lower("Sincerely") == "sincerely" && OneLineText(signer)
    ensures var stored := StoredSignOff(lower, Compose(date, company, title, paragraphs, signer));
            match ClosingLineSigner(lower, signer)
            case None => stored == NameOrNothing(Strip(signer))
            case Some(carried) => stored == NameOrNothing(carried)
  {
    var head := ComposedLines(date, company, title, paragraphs, signer);
    var lines := head + ["Sincerely,", signer];
    var n := |head|;
    SincerelyCloses(lower);
    assert lines[n + 1..] == [signer] && lines[n + 2..] == [];
    assert FirstNonBlank([]) == "";
    assert FirstNonBlank([signer]) == Strip(signer);
    assert SignOff(lower, lines, n + 1) == NameOrNothing(Strip(signer));
    assert SignOff(lower, lines, n + 2) == match ClosingLineSigner(lower, signer)
      case None => SignOff(lower, lines, n + 1)
      case Some(carried) => NameOrNothing(carried);
  }

  lemma {:induction false} StripOnlyShortens(s: string)
    ensures |LStrip(s)| <= |s| && |RStrip(s)| <= |s|
    decreases |s|
  {
    if s != "" {
      StripOnlyShortens(s[1..]);
      StripOnlyShortens(s[..|s| - 1]);
    }
  }

  lemma CarriedIsShorter(lower: string -> string, line: string)
    requires ClosingLineSigner(lower, line).Some?
    ensures |ClosingLineSigner(lower, line).value| < |line|
  {
    StripOnlyShortens(line);
    StripOnlyShortens(LStrip(line));
    var stripped := Strip(line);
    var comma := Comma(stripped);
    if comma < |stripped| {
      StripOnlyShortens(stripped[comma + 1..]);
      StripOnlyShortens(LStrip(stripped[comma + 1..]));
    }
  }

  /** The round trip, exactly: a one-line signer is read back unchanged from any letter if
      and only if it is empty, or is trimmed, has at most eight words and is no closing line. */
  lemma SignerRoundTrip(lower: string -> string, date: string, company: string, title: string,
                        paragraphs: string, signer: string)
    requires lower("Sincerely") == "sincerely" && OneLineText(signer)
    ensures StoredSignOff(lower, Compose(date, company, title, paragraphs, signer)) == signer
       <==> signer == "" || (Strip(signer) == signer && 1 <= Tokens(signer) <= MAX_NAME_TOKENS
                             && ClosingLineSigner(lower, signer).None?)
  {
    StoredSignOffIs(lower, date, company, title, paragraphs, signer);
    if ClosingLineSigner(lower, signer).Some? {
      CarriedIsShorter(lower, signer);
    }
  }

  /** `run` refuses a placeholder signer before drafting; stored_letter_has_placeholder_signer
      judges the stored letter with the same rule. For such signers the two agree. */
  lemma ReadCheckAgreesWithWriteCheck(lower: string -> string, looksPlaceholder: string -> bool, date: string,
                                      company: string, title: string, paragraphs: string, signer: string)
    requires lower("Sincerely") == "sincerely" && OneLineText(signer)
    requires Strip(signer) == signer && Tokens(signer) <= MAX_NAME_TOKENS && ClosingLineSigner(lower, signer).None?
    ensures var name := StoredSignOff(lower, Compose(date, company, title, paragraphs, signer));
            (name != "" && looksPlaceholder(name)) == (signer != "" && looksPlaceholder(signer))
  {
    SignerRoundTrip(lower, date, company, title, paragraphs, signer);
    if signer != "" {
      StripOnlyShortens(signer[1..]);
      StripOnlyShortens(LStrip(signer));
      WordAtFront(signer);
    }
  }

  lemma {:induction false} WordAtFront(s: string)
    requires s != "" && !IsSpace(s[0])
    ensures Tokens(s) >= 1
  {
    if |s| > 1 && !IsSpace(s[1]) {
      WordAtFront(s[1..]);
    }
  }
}
