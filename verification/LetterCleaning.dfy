/** What the substitution in strip_letter_scaffolding leaves of text, of the clause that names role
    and company, and of a reason in front of it (apps/api/app/agents/cover_letter_agent.py).
 */
module LetterCleaning {
  import opened LetterText
  import opened LetterScaffolding

  /** Cleaning twice is cleaning once. */
  lemma {:induction false} CleanTwice(s: string, drops: string -> bool)
    ensures Without(Without(s, drops), drops) == Without(s, drops)
    decreases |s|
  {
    var e := PartEnd(s);
    if e < |s| {
      PartOff(s, drops);
      var part, after := s[..e], s[e + 1..];
      if IsMark(s[e]) && drops(part) {
        CleanTwice(LStrip(after), drops);
      } else {
        CleanTwice(after, drops);
        CleanStep(part, s[e], Without(after, drops), drops);
      }
    }
  }

  /** What comes after a sentence that goes together with the space behind it. */
  function Skipped(s: string, drops: string -> bool): string {
    Without(LStrip(s), drops)
  }

  /** The first part of a text and its end, whether they go or stay. */
  lemma {:induction false} PartOff(s: string, drops: string -> bool)
    requires PartEnd(s) < |s|
    ensures var e := PartEnd(s);
            && s == s[..e] + [s[e]] + s[e + 1..]
            && Without(s, drops) == if IsMark(s[e]) && drops(s[..e]) then Skipped(s[e + 1..], drops)
                               else s[..e] + [s[e]] + Without(s[e + 1..], drops)
  {
    var e := PartEnd(s);
    InThree(s, e);
    CleanStep(s[..e], s[e], s[e + 1..], drops);
  }

  lemma InThree(s: string, e: nat)
    requires e < |s|
    ensures s == s[..e] + [s[e]] + s[e + 1..]
  {
  }

  /** Text that is trimmed in front stays so. */
  lemma {:induction false} CleanStart(s: string, drops: string -> bool)
    requires s != "" ==> !IsSpace(s[0])
    ensures Without(s, drops) != "" ==> !IsSpace(Without(s, drops)[0])
    decreases |s|
  {
    var e := PartEnd(s);
    if e < |s| {
      PartOff(s, drops);
      var after := s[e + 1..];
      LStripStarts(after);
      CleanStart(LStrip(after), drops);
      assert (s[..e] + [s[e]])[0] == s[0];
    }
  }

  predicate OnOneLine(s: string) {
    forall i | 0 <= i < |s| :: s[i] != '\n'
  }

  lemma OneLineSlice(s: string, i: nat, j: nat)
    requires OnOneLine(s) && i <= j <= |s|
    ensures OnOneLine(s[i..j])
  {
  }

  lemma LastOfParts(front: string, after: string)
    requires after != ""
    ensures (front + after)[|front + after| - 1] == after[|after| - 1]
  {
  }

  lemma LastOfSlice(s: string, i: nat)
    requires i < |s|
    ensures s[i..][|s[i..]| - 1] == s[|s| - 1]
  {
  }

  lemma EndedHasEnd(s: string)
    requires s != "" && EndsPart(s[|s| - 1])
    ensures PartEnd(s) < |s|
  {
  }

  lemma {:induction false} OneLineLStrip(s: string)
    requires OnOneLine(s)
    ensures OnOneLine(LStrip(s))
  {
    if s != "" && IsSpace(s[0]) {
      OneLineSlice(s, 1, |s|);
      assert s[1..|s|] == s[1..];
      OneLineLStrip(s[1..]);
    }
  }

  lemma WholeLStrip(s: string)
    requires WholeSentences(s)
    ensures WholeSentences(LStrip(s))
  {
    OneLineLStrip(s);
    if s != "" {
      LStripKeepsEnd(s);
    }
  }

  /** Stripping in front keeps the end. */
  lemma {:induction false} LStripKeepsEnd(s: string)
    requires s != "" && !IsSpace(s[|s| - 1])
    ensures LStrip(s) != "" && LStrip(s)[|LStrip(s)| - 1] == s[|s| - 1]
  {
    if IsSpace(s[0]) {
      LStripKeepsEnd(s[1..]);
    }
  }

  lemma {:induction false} LStripStarts(s: string)
    ensures LStrip(s) != "" ==> !IsSpace(LStrip(s)[0])
  {
    if s != "" && IsSpace(s[0]) {
      LStripStarts(s[1..]);
    }
  }

  lemma {:induction false} LStripTogether(s: string, t: string)
    requires s != "" && !IsSpace(s[|s| - 1])
    ensures LStrip(s + t) == LStrip(s) + t
  {
    if IsSpace(s[0]) {
      LStripTogether(s[1..], t);
      assert (s + t)[1..] == s[1..] + t;
    }
  }

  /** Whole sentences on one line, or nothing. */
  predicate WholeSentences(s: string) {
    OnOneLine(s) && (s == "" || EndsSentence(s))
  }

  lemma WholeBehind(s: string, i: nat)
    requires WholeSentences(s) && i <= |s|
    ensures WholeSentences(s[i..])
  {
    OneLineSlice(s, i, |s|);
    assert s[i..|s|] == s[i..];
    if i < |s| {
      LastOfSlice(s, i);
    }
  }

  lemma EndAfter(front: string, r: string)
    requires EndsSentence(front) && (r == "" || EndsSentence(r))
    ensures EndsSentence(front + r)
  {
    if r == "" {
      assert front + r == front;
    } else {
      LastOfParts(front, r);
    }
  }

  lemma EndIsMark(s: string)
    requires WholeSentences(s) && s != ""
    ensures PartEnd(s) < |s| && IsMark(s[PartEnd(s)])
  {
    EndedHasEnd(s);
  }

  /** Of whole sentences on one line whole sentences are left. */
  lemma {:induction false} CleanEnd(s: string, drops: string -> bool)
    requires WholeSentences(s)
    ensures Without(s, drops) == "" || EndsSentence(Without(s, drops))
    decreases |s|
  {
    if s != "" {
      EndIsMark(s);
      var after := s[PartEnd(s) + 1..];
      WholeBehind(s, PartEnd(s) + 1);
      WholeLStrip(after);
      CleanEnd(after, drops);
      CleanEnd(LStrip(after), drops);
      CleanEndOnce(s, drops);
    }
  }

  lemma CleanEndOnce(s: string, drops: string -> bool)
    requires PartEnd(s) < |s| && IsMark(s[PartEnd(s)])
    requires var after := s[PartEnd(s) + 1..];
             && (Without(after, drops) == "" || EndsSentence(Without(after, drops)))
             && (Skipped(after, drops) == "" || EndsSentence(Skipped(after, drops)))
    ensures Without(s, drops) == "" || EndsSentence(Without(s, drops))
  {
    PartOff(s, drops);
    EndAfter(s[..PartEnd(s)] + [s[PartEnd(s)]], Without(s[PartEnd(s) + 1..], drops));
  }

  /** A text that ends a sentence is cleaned on its own; the space after it goes or stays with its
      last sentence. */
  ghost predicate AddsUp(s: string, after: string, drops: string -> bool) {
    || Without(s + after, drops) == Without(s, drops) + Without(after, drops)
    || Without(s + after, drops) == Without(s, drops) + Skipped(after, drops)
  }

  lemma {:induction false} AfterSentence(s: string, after: string, drops: string -> bool)
    requires EndsSentence(s)
    ensures AddsUp(s, after, drops)
    decreases |s|
  {
    EndedHasEnd(s);
    var e := PartEnd(s);
    var part, rest := s[..e], s[e + 1..];
    InThree(s, e);
    if rest == "" {
      LastPart(part, s[e], after, drops);
      NothingBehind(part + [s[e]]);
    } else {
      LastOfSlice(s, e + 1);
      EndBehindSpace(rest);
      AfterSentence(rest, after, drops);
      AfterSentence(LStrip(rest), after, drops);
      OnePartMore(part, s[e], rest, after, drops);
    }
  }

  lemma OnePartMore(part: string, end: char, rest: string, after: string, drops: string -> bool)
    requires IsPlain(part) && EndsPart(end) && EndsSentence(rest)
    requires AddsUp(rest, after, drops) && AddsUp(LStrip(rest), after, drops)
    ensures AddsUp(part + [end] + rest, after, drops)
  {
    if IsMark(end) && drops(part) {
      PartGone(part, end, rest, after, drops);
    } else {
      PartKept(part, end, rest, after, drops);
    }
  }

  lemma NothingBehind(s: string)
    ensures s + "" == s
  {
  }

  lemma EndBehindSpace(s: string)
    requires EndsSentence(s)
    ensures LStrip(s) != "" && EndsSentence(LStrip(s))
  {
    LStripKeepsEnd(s);
  }

  lemma {:induction false} LastPart(part: string, end: char, after: string, drops: string -> bool)
    requires IsPlain(part) && EndsPart(end)
    ensures AddsUp(part + [end], after, drops)
  {
    CleanStep(part, end, after, drops);
    NothingBehind(part + [end]);
    if IsMark(end) && drops(part) {
      FirstGone(part, end, "", drops);
      NothingInFront(Skipped(after, drops));
    } else {
      CleanStep(part, end, "", drops);
    }
  }

  lemma {:induction false} PartGone(part: string, end: char, rest: string, after: string, drops: string -> bool)
    requires IsPlain(part) && IsMark(end) && drops(part) && EndsSentence(rest)
    requires AddsUp(LStrip(rest), after, drops)
    ensures AddsUp(part + [end] + rest, after, drops)
  {
    PartRegrouped(part + [end], rest, after);
    FirstGone(part, end, rest, drops);
    FirstGone(part, end, rest + after, drops);
    SkippedTogether(rest, after, drops);
  }

  lemma {:induction false} FirstGone(part: string, end: char, after: string, drops: string -> bool)
    requires IsPlain(part) && IsMark(end) && drops(part)
    ensures Without(part + [end] + after, drops) == Skipped(after, drops)
  {
    CleanStep(part, end, after, drops);
  }

  lemma SkippedTogether(rest: string, after: string, drops: string -> bool)
    requires rest != "" && !IsSpace(rest[|rest| - 1])
    ensures Skipped(rest + after, drops) == Without(LStrip(rest) + after, drops)
  {
    LStripTogether(rest, after);
  }

  lemma {:induction false} PartKept(part: string, end: char, rest: string, after: string, drops: string -> bool)
    requires IsPlain(part) && EndsPart(end) && !(IsMark(end) && drops(part))
    requires AddsUp(rest, after, drops)
    ensures AddsUp(part + [end] + rest, after, drops)
  {
    CleanStep(part, end, rest, drops);
    CleanStep(part, end, rest + after, drops);
    PartRegrouped(part + [end], rest, after);
    PartRegrouped(part + [end], Without(rest, drops), Without(after, drops));
    PartRegrouped(part + [end], Without(rest, drops), Skipped(after, drops));
  }

  lemma PartRegrouped(front: string, rest: string, after: string)
    ensures front + rest + after == front + (rest + after)
  {
  }

  /** A space in front stays with the first part. */
  lemma {:induction false} SpaceFirst(s: string, cs: Chars)
    requires cs.Valid() && EndsSentence(s)
    ensures Clean(" " + s, cs) == Clean(s, cs) || (Clean(s, cs) != "" && Clean(" " + s, cs) == " " + Clean(s, cs))
  {
    var e := PartEnd(s);
    EndedHasEnd(s);
    assert s == s[..e] + [s[e]] + s[e + 1..];
    SpaceAtPart(s[..e], s[e], s[e + 1..], cs);
  }

  lemma {:induction false} SpaceAtPart(part: string, end: char, after: string, cs: Chars)
    requires cs.Valid() && IsPlain(part) && EndsPart(end)
    ensures var s := part + [end] + after;
            Clean(" " + s, cs) == Clean(s, cs) || (Clean(s, cs) != "" && Clean(" " + s, cs) == " " + Clean(s, cs))
  {
    CleanStep(part, end, after, Anchored(cs));
    PlainLiterals();
    PlainParts(" ", part);
    CleanStep(" " + part, end, after, Anchored(cs));
    SpaceAndAnchor(part, cs);
    SpaceRegrouped(part + [end], after);
    SpaceRegrouped(part, [end]);
    SpaceRegrouped(part + [end], Clean(after, cs));
  }

  lemma SpaceRegrouped(s: string, t: string)
    ensures " " + (s + t) == " " + s + t
  {
  }

  lemma {:induction false} SkippedSpace(s: string, drops: string -> bool)
    requires s != "" && !IsSpace(s[0])
    ensures Skipped(" " + s, drops) == Without(s, drops)
  {
    OneSpaceOff(s);
  }

  lemma {:induction false} OneSpaceOff(s: string)
    requires s != "" && !IsSpace(s[0])
    ensures LStrip(" " + s) == s
  {
    assert (" " + s)[1..] == s;
  }

  lemma SpaceAndAnchor(s: string, cs: Chars)
    requires cs.Valid()
    ensures HasAnchor(" " + s, cs) <==> HasAnchor(s, cs)
  {
    AnchorWithin(" " + s, 1, |s| + 1, cs);
    assert (" " + s)[1..|s| + 1] == s;
    if i :| 0 <= i <= |" " + s| && AnchorAt(" " + s, cs, i) {
      NotAtSpace(" " + s, cs, i);
      NothingBehind(" " + s);
      AnchorShifts(" ", s, "", cs, i - 1);
    }
  }

  lemma NotAtSpace(s: string, cs: Chars, i: nat)
    requires cs.Valid() && i <= |s| && AnchorAt(s, cs, i)
    ensures s[i] != ' '
  {
    LettersOfAnchor();
    assert cs.lower(s[i]) == ANCHOR[0];
  }

  /** The anchor holds no other character. */
  lemma AnchorMisses(s: string, cs: Chars, i: int, j: int)
    requires 0 <= i <= |s| && AnchorAt(s, cs, i) && 0 <= j < |s| && cs.lower(s[j]) !in ANCHOR
    ensures j < i || i + |ANCHOR| <= j
  {
  }

  /** An anchor in the middle of a text is one of the text between what is around it. */
  lemma AnchorShifts(front: string, s: string, back: string, cs: Chars, i: int)
    requires 0 <= i && i + |ANCHOR| <= |s| && AnchorAt(front + s + back, cs, |front| + i)
    ensures HasAnchor(s, cs)
  {
    var whole := front + s + back;
    forall j | i <= j < i + |ANCHOR| ensures cs.lower(s[j]) == ANCHOR[j - i] {
      assert whole[|front| + j] == s[j];
    }
    Beside(front, s, back, i);
    Beside(front, s, back, i + |ANCHOR| + 1);
    assert AnchorAt(s, cs, i);
  }

  lemma Beside(front: string, s: string, back: string, i: int)
    ensures 0 < i <= |s| ==> (front + s + back)[|front| + i - 1] == s[i - 1]
  {
  }

  lemma AnchorWithin(s: string, x: nat, y: nat, cs: Chars)
    requires x <= y <= |s| && (x > 0 ==> !cs.isWord(s[x - 1])) && (y < |s| ==> !cs.isWord(s[y]))
    ensures HasAnchor(s[x..y], cs) ==> HasAnchor(s, cs)
  {
    if i :| 0 <= i <= |s[x..y]| && AnchorAt(s[x..y], cs, i) {
      AnchorOfSlice(s, x, y, cs, i);
    }
  }

  lemma AnchorOfSlice(s: string, x: nat, y: nat, cs: Chars, i: nat)
    requires x <= y <= |s| && (x > 0 ==> !cs.isWord(s[x - 1])) && (y < |s| ==> !cs.isWord(s[y]))
    requires i <= |s[x..y]| && AnchorAt(s[x..y], cs, i)
    ensures AnchorAt(s, cs, x + i)
  {
    var t := s[x..y];
    forall j | x + i <= j < x + i + |ANCHOR| ensures cs.lower(s[j]) == ANCHOR[j - (x + i)] {
      assert s[j] == t[j - x];
    }
  }

  /** Text without the anchor stays as it is. */
  lemma {:induction false} NothingToClean(s: string, cs: Chars)
    requires cs.Valid() && !HasAnchor(s, cs)
    ensures Clean(s, cs) == s
    decreases |s|
  {
    var e := PartEnd(s);
    if e < |s| {
      NoAnchorInParts(s, e, cs);
      PartOff(s, Anchored(cs));
      NothingToClean(s[e + 1..], cs);
    }
  }

  lemma NoAnchorInParts(s: string, e: nat, cs: Chars)
    requires cs.Valid() && !HasAnchor(s, cs) && e < |s| && EndsPart(s[e])
    ensures !HasAnchor(s[..e], cs) && !HasAnchor(s[e + 1..], cs)
  {
    assert IsMark(s[e]) || IsSpace(s[e]);
    AnchorWithin(s, 0, e, cs);
    AnchorWithin(s, e + 1, |s|, cs);
    assert s[0..e] == s[..e] && s[e + 1..|s|] == s[e + 1..];
  }

  // ---------------------------------------------------------------- what stays whole

  /** Up to its mark. */
  predicate IsSentence(s: string, i: int, j: int) {
    0 <= i <= j < |s| && IsMark(s[j]) && (i > 0 ==> EndsPart(s[i - 1])) && IsPlain(s[i..j])
  }

  ghost predicate NoSentence(s: string, drops: string -> bool) {
    forall i, j | IsSentence(s, i, j) :: !drops(s[i..j])
  }

  lemma SentenceMoves(s: string, k: nat, i: int, j: int)
    requires 0 < k <= |s| && EndsPart(s[k - 1]) && i >= k
    ensures IsSentence(s, i, j) <==> IsSentence(s[k..], i - k, j - k)
    ensures IsSentence(s, i, j) ==> s[k..][i - k..j - k] == s[i..j]
  {
    if i <= j < |s| {
      assert s[k..][i - k..j - k] == s[i..j];
    }
  }

  lemma PlainSlice(s: string, i: nat, j: nat)
    requires i <= j <= |s| && IsPlain(s[i..j])
    ensures forall k | i <= k < j :: !EndsPart(s[k])
  {
    assert forall k | i <= k < j :: s[i..j][k - i] == s[k];
  }

  lemma FirstOrBehind(s: string, e: nat, i: int, j: int)
    requires e == PartEnd(s) < |s| && IsSentence(s, i, j)
    ensures (i == 0 && j == e) || i > e
  {
    PlainSlice(s, i, j);
  }

  /** The sentences of a text are its first part, if that ends in a mark, and those behind it. */
  lemma NoSentenceBehind(s: string, e: nat, drops: string -> bool)
    requires e == PartEnd(s) < |s|
    ensures NoSentence(s, drops) <==> !(IsMark(s[e]) && drops(s[..e])) && NoSentence(s[e + 1..], drops)
  {
    if NoSentence(s, drops) {
      FirstIsSentence(s, e);
      NoneBehind(s, e, s[e + 1..], drops);
    } else if !(IsMark(s[e]) && drops(s[..e])) && NoSentence(s[e + 1..], drops) {
      NoneAtAll(s, e, s[e + 1..], drops);
    }
  }

  lemma FirstIsSentence(s: string, e: nat)
    requires e == PartEnd(s) < |s|
    ensures s[0..e] == s[..e] && (IsMark(s[e]) ==> IsSentence(s, 0, e))
  {
  }

  lemma NoneBehind(s: string, e: nat, after: string, drops: string -> bool)
    requires e == PartEnd(s) < |s| && after == s[e + 1..] && NoSentence(s, drops)
    ensures NoSentence(after, drops)
  {
    forall i, j | IsSentence(after, i, j) ensures !drops(after[i..j]) {
      var i', j' := i + e + 1, j + e + 1;
      SentenceMovesBack(s, e + 1, after, i, j, i', j');
    }
  }

  lemma SentenceMovesBack(s: string, k: nat, after: string, i: int, j: int, i': int, j': int)
    requires 0 < k <= |s| && EndsPart(s[k - 1]) && after == s[k..] && IsSentence(after, i, j) && i' == i + k && j' == j + k
    ensures IsSentence(s, i', j') && s[i'..j'] == after[i..j]
  {
    SentenceMoves(s, k, i', j');
  }

  lemma NoneAtAll(s: string, e: nat, after: string, drops: string -> bool)
    requires e == PartEnd(s) < |s| && after == s[e + 1..] && NoSentence(after, drops) && !(IsMark(s[e]) && drops(s[..e]))
    ensures NoSentence(s, drops)
  {
    FirstIsSentence(s, e);
    forall i, j | IsSentence(s, i, j) ensures !drops(s[i..j]) {
      FirstOrBehind(s, e, i, j);
      if i > e {
        SentenceMoves(s, e + 1, i, j);
      }
    }
  }

  /** Text stays whole exactly when none of its sentences is to go; otherwise it gets shorter. */
  lemma {:induction false} StaysWholeIff(s: string, drops: string -> bool)
    ensures Without(s, drops) == s <==> NoSentence(s, drops)
    ensures Without(s, drops) == s || |Without(s, drops)| < |s|
    decreases |s|
  {
    var e := PartEnd(s);
    if e == |s| {
      assert forall i, j :: !IsSentence(s, i, j);
    } else {
      var after := s[e + 1..];
      PartOff(s, drops);
      NoSentenceBehind(s, e, drops);
      StaysWholeIff(after, drops);
      RestBehindFirst(s, e, after, Without(after, drops));
    }
  }

  lemma RestBehindFirst(s: string, e: nat, after: string, r: string)
    requires e < |s| && after == s[e + 1..]
    ensures s[..e] + [s[e]] + r == s <==> r == after
  {
    InThree(s, e);
    assert (s[..e] + [s[e]] + r)[e + 1..] == r;
  }

  /** On one line the anchor always stands in a sentence. */
  lemma {:induction false} AnchorInSentence(s: string, cs: Chars)
    requires cs.Valid() && WholeSentences(s) && HasAnchor(s, cs)
    ensures !NoSentence(s, Anchored(cs))
    decreases |s|
  {
    var i :| 0 <= i <= |s| && AnchorAt(s, cs, i);
    EndIsMark(s);
    var e := PartEnd(s);
    NoSentenceBehind(s, e, Anchored(cs));
    LettersOfAnchor();
    AnchorMisses(s, cs, i, e);
    if i < e {
      assert AnchorAt(s[..e], cs, i);
    } else {
      AnchorBehind(s, cs, e, i);
      WholeBehind(s, e + 1);
      AnchorInSentence(s[e + 1..], cs);
    }
  }

  lemma AnchorBehind(s: string, cs: Chars, e: nat, i: nat)
    requires e < i <= |s| && AnchorAt(s, cs, i)
    ensures HasAnchor(s[e + 1..], cs)
  {
    assert AnchorAt(s[e + 1..], cs, i - e - 1);
  }

  /** So a reason on one line that ends its sentence stays whole exactly when it does not hold the
      anchor. */
  lemma OneLineStaysIff(s: string, cs: Chars)
    requires cs.Valid() && OnOneLine(s) && EndsSentence(s)
    ensures NoSentence(s, Anchored(cs)) <==> !HasAnchor(s, cs)
  {
    if HasAnchor(s, cs) {
      AnchorInSentence(s, cs);
    }
    forall i, j | IsSentence(s, i, j) ensures HasAnchor(s[i..j], cs) ==> HasAnchor(s, cs) {
      assert i > 0 ==> IsMark(s[i - 1]);
      AnchorWithin(s, i, j, cs);
    }
  }

  lemma TrimmedStaysIff(reason: string, cs: Chars)
    requires IsTrimmed(reason)
    ensures Strip(Clean(reason, cs)) == reason <==> NoSentence(reason, Anchored(cs))
  {
    StaysWholeIff(reason, Anchored(cs));
    SolidIsStripped(reason);
    StripOnlyShortens(Clean(reason, cs));
    StripOnlyShortens(LStrip(Clean(reason, cs)));
  }

  // ------------------------------------------------------------- what the clause leaves

  predicate AllPlain(phrase: string, title: string, company: string) {
    IsPlain(phrase) && IsPlain(title) && IsPlain(company)
  }

  predicate NoneHasAnchor(phrase: string, title: string, company: string, cs: Chars) {
    !HasAnchor(phrase, cs) && !HasAnchor(title, cs) && !HasAnchor(company, cs)
  }

  /** Our own words around the fields make no anchor with them. */
  lemma NoAnchorInFront(phrase: string, cs: Chars)
    requires cs.Valid() && HasAnchor("My background " + phrase, cs)
    ensures HasAnchor(phrase, cs)
  {
    var front := "My background ";
    var i :| 0 <= i <= |front + phrase| && AnchorAt(front + phrase, cs, i);
    FrontChars(front, phrase);
    WindowBehind(front + phrase, cs, i);
    NothingBehind(front + phrase);
    AnchorShifts(front, phrase, "", cs, i - 14);
  }

  lemma FrontChars(front: string, s: string)
    requires |front| >= 14
    ensures (front + s)[11] == front[11] && (front + s)[12] == front[12] && (front + s)[13] == front[13]
  {
  }

  lemma WindowBehind(s: string, cs: Chars, i: int)
    requires cs.Valid() && 0 <= i <= |s| && AnchorAt(s, cs, i)
    requires |s| >= 14 && s[11] == 'n' && s[12] == 'd' && s[13] == ' '
    ensures i >= 14
  {
    LettersOfAnchor();
    AnchorMisses(s, cs, i, 11);
  }

  lemma LettersOfAnchor()
    ensures 'n' !in ANCHOR && 'r' !in ANCHOR && 'a' !in ANCHOR && forall c | IsMark(c) :: c !in ANCHOR
    ensures ANCHOR[0] == 'l' && ANCHOR[|ANCHOR| - 1] == 'e'
  {
  }

  lemma RoleTailAt(title: string, company: string)
    ensures var s, n := RoleTail(title, company), |title|;
            && |s| == n + 10 + |company| && s[n] == ' ' && s[n + 1] == 'r' && s[n + 6] == 'a' && s[n + 7] == 't' && s[n + 8] == ' '
            && s[|s| - 1] == '.'
  {
  }

  lemma NoAnchorInTail(title: string, company: string, cs: Chars)
    requires cs.Valid() && HasAnchor(RoleTail(title, company), cs)
    ensures HasAnchor(title, cs) || HasAnchor(company, cs)
  {
    var i :| 0 <= i <= |RoleTail(title, company)| && AnchorAt(RoleTail(title, company), cs, i);
    WindowInRoleTail(title, company, cs, i);
    if i + |ANCHOR| <= |title| {
      AnchorInTitle(title, company, cs, i);
    } else {
      AnchorInCompany(title, company, cs, i - |title| - 9);
    }
  }

  lemma WindowInRoleTail(title: string, company: string, cs: Chars, i: nat)
    requires cs.Valid() && i <= |RoleTail(title, company)| && AnchorAt(RoleTail(title, company), cs, i)
    ensures i + |ANCHOR| <= |title| || (|title| + 9 <= i && i - |title| - 9 + |ANCHOR| <= |company|)
  {
    RoleTailAt(title, company);
    WindowInTail(RoleTail(title, company), |title|, cs, i);
  }

  lemma AnchorInTitle(title: string, company: string, cs: Chars, i: nat)
    requires i + |ANCHOR| <= |title| && AnchorAt(RoleTail(title, company), cs, i)
    ensures HasAnchor(title, cs)
  {
    FourRegrouped("", title, " role at ", company, ".");
    NothingInFront(title);
    NothingInFront(RoleTail(title, company));
    AnchorShifts("", title, " role at " + company + ".", cs, i);
  }

  lemma AnchorInCompany(title: string, company: string, cs: Chars, i: nat)
    requires i + |ANCHOR| <= |company| && |title| + 9 + i <= |RoleTail(title, company)|
    requires AnchorAt(RoleTail(title, company), cs, |title| + 9 + i)
    ensures HasAnchor(company, cs)
  {
    AnchorShifts(title + " role at ", company, ".", cs, i);
  }

  lemma NothingInFront(s: string)
    ensures "" + s == s
  {
  }

  lemma WindowInTail(s: string, n: nat, cs: Chars, i: int)
    requires cs.Valid() && 0 <= i <= |s| && AnchorAt(s, cs, i) && n + 9 < |s|
    requires s[n] == ' ' && s[n + 1] == 'r' && s[n + 6] == 'a' && s[n + 7] == 't' && s[n + 8] == ' ' && s[|s| - 1] == '.'
    ensures i + |ANCHOR| <= n || (n + 9 <= i && i + |ANCHOR| < |s|)
  {
    LettersOfAnchor();
    AnchorMisses(s, cs, i, n + 1);
    AnchorMisses(s, cs, i, n + 6);
    AnchorMisses(s, cs, i, |s| - 1);
    assert cs.lower(s[i]) == 'l' && cs.lower(s[i + |ANCHOR| - 1]) == 'e';
  }

  /** What stands after the first sentence end of the clause. */
  function Remainder(title: string, company: string): string {
    var tail := RoleTail(title, company);
    var after := if PartEnd(tail) < |tail| then tail[PartEnd(tail) + 1..] else "";
    LStrip(after)
  }

  lemma TailEnds(title: string, company: string)
    requires OnOneLine(title) && OnOneLine(company)
    ensures var tail := RoleTail(title, company);
            OnOneLine(tail) && PartEnd(tail) < |tail| && IsMark(tail[PartEnd(tail)])
  {
    var tail := RoleTail(title, company);
    EndedHasEnd(tail);
    TogetherOnOneLine(title, " role at ");
    TogetherOnOneLine(title + " role at ", company);
    TogetherOnOneLine(title + " role at " + company, ".");
  }

  /** The clause goes up to its first sentence end, if that is not in the position: a mark in the
      title or company ends its sentence early, and the rest stays. */
  lemma ClauseLeaves(phrase: string, title: string, company: string, cs: Chars)
    requires cs.Valid() && IsPlain(phrase) && OnOneLine(title) && OnOneLine(company)
    requires !HasAnchor(title, cs) && !HasAnchor(company, cs)
    ensures Clean(RoleClause(phrase, title, company), cs) == Remainder(title, company)
  {
    var tail := RoleTail(title, company);
    TailEnds(title, company);
    var e := PartEnd(tail);
    var front, after := "My background " + phrase, tail[e + 1..];
    ClauseWithTail(phrase, title, company, tail[..e], tail[e], after);
    PlainLiterals();
    PlainParts("My background ", phrase);
    PlainSentence(front, tail[..e]);
    AnchorInside(front, tail[..e], cs);
    CleanStep(front + " " + ANCHOR + " " + tail[..e], tail[e], after, Anchored(cs));
    SkippedUncleaned(title, company, e, cs);
  }

  lemma SkippedUncleaned(title: string, company: string, e: nat, cs: Chars)
    requires cs.Valid() && !HasAnchor(title, cs) && !HasAnchor(company, cs)
    requires var tail := RoleTail(title, company); e < |tail| && IsMark(tail[e])
    ensures var after := RoleTail(title, company)[e + 1..]; Skipped(after, Anchored(cs)) == LStrip(after)
  {
    var tail := RoleTail(title, company);
    var after := tail[e + 1..];
    assert !HasAnchor(tail, cs) by {
      if HasAnchor(tail, cs) {
        NoAnchorInTail(title, company, cs);
      }
    }
    AnchorWithin(tail, e + 1, |tail|, cs);
    assert tail[e + 1..|tail|] == after;
    AnchorOfLStrip(after, cs);
    NothingToClean(LStrip(after), cs);
  }

  lemma {:induction false} AnchorOfLStrip(s: string, cs: Chars)
    requires cs.Valid() && !HasAnchor(s, cs)
    ensures !HasAnchor(LStrip(s), cs)
  {
    if s != "" && IsSpace(s[0]) {
      AnchorWithin(s, 1, |s|, cs);
      assert s[1..|s|] == s[1..];
      AnchorOfLStrip(s[1..], cs);
    }
  }

  lemma ClauseWithTail(phrase: string, title: string, company: string, part: string, end: char, after: string)
    requires RoleTail(title, company) == part + [end] + after
    ensures RoleClause(phrase, title, company)
         == (("My background " + phrase) + " " + ANCHOR + " " + part) + [end] + after
  {
    var front := "My background " + phrase + " " + ANCHOR + " ";
    PartRegrouped(front, part + [end], after);
    PartRegrouped(front, part, [end]);
  }

  lemma NothingRemainsIff(title: string, company: string)
    requires OnOneLine(title) && OnOneLine(company)
    ensures Remainder(title, company) == "" <==> IsPlain(title) && IsPlain(company)
  {
    var front := title + " role at " + company;
    TailEnds(title, company);
    PlainLiterals();
    PlainParts(title, " role at ");
    PlainParts(title + " role at ", company);
    NothingAfterIff(front);
  }

  lemma NothingAfterIff(front: string)
    requires PartEnd(front + ".") < |front + "."|
    ensures var after := (front + ".")[PartEnd(front + ".") + 1..];
            LStrip(after) == "" <==> IsPlain(front)
  {
    var tail := front + ".";
    var e := PartEnd(tail);
    assert forall i | 0 <= i < |front| :: front[i] == tail[i];
    if e < |front| {
      LastOfSlice(tail, e + 1);
      LStripKeepsEnd(tail[e + 1..]);
    } else {
      assert tail[e + 1..] == "";
    }
  }

  /** A mark in the position ends a sentence before the anchor, and that one stays. */
  lemma MarkedPositionStays(phrase: string, title: string, company: string, cs: Chars)
    requires cs.Valid() && OnOneLine(phrase) && !HasAnchor(phrase, cs) && !IsPlain(phrase)
    ensures Clean(RoleClause(phrase, title, company), cs) != ""
  {
    var e := PartEnd(phrase);
    assert e < |phrase|;
    var part, rest := "My background " + phrase[..e], " " + ANCHOR + " " + RoleTail(title, company);
    PlainLiterals();
    PlainParts("My background ", phrase[..e]);
    AnchorWithin(phrase, 0, e, cs);
    assert phrase[0..e] == phrase[..e];
    assert !HasAnchor(part, cs) by {
      if HasAnchor(part, cs) {
        NoAnchorInFront(phrase[..e], cs);
      }
    }
    assert phrase == phrase[..e] + [phrase[e]] + phrase[e + 1..];
    MarkedClause(phrase, title, company, phrase[..e], phrase[e], phrase[e + 1..]);
    CleanStep(part, phrase[e], phrase[e + 1..] + rest, Anchored(cs));
  }

  lemma MarkedClause(phrase: string, title: string, company: string, part: string, end: char, after: string)
    requires phrase == part + [end] + after
    ensures RoleClause(phrase, title, company)
         == ("My background " + part) + [end] + (after + (" " + ANCHOR + " " + RoleTail(title, company)))
  {
    var rest := " " + ANCHOR + " " + RoleTail(title, company);
    FourRegrouped("My background " + phrase, " ", ANCHOR, " ", RoleTail(title, company));
    PartRegrouped("My background " + part + [end], after, rest);
    PartRegrouped("My background ", part + [end], after);
    PartRegrouped("My background ", part, [end]);
  }

  lemma FourRegrouped(a: string, b: string, c: string, d: string, e: string)
    ensures a + b + c + d + e == a + (b + c + d + e)
    ensures a + b + c + d + e == a + b + (c + d + e)
  {
  }

  /** The clause goes as a whole exactly when none of its fields has a sentence mark. */
  lemma ClauseGoesIff(phrase: string, title: string, company: string, cs: Chars)
    requires cs.Valid() && OnOneLine(phrase) && OnOneLine(title) && OnOneLine(company)
    requires NoneHasAnchor(phrase, title, company, cs)
    ensures Clean(RoleClause(phrase, title, company), cs) == "" <==> AllPlain(phrase, title, company)
  {
    if IsPlain(phrase) {
      ClauseLeaves(phrase, title, company, cs);
      NothingRemainsIff(title, company);
    } else {
      MarkedPositionStays(phrase, title, company, cs);
    }
  }

  /** A company name that holds a dot, such as "Acme Inc." or "St. Jude", leaves what follows the
      dot, and the clause's own dot, behind as a paragraph. */
  lemma DottedCompanyLeavesItsRest(phrase: string, title: string, a: string, b: string, cs: Chars)
    requires cs.Valid() && IsPlain(phrase) && IsPlain(title) && IsPlain(a) && OnOneLine(b)
    requires !HasAnchor(title, cs) && !HasAnchor(a + "." + b, cs)
    ensures Clean(RoleClause(phrase, title, a + "." + b), cs) == LStrip(b + ".") != ""
  {
    TogetherOnOneLine(a, ".");
    TogetherOnOneLine(a + ".", b);
    ClauseLeaves(phrase, title, a + "." + b, cs);
    DottedRemainder(title, a, b);
    LStripKeepsEnd(b + ".");
  }

  lemma TogetherOnOneLine(a: string, b: string)
    ensures OnOneLine(a + b) <==> OnOneLine(a) && OnOneLine(b)
  {
    assert forall i | 0 <= i < |a| :: (a + b)[i] == a[i];
    assert forall i | 0 <= i < |b| :: (a + b)[|a| + i] == b[i];
  }

  lemma DottedRemainder(title: string, a: string, b: string)
    requires IsPlain(title) && IsPlain(a)
    ensures Remainder(title, a + "." + b) == LStrip(b + ".")
  {
    DottedTail(title, a, b);
    PlainLiterals();
    PlainParts(title, " role at ");
    PlainParts(title + " role at ", a);
    RemainderAfter(title, a + "." + b, title + " role at " + a, b + ".");
  }

  lemma RemainderAfter(title: string, company: string, front: string, after: string)
    requires IsPlain(front) && RoleTail(title, company) == front + ("." + after)
    ensures Remainder(title, company) == LStrip(after)
  {
    PartEndIs(front, "." + after);
    FrontOff(front, '.', after);
  }

  lemma FrontOff(front: string, c: char, after: string)
    ensures (front + ([c] + after))[|front| + 1..] == after && |front + ([c] + after)| > |front|
  {
  }

  lemma DottedTail(title: string, a: string, b: string)
    ensures RoleTail(title, a + "." + b) == title + " role at " + a + ("." + (b + "."))
  {
    var front := title + " role at ";
    PartRegrouped(front, a + "." + b, ".");
    PartRegrouped(front, a, "." + (b + "."));
    assert a + "." + b + "." == a + ("." + (b + "."));
  }

  // -------------------------------------------------- the clause behind a reason

  /** What may be left of a reason that ends no sentence: less of it, or something that does. */
  ghost predicate Leaves(reason: string, r: string) {
    |r| < |reason| || EndsSentence(r)
  }

  predicate Trailing(reason: string) {
    reason != "" && !EndsPart(reason[|reason| - 1]) && !IsSpace(reason[|reason| - 1])
  }

  /** The end of such a reason shares a sentence with the clause. */
  lemma {:induction false} TrailingLeaves(reason: string, clause: string, drops: string -> bool)
    requires Trailing(reason) && clause != "" && WholeSentences(clause)
    ensures Leaves(reason, Without(reason + clause, drops))
    decreases |reason|
  {
    var e := PartEnd(reason);
    if e == |reason| {
      PlainLeaves(reason, clause, drops);
    } else {
      var part, after := reason[..e], reason[e + 1..];
      assert reason == part + [reason[e]] + after;
      LastOfSlice(reason, e + 1);
      if IsMark(reason[e]) && drops(part) {
        SkippedTogether(after, clause, drops);
        LStripKeepsEnd(after);
        TrailingLeaves(LStrip(after), clause, drops);
        GoneLeaves(part, reason[e], after, clause, drops);
      } else {
        TrailingLeaves(after, clause, drops);
        KeptLeaves(part, reason[e], after, clause, drops);
      }
    }
  }

  lemma GoneLeaves(part: string, end: char, after: string, clause: string, drops: string -> bool)
    requires IsPlain(part) && IsMark(end) && drops(part) && after != "" && !IsSpace(after[|after| - 1])
    requires Leaves(LStrip(after), Without(LStrip(after) + clause, drops))
    ensures Leaves(part + [end] + after, Without(part + [end] + after + clause, drops))
  {
    PartRegrouped(part + [end], after, clause);
    FirstGone(part, end, after + clause, drops);
    SkippedTogether(after, clause, drops);
  }

  lemma KeptLeaves(part: string, end: char, after: string, clause: string, drops: string -> bool)
    requires IsPlain(part) && EndsPart(end) && !(IsMark(end) && drops(part))
    requires Leaves(after, Without(after + clause, drops))
    ensures Leaves(part + [end] + after, Without(part + [end] + after + clause, drops))
  {
    PartRegrouped(part + [end], after, clause);
    CleanStep(part, end, after + clause, drops);
    LeavesMore(part + [end], after, Without(after + clause, drops));
  }

  lemma PlainLeaves(reason: string, clause: string, drops: string -> bool)
    requires reason != "" && IsPlain(reason) && clause != "" && WholeSentences(clause)
    ensures Leaves(reason, Without(reason + clause, drops))
  {
    LastOfParts(reason, clause);
    TogetherOnOneLine(reason, clause);
    CleanEnd(reason + clause, drops);
  }

  lemma LeavesMore(front: string, after: string, r: string)
    requires Leaves(after, r)
    ensures Leaves(front + after, front + r)
  {
    if r != "" {
      LastOfParts(front, r);
    }
  }

  lemma {:induction false} StripKeepsLast(s: string)
    requires s != "" && !IsSpace(s[|s| - 1])
    ensures Strip(s) != "" && Strip(s)[|Strip(s)| - 1] == s[|s| - 1]
    ensures !IsSpace(s[0]) ==> Strip(s) == s
  {
    if IsSpace(s[0]) {
      StripKeepsLast(s[1..]);
    }
  }

  /** A reason comes back from in front of a clause exactly when it ends its sentence, no sentence of
      it holds the anchor, and the clause goes as a whole. */
  lemma ReasonComesBackIff(reason: string, clause: string, cs: Chars)
    requires cs.Valid() && IsTrimmed(reason) && OnOneLine(clause) && EndsSentence(clause) && !IsSpace(clause[0])
    ensures Strip(Clean(reason + " " + clause, cs)) == reason
       <==> EndsSentence(reason) && NoSentence(reason, Anchored(cs)) && Clean(clause, cs) == ""
  {
    TrimmedStaysIff(reason, cs);
    PartRegrouped(reason, " ", clause);
    if !EndsSentence(reason) {
      TrailingReason(reason, clause, Anchored(cs));
    } else if Clean(clause, cs) != "" {
      LongerThanReason(reason, clause, cs);
    } else {
      AfterReason(reason, clause, cs);
      assert Clean(reason, cs) + "" == Clean(reason, cs);
    }
  }

  lemma TrailingReason(reason: string, clause: string, drops: string -> bool)
    requires IsTrimmed(reason) && !EndsSentence(reason) && OnOneLine(clause) && EndsSentence(clause)
    ensures Strip(Without(reason + (" " + clause), drops)) != reason
  {
    LastOfParts(" ", clause);
    TogetherOnOneLine(" ", clause);
    TrailingLeaves(reason, " " + clause, drops);
    NotTheReason(reason, Without(reason + (" " + clause), drops));
  }

  lemma NotTheReason(reason: string, r: string)
    requires Leaves(reason, r) && !EndsSentence(reason)
    ensures Strip(r) != reason
  {
    StripOnlyShortens(r);
    StripOnlyShortens(LStrip(r));
    if EndsSentence(r) {
      StripKeepsLast(r);
    }
  }

  /** What is left of a reason that ends its sentence and of the clause, side by side. */
  lemma {:induction false} AfterReason(reason: string, clause: string, cs: Chars)
    requires cs.Valid() && EndsSentence(reason) && EndsSentence(clause) && !IsSpace(clause[0])
    ensures var r, c := Clean(reason + (" " + clause), cs), Clean(clause, cs);
            r == Clean(reason, cs) + c || (c != "" && r == Clean(reason, cs) + (" " + c))
  {
    AfterSentence(reason, " " + clause, Anchored(cs));
    SpaceFirst(clause, cs);
    SkippedSpace(clause, Anchored(cs));
  }

  lemma {:induction false} LongerThanReason(reason: string, clause: string, cs: Chars)
    requires cs.Valid() && IsTrimmed(reason) && EndsSentence(reason)
    requires OnOneLine(clause) && EndsSentence(clause) && !IsSpace(clause[0]) && Clean(clause, cs) != ""
    ensures Strip(Clean(reason + (" " + clause), cs)) != reason
  {
    var y := BehindReason(reason, clause, cs);
    CleanStart(reason + (" " + clause), Anchored(cs));
    CleanTwice(reason + (" " + clause), Anchored(cs));
    NotItself(reason, Clean(reason, cs), y, cs);
  }

  lemma {:induction false} BehindReason(reason: string, clause: string, cs: Chars) returns (y: string)
    requires cs.Valid() && EndsSentence(reason)
    requires OnOneLine(clause) && EndsSentence(clause) && !IsSpace(clause[0]) && Clean(clause, cs) != ""
    ensures EndsSentence(y) && Clean(reason + (" " + clause), cs) == Clean(reason, cs) + y
  {
    AfterReason(reason, clause, cs);
    CleanEnd(clause, Anchored(cs));
    y := WhatFollows(Clean(reason + (" " + clause), cs), Clean(reason, cs), Clean(clause, cs));
  }

  lemma WhatFollows(r: string, front: string, c: string) returns (y: string)
    requires EndsSentence(c) && (r == front + c || r == front + (" " + c))
    ensures EndsSentence(y) && r == front + y
  {
    LastOfParts(" ", c);
    y := if r == front + c then c else " " + c;
  }

  lemma {:induction false} NotItself(reason: string, left: string, y: string, cs: Chars)
    requires left == Clean(reason, cs) && EndsSentence(y) && !IsSpace((left + y)[0])
    requires Clean(left + y, cs) == left + y
    ensures Strip(left + y) != reason
  {
    LastOfParts(left, y);
    StripKeepsLast(left + y);
  }
}
