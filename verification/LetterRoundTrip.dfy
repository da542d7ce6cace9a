/** Taking a composed letter apart again gives back what the model wrote
    (apps/api/app/agents/cover_letter_agent.py, build_body, compose_letter and
    strip_letter_scaffolding).
 */
module LetterRoundTrip {
  import opened LetterText
  import opened LetterScaffolding
  import opened LetterCleaning

  /** A value that fills one place of the letter: trimmed and on one line. */
  predicate IsField(s: string) {
    IsTrimmed(s) && OnOneLine(s)
  }

  /** A line feed before something that is no space starts no blank line. */
  lemma SolidIf(p: string)
    requires IsTrimmed(p)
    requires forall i | 0 <= i < |p| && p[i] == '\n' :: i + 1 < |p| && !IsSpace(p[i + 1])
    ensures Solid(p)
  {
    forall i | 0 <= i < |p| ensures BlankLine(p[i..]) == 0 {
      assert p[i..][0] == p[i];
      if p[i] == '\n' {
        assert p[i..][1..][0] == p[i + 1];
      }
    }
  }

  // ------------------------------------------------------- every answer has solid paragraphs

  lemma {:induction false} LongerSpaceRun(a: string, t: string)
    ensures SpaceRun(a) <= SpaceRun(a + t)
  {
    if a != "" && IsSpace(a[0]) {
      assert (a + t)[1..] == a[1..] + t;
      LongerSpaceRun(a[1..], t);
    }
  }

  lemma {:induction false} LaterFeed(s: string, k: nat, m: nat)
    requires k <= m <= |s|
    ensures AfterLastFeed(s, k) <= AfterLastFeed(s, m)
  {
    if k < m {
      LaterFeed(s, k, m - 1);
    }
  }

  /** A blank line stays one whatever follows. */
  lemma BlankLineOfFront(a: string, t: string)
    requires BlankLine(a) > 0
    ensures BlankLine(a + t) > 0
  {
    var k := SpaceRun(a[1..]);
    assert (a + t)[1..] == a[1..] + t;
    LongerSpaceRun(a[1..], t);
    assert (a[1..] + t)[..k] == a[1..][..k];
    SameFeeds(a[1..] + t, a[1..], k);
    LaterFeed(a[1..] + t, k, SpaceRun(a[1..] + t));
  }

  lemma NoBlankLineInFront(p: string, k: nat)
    requires NoBlankLine(p) && k <= |p|
    ensures NoBlankLine(p[..k])
  {
    forall i | 0 <= i < |p[..k]| ensures BlankLine(p[..k][i..]) == 0 {
      assert p[i..] == p[..k][i..] + p[k..];
      if BlankLine(p[..k][i..]) > 0 {
        BlankLineOfFront(p[..k][i..], p[k..]);
      }
    }
  }

  lemma {:induction false} LStripNoBlankLine(p: string)
    requires NoBlankLine(p)
    ensures NoBlankLine(LStrip(p)) && (LStrip(p) != "" ==> !IsSpace(LStrip(p)[0]))
  {
    if p != "" && IsSpace(p[0]) {
      NoBlankLineBehind(p, 1);
      LStripNoBlankLine(p[1..]);
    }
  }

  lemma {:induction false} RStripNoBlankLine(p: string)
    requires NoBlankLine(p) && (p != "" ==> !IsSpace(p[0]))
    ensures RStrip(p) == "" || Solid(RStrip(p))
  {
    if p != "" && IsSpace(p[|p| - 1]) {
      NoBlankLineInFront(p, |p| - 1);
      RStripNoBlankLine(p[..|p| - 1]);
    }
  }

  lemma StrippedIsSolid(p: string)
    requires NoBlankLine(p)
    ensures Strip(p) == "" || Solid(Strip(p))
  {
    LStripNoBlankLine(p);
    RStripNoBlankLine(LStrip(p));
  }

  predicate NoneHasBlankLine(chunks: seq<string>) {
    forall j | 0 <= j < |chunks| :: NoBlankLine(chunks[j])
  }

  lemma {:induction false} TrimmedIsSolid(chunks: seq<string>)
    requires NoneHasBlankLine(chunks)
    ensures AllSolid(Trimmed(chunks))
  {
    if chunks != [] {
      StrippedIsSolid(chunks[0]);
      TrimmedIsSolid(chunks[1..]);
    }
  }

  lemma NoneInFront(front: string, rest: seq<string>)
    requires NoBlankLine(front) && NoneHasBlankLine(rest)
    ensures NoneHasBlankLine([front] + rest)
  {
  }

  lemma NoneInRest(chunks: seq<string>)
    requires chunks != [] && NoneHasBlankLine(chunks)
    ensures NoBlankLine(chunks[0]) && NoneHasBlankLine(chunks[1..])
  {
  }

  lemma OneMoreInFront(c: char, p: string)
    requires NoBlankLine(p) && BlankLine([c] + p) == 0
    ensures NoBlankLine([c] + p)
  {
    forall i | 0 <= i < |[c] + p| ensures BlankLine(([c] + p)[i..]) == 0 {
      if i > 0 {
        assert ([c] + p)[i..] == p[i - 1..];
      } else {
        assert ([c] + p)[0..] == [c] + p;
      }
    }
  }

  /** Splitting at blank lines leaves none, */
  lemma {:induction false} ChunksHaveNone(s: string)
    ensures NoneHasBlankLine(Chunks(s)) && Chunks(s)[0] <= s
    decreases |s|
  {
    if s != "" {
      if BlankLine(s) > 0 {
        ChunksHaveNone(s[BlankLine(s)..]);
        NoneInFront("", Chunks(s[BlankLine(s)..]));
      } else {
        var rest := Chunks(s[1..]);
        ChunksHaveNone(s[1..]);
        NoneInRest(rest);
        FrontOf(s, rest[0]);
        OneMoreInFront(s[0], rest[0]);
        NoneInFront([s[0]] + rest[0], rest[1..]);
      }
    }
  }

  lemma FrontOf(s: string, p: string)
    requires s != "" && p <= s[1..] && BlankLine(s) == 0
    ensures [s[0]] + p <= s && BlankLine([s[0]] + p) == 0
  {
    assert s == [s[0]] + p + s[1 + |p|..];
    if BlankLine([s[0]] + p) > 0 {
      BlankLineOfFront([s[0]] + p, s[1 + |p|..]);
    }
  }

  /** and so does splitting at line feeds. */
  lemma {:induction false} LinesHaveNone(s: string)
    ensures NoneHasBlankLine(SplitAtFeeds(s)) && OnOneLine(SplitAtFeeds(s)[0])
  {
    if s != "" {
      var rest := SplitAtFeeds(s[1..]);
      LinesHaveNone(s[1..]);
      NoneInRest(rest);
      if s[0] == '\n' {
        NoneInFront("", rest);
      } else {
        OneMoreInFront(s[0], rest[0]);
        NoneInFront([s[0]] + rest[0], rest[1..]);
      }
    }
  }

  /** The paragraphs of every answer are trimmed, not empty and hold no blank line. */
  lemma AnswerIsSolid(answer: string)
    ensures AllSolid(Paragraphs(answer))
  {
    ChunksHaveNone(answer);
    TrimmedIsSolid(Chunks(answer));
    LinesHaveNone(answer);
    TrimmedIsSolid(SplitAtFeeds(answer));
  }

  // ------------------------------------------------------------------ the whole letter

  function Addressee(company: string, title: string): string {
    "Hiring Team\n" + company + "\nRe: " + title
  }

  function SignOffBlock(signer: string): string {
    "Sincerely,\n" + signer + "\n"
  }

  function Salutation(company: string): string {
    "Dear Hiring Team at " + company + ","
  }

  lemma AddresseeChars(company: string, title: string)
    ensures var s, n := Addressee(company, title), |company|;
            && |s| == 17 + n + |title| && (forall i | 0 <= i < 11 :: s[i] != '\n' && !IsSpace(s[0]))
            && (forall i | 12 <= i < 12 + n :: s[i] == company[i - 12])
            && s[12 + n] == '\n' && (forall i | 13 + n <= i < 17 + n :: s[i] != '\n') && s[13 + n] == 'R'
            && (forall i | 17 + n <= i < |s| :: s[i] == title[i - 17 - n])
  {
    var s, n := Addressee(company, title), |company|;
    assert s[..12] == "Hiring Team\n" && s[12 + n..17 + n] == "\nRe: ";
  }

  lemma AddresseeIsSolid(company: string, title: string)
    requires IsField(company) && IsField(title)
    ensures Solid(Addressee(company, title))
  {
    AddresseeChars(company, title);
    SolidIf(Addressee(company, title));
  }

  lemma SalutationIsSolid(company: string)
    requires IsField(company)
    ensures Solid(Salutation(company))
  {
    var s, n := Salutation(company), |company|;
    assert s[..20] == "Dear Hiring Team at " && s[20..20 + n] == company && s[20 + n..] == ",";
    forall i | 0 <= i < |s| ensures s[i] != '\n' {
      if 20 <= i < 20 + n {
        assert s[i] == company[i - 20];
      }
    }
    SolidIf(s);
  }

  lemma {:induction false} CommasOff(s: string)
    requires s != "" && s[0] != ','
    ensures WithoutCommas(s) != "" && WithoutCommas(s)[0] == s[0]
  {
    if s[|s| - 1] == ',' {
      CommasOff(s[..|s| - 1]);
    }
  }

  lemma {:induction false} RStripKeepsFirst(s: string)
    requires s != "" && !IsSpace(s[0])
    ensures RStrip(s) != "" && RStrip(s)[0] == s[0]
  {
    if IsSpace(s[|s| - 1]) {
      RStripKeepsFirst(s[..|s| - 1]);
    }
  }

  lemma NotClosing(p: string, cs: Chars)
    requires cs.Valid() && p != "" && !IsSpace(p[0]) && !MayClose(cs.lower(p[0])) && cs.lower(p[0]) != ','
    ensures !Closes(p, cs)
  {
    var line := FirstLine(p);
    assert line != "" && line[0] == p[0];
    RStripKeepsFirst(line);
    CommasOff(cs.Low(Strip(line)));
    assert cs.Low(p)[0] == cs.lower(p[0]);
  }

  lemma AddresseeDrops(company: string, title: string, cs: Chars)
    requires cs.Valid()
    ensures Judge(Addressee(company, title), cs) == Drops
  {
    var s := Addressee(company, title);
    assert s[..11] == "Hiring Team";
    LowOf(s, "Hiring Team", "hiring team", cs);
    NotClosing(s, cs);
  }

  lemma SalutationDrops(company: string, cs: Chars)
    requires cs.Valid()
    ensures Judge(Salutation(company), cs) == Drops
  {
    var s := Salutation(company);
    assert s[..5] == "Dear ";
    LowOf(s, "Dear ", "dear ", cs);
    NotClosing(s, cs);
  }

  lemma LowOf(s: string, start: string, low: string, cs: Chars)
    requires start <= s && |low| == |start| && forall i | 0 <= i < |start| :: cs.lower(start[i]) == low[i]
    ensures low <= cs.Low(s)
  {
    assert forall i | 0 <= i < |start| :: cs.Low(s)[i] == low[i];
  }

  lemma {:induction false} FirstChunkStarts(start: string, rest: string)
    requires forall i | 0 <= i < |start| :: start[i] != '\n'
    ensures start <= Chunks(start + rest)[0]
  {
    if start != "" {
      assert (start + rest)[1..] == start[1..] + rest;
      FirstChunkStarts(start[1..], rest);
      var c := Chunks(start[1..] + rest)[0];
      assert start == [start[0]] + start[1..];
    }
  }

  lemma {:induction false} RStripKeepsStart(s: string, n: nat)
    requires 0 < n <= |s| && !IsSpace(s[n - 1])
    ensures n <= |RStrip(s)| && RStrip(s)[..n] == s[..n]
  {
    if IsSpace(s[|s| - 1]) {
      RStripKeepsStart(s[..|s| - 1], n);
    }
  }

  /** The sign-off ends it, whoever signs. */
  lemma SignOffEnds(signer: string, cs: Chars)
    requires cs.Valid()
    ensures var ps := Trimmed(Chunks(SignOffBlock(signer))); ps != [] && Judge(ps[0], cs) == Ends
  {
    var chunks := Chunks(SignOffBlock(signer));
    assert SignOffBlock(signer) == "Sincerely" + (",\n" + signer + "\n");
    FirstChunkStarts("Sincerely", ",\n" + signer + "\n");
    StartStays(chunks[0], "Sincerely");
    SincerelyEnds(Strip(chunks[0]), cs);
  }

  lemma StartStays(c: string, start: string)
    requires start <= c && start != "" && !IsSpace(start[0]) && !IsSpace(start[|start| - 1])
    ensures start <= Strip(c)
  {
    RStripKeepsStart(c, |start|);
  }

  lemma SincerelyEnds(p: string, cs: Chars)
    requires cs.Valid() && "Sincerely" <= p
    ensures Judge(p, cs) == Ends
  {
    LowOf(p, "Sincerely", "sincerely", cs);
    assert cs.openers[0] <= cs.Low(p);
  }

  lemma {:induction false} KeptOfParts(ps: seq<string>, rest: seq<string>, judge: string -> Verdict)
    requires forall i | 0 <= i < |ps| :: judge(ps[i]) != Ends
    ensures KeptOf(ps + rest, judge) == KeptOf(ps, judge) + KeptOf(rest, judge)
  {
    if ps == [] {
      assert ps + rest == rest;
    } else {
      assert (ps + rest)[1..] == ps[1..] + rest;
      KeptOfParts(ps[1..], rest, judge);
    }
  }

  lemma {:induction false} AllKept(ps: seq<string>, judge: string -> Verdict)
    requires forall i | 0 <= i < |ps| :: judge(ps[i]) == Keeps(ps[i])
    ensures KeptOf(ps, judge) == ps
  {
    if ps != [] {
      AllKept(ps[1..], judge);
    }
  }

  function Letter(date: string, company: string, title: string, body: string, signer: string): string {
    Compose(date, company, title, Join(Paragraphs(body)), signer)
  }

  lemma LetterIs(date: string, company: string, title: string, paragraphs: string, signer: string)
    ensures Compose(date, company, title, paragraphs, signer)
         == date + "\n\n" + (Addressee(company, title) + "\n\n" + (Salutation(company) + "\n\n"
            + (paragraphs + "\n\n" + SignOffBlock(signer))))
  {
    assert UpToBody(date, company, title, paragraphs)
        == date + "\n\n" + Addressee(company, title) + "\n\n" + Salutation(company) + "\n\n" + paragraphs + "\n\n";
  }

  lemma EnvelopeOff(date: string, company: string, title: string, paragraphs: string, signer: string)
    requires Solid(date) && IsField(company) && IsField(title) && paragraphs != "" && !IsSpace(paragraphs[0])
    ensures Trimmed(Chunks(Compose(date, company, title, paragraphs, signer)))
         == [date] + ([Addressee(company, title)] + ([Salutation(company)]
            + Trimmed(Chunks(paragraphs + "\n\n" + SignOffBlock(signer)))))
  {
    LetterIs(date, company, title, paragraphs, signer);
    AddresseeIsSolid(company, title);
    SalutationIsSolid(company);
    ThreeOff(date, Addressee(company, title), Salutation(company), paragraphs + "\n\n" + SignOffBlock(signer));
  }

  lemma BodyParagraphs(ps: seq<string>)
    requires |ps| > 1 && AllSolid(ps)
    ensures Paragraphs(Join(ps)) == ps
  {
    JoinedSplit(ps);
  }

  lemma BodyThenSignOff(ps: seq<string>, signer: string)
    requires ps != [] && AllSolid(ps)
    ensures var text := Join(ps) + "\n\n" + SignOffBlock(signer);
            Join(ps) != "" && !IsSpace(Join(ps)[0]) && Trimmed(Chunks(text)) == ps + Trimmed(Chunks(SignOffBlock(signer)))
  {
    JoinedSplit(ps);
    assert SignOffBlock(signer)[0] == 'S';
    JoinedThen(ps, SignOffBlock(signer));
    ThenSplit(ps, SignOffBlock(signer));
  }

  /** The paragraphs of a composed letter. */
  lemma LetterParagraphs(date: string, company: string, title: string, ps: seq<string>, signer: string)
    requires Solid(date) && IsField(company) && IsField(title) && |ps| > 1 && AllSolid(ps)
    ensures Paragraphs(Letter(date, company, title, Join(ps), signer))
         == [date, Addressee(company, title), Salutation(company)] + ps + Trimmed(Chunks(SignOffBlock(signer)))
  {
    BodyParagraphs(ps);
    BodyThenSignOff(ps, signer);
    EnvelopeOff(date, company, title, Join(ps), signer);
    MoreThanOne(Letter(date, company, title, Join(ps), signer), date, Addressee(company, title), Salutation(company),
                ps, Trimmed(Chunks(SignOffBlock(signer))));
  }

  lemma ThreeOff(a: string, b: string, c: string, rest: string)
    requires Solid(a) && Solid(b) && Solid(c) && rest != "" && !IsSpace(rest[0])
    ensures Trimmed(Chunks(a + "\n\n" + (b + "\n\n" + (c + "\n\n" + rest)))) == [a] + ([b] + ([c] + Trimmed(Chunks(rest))))
  {
    ParagraphOff(c, rest);
    ParagraphOff(b, c + "\n\n" + rest);
    ParagraphOff(a, b + "\n\n" + (c + "\n\n" + rest));
  }

  lemma MoreThanOne(text: string, a: string, b: string, c: string, ps: seq<string>, rest: seq<string>)
    requires Trimmed(Chunks(text)) == [a] + ([b] + ([c] + (ps + rest)))
    ensures Paragraphs(text) == [a, b, c] + ps + rest
  {
    ThreeTogether(a, b, c, ps + rest);
    Regrouped([a, b, c], ps, rest);
  }

  lemma ThreeTogether<T>(a: T, b: T, c: T, rest: seq<T>)
    ensures [a] + ([b] + ([c] + rest)) == [a, b, c] + rest
  {
  }

  lemma HookAndParagraphs(hook: string, ps: seq<string>)
    requires Solid(hook) && AllSolid(ps)
    ensures AllSolid([hook] + ps)
  {
  }

  /** What is kept of a letter, however its paragraphs are judged. */
  lemma LetterKept(date: string, company: string, title: string, hook: string, ps: seq<string>, signer: string,
                   judge: string -> Verdict)
    requires Solid(date) && IsField(company) && IsField(title) && Solid(hook) && ps != [] && AllSolid(ps)
    requires judge(date) == Drops && judge(Addressee(company, title)) == Drops && judge(Salutation(company)) == Drops
    requires judge(hook) != Ends && forall i | 0 <= i < |ps| :: judge(ps[i]) == Keeps(ps[i])
    requires SignOffEndsFor(signer, judge)
    ensures KeptOf(Paragraphs(Letter(date, company, title, Join([hook] + ps), signer)), judge) == KeptHook(judge(hook)) + ps
  {
    HookAndParagraphs(hook, ps);
    LetterParagraphs(date, company, title, [hook] + ps, signer);
    KeptAfterThree(Paragraphs(Letter(date, company, title, Join([hook] + ps), signer)), date, Addressee(company, title),
                   Salutation(company), hook, ps, Trimmed(Chunks(SignOffBlock(signer))), judge);
  }

  lemma KeptAfterThree(paragraphs: seq<string>, a: string, b: string, c: string, hook: string, ps: seq<string>,
                       tail: seq<string>, judge: string -> Verdict)
    requires paragraphs == [a, b, c] + ([hook] + ps) + tail
    requires judge(a) == Drops && judge(b) == Drops && judge(c) == Drops
    requires judge(hook) != Ends && forall i | 0 <= i < |ps| :: judge(ps[i]) == Keeps(ps[i])
    requires tail != [] && judge(tail[0]) == Ends
    ensures KeptOf(paragraphs, judge) == KeptHook(judge(hook)) + ps
  {
    KeptOfLetter([a, b, c], hook, ps, tail, judge);
  }

  predicate SignOffEndsFor(signer: string, judge: string -> Verdict) {
    var ps := Trimmed(Chunks(SignOffBlock(signer)));
    ps != [] && judge(ps[0]) == Ends
  }

  lemma StrippedIs(letter: string, kept: seq<string>, cs: Chars)
    requires KeptOf(Paragraphs(letter), p => Judge(p, cs)) == kept && kept != [] && kept[0] != ""
    ensures Stripped(letter, cs) == Join(kept)
  {
    JoinNonEmpty(kept);
  }

  lemma KeptParagraphs(hook: string, ps: seq<string>, cs: Chars)
    requires ps != [] && AllSolid(ps)
    ensures var kept := KeptHook(Judge(hook, cs)) + ps; kept != [] && kept[0] != ""
  {
  }

  lemma EnvelopeJudged(date: string, company: string, title: string, signer: string, cs: Chars, judge: string -> Verdict)
    requires cs.Valid() && forall p :: judge(p) == Judge(p, cs)
    ensures judge(Addressee(company, title)) == Drops && judge(Salutation(company)) == Drops && SignOffEndsFor(signer, judge)
  {
    AddresseeDrops(company, title, cs);
    SalutationDrops(company, cs);
    SignOffEnds(signer, cs);
  }

  lemma LetterJudged(date: string, company: string, title: string, hook: string, ps: seq<string>, signer: string, cs: Chars,
                     judge: string -> Verdict)
    requires cs.Valid() && Solid(date) && IsField(company) && IsField(title) && Solid(hook) && ps != [] && AllSolid(ps)
    requires forall p :: judge(p) == Judge(p, cs)
    requires judge(date) == Drops && judge(hook) != Ends && forall i | 0 <= i < |ps| :: judge(ps[i]) == Keeps(ps[i])
    ensures KeptOf(Paragraphs(Letter(date, company, title, Join([hook] + ps), signer)), judge) == KeptHook(judge(hook)) + ps
  {
    EnvelopeJudged(date, company, title, signer, cs, judge);
    LetterKept(date, company, title, hook, ps, signer, judge);
  }

  /** What is left of a whole letter. */
  lemma LetterStripped(date: string, company: string, title: string, hook: string, ps: seq<string>, signer: string, cs: Chars)
    requires cs.Valid() && Solid(date) && IsField(company) && IsField(title) && Solid(hook) && ps != [] && AllSolid(ps)
    requires Judge(date, cs) == Drops && Judge(hook, cs) != Ends
    requires forall i | 0 <= i < |ps| :: Judge(ps[i], cs) == Keeps(ps[i])
    ensures Stripped(Letter(date, company, title, Join([hook] + ps), signer), cs) == Join(KeptHook(Judge(hook, cs)) + ps)
  {
    var letter, kept := Letter(date, company, title, Join([hook] + ps), signer), KeptHook(Judge(hook, cs)) + ps;
    KeptParagraphs(hook, ps, cs);
    assert KeptOf(Paragraphs(letter), p => Judge(p, cs)) == kept by {
      LetterJudged(date, company, title, hook, ps, signer, cs, p => Judge(p, cs));
    }
    StrippedIs(letter, kept, cs);
  }

  lemma KeptOfLetter(head: seq<string>, hook: string, ps: seq<string>, tail: seq<string>, judge: string -> Verdict)
    requires forall i | 0 <= i < |head| :: judge(head[i]) == Drops
    requires forall i | 0 <= i < |ps| :: judge(ps[i]) == Keeps(ps[i])
    requires judge(hook) != Ends && tail != [] && judge(tail[0]) == Ends
    ensures KeptOf(head + ([hook] + ps) + tail, judge) == KeptHook(judge(hook)) + ps
  {
    KeptOfBody(hook, ps, judge);
    KeptBetween(head, [hook] + ps, tail, judge);
  }

  lemma KeptBetween(head: seq<string>, ps: seq<string>, tail: seq<string>, judge: string -> Verdict)
    requires forall i | 0 <= i < |head| :: judge(head[i]) == Drops
    requires forall i | 0 <= i < |ps| :: judge(ps[i]) != Ends
    requires tail != [] && judge(tail[0]) == Ends
    ensures KeptOf(head + ps + tail, judge) == KeptOf(ps, judge)
  {
    KeptUpTo(ps, tail, judge);
    KeptAfter(head, ps + tail, judge);
    Regrouped(head, ps, tail);
  }

  lemma Regrouped<T>(a: seq<T>, b: seq<T>, c: seq<T>)
    ensures a + b + c == a + (b + c)
  {
  }

  lemma {:induction false} KeptAfter(head: seq<string>, rest: seq<string>, judge: string -> Verdict)
    requires forall i | 0 <= i < |head| :: judge(head[i]) == Drops
    ensures KeptOf(head + rest, judge) == KeptOf(rest, judge)
  {
    if head == [] {
      assert head + rest == rest;
    } else {
      assert (head + rest)[1..] == head[1..] + rest;
      KeptAfter(head[1..], rest, judge);
    }
  }

  lemma KeptUpTo(ps: seq<string>, tail: seq<string>, judge: string -> Verdict)
    requires forall i | 0 <= i < |ps| :: judge(ps[i]) != Ends
    requires tail != [] && judge(tail[0]) == Ends
    ensures KeptOf(ps + tail, judge) == KeptOf(ps, judge)
  {
    KeptOfParts(ps, tail, judge);
  }

  function KeptHook(v: Verdict): seq<string> {
    if v.Keeps? then [v.paragraph] else []
  }

  lemma KeptOfBody(hook: string, ps: seq<string>, judge: string -> Verdict)
    requires forall i | 0 <= i < |ps| :: judge(ps[i]) == Keeps(ps[i])
    requires judge(hook) != Ends
    ensures KeptOf([hook] + ps, judge) == KeptHook(judge(hook)) + ps
    ensures forall i | 0 <= i < |[hook] + ps| :: judge(([hook] + ps)[i]) != Ends
  {
    AllKept(ps, judge);
    assert ([hook] + ps)[1..] == ps;
    forall i | 0 <= i < |[hook] + ps| ensures judge(([hook] + ps)[i]) != Ends {
      assert i > 0 ==> ([hook] + ps)[i] == ps[i - 1];
    }
  }

  lemma JoinNonEmpty(ps: seq<string>)
    requires ps != [] && ps[0] != ""
    ensures Join(ps) != ""
  {
  }

  lemma HookIsSolid(reason: string, clause: string)
    requires (reason == "" || Solid(reason)) && IsTrimmed(clause) && OnOneLine(clause)
    ensures Solid(Hook(reason, clause))
  {
    var hook := Hook(reason, clause);
    assert hook[|hook| - 1] == clause[|clause| - 1];
    forall i | 0 <= i < |hook| ensures BlankLine(hook[i..]) == 0 {
      assert hook[i..][0] == hook[i];
      if i < |reason| {
        assert hook[i..] == reason[i..] + (" " + clause);
        assert reason[i..][|reason[i..]| - 1] == reason[|reason| - 1];
        BlankLineInside(reason[i..], " " + clause);
      } else if reason == "" {
        assert hook[i] in clause;
      } else {
        assert hook[i] == (" " + clause)[i - |reason|];
        assert i > |reason| ==> hook[i] == clause[i - |reason| - 1] && clause[i - |reason| - 1] in clause;
      }
    }
  }

  lemma ClauseOnOneLine(phrase: string, title: string, company: string)
    requires OnOneLine(phrase) && OnOneLine(title) && OnOneLine(company)
    ensures OnOneLine(RoleClause(phrase, title, company))
  {
    TailEnds(title, company);
    TogetherOnOneLine("My background ", phrase);
    TogetherOnOneLine("My background " + phrase, " ");
    TogetherOnOneLine("My background " + phrase + " ", ANCHOR);
    TogetherOnOneLine("My background " + phrase + " " + ANCHOR, " ");
    TogetherOnOneLine("My background " + phrase + " " + ANCHOR + " ", RoleTail(title, company));
  }

  lemma ClauseEnds(phrase: string, title: string, company: string)
    ensures var clause := RoleClause(phrase, title, company); EndsSentence(clause) && clause[0] == 'M'
  {
    RoleTailAt(title, company);
    var front := "My background " + phrase + " " + ANCHOR + " ";
    LastOfParts(front, RoleTail(title, company));
    Starts("My background ", phrase);
    Starts("My background " + phrase, " ");
    Starts("My background " + phrase + " ", ANCHOR);
    Starts("My background " + phrase + " " + ANCHOR, " ");
    Starts(front, RoleTail(title, company));
  }

  lemma Starts(a: string, b: string)
    requires a != ""
    ensures (a + b)[0] == a[0]
  {
  }

  function Maybe(p: string): seq<string> {
    if p == "" then [] else [p]
  }

  lemma JoinTells(a: string, b: string, ps: seq<string>)
    requires ps != []
    ensures Join(Maybe(a) + ps) == Join(Maybe(b) + ps) ==> a == b
  {
    JoinOne(a, ps);
    JoinOne(b, ps);
    if a != "" && b != "" && |a| == |b| {
      assert (a + "\n\n" + Join(ps))[..|a|] == a && (b + "\n\n" + Join(ps))[..|b|] == b;
    }
  }

  lemma JoinOne(a: string, ps: seq<string>)
    requires ps != []
    ensures Join(Maybe(a) + ps) == if a == "" then Join(ps) else a + "\n\n" + Join(ps)
  {
    if a == "" {
      assert [] + ps == ps;
    } else {
      assert ([a] + ps)[1..] == ps;
    }
  }

  lemma JudgedHook(hook: string, cs: Chars)
    requires !Closes(hook, cs) && !Heads(hook, cs)
    ensures KeptHook(Judge(hook, cs)) == Maybe(Strip(Clean(hook, cs)))
  {
  }

  lemma {:induction false} NothingLeftIff(clause: string, cs: Chars)
    requires OnOneLine(clause) && EndsSentence(clause)
    ensures Strip(Clean(clause, cs)) == "" <==> Clean(clause, cs) == ""
  {
    CleanEnd(clause, Anchored(cs));
    if Clean(clause, cs) != "" {
      StripKeepsLast(Clean(clause, cs));
    }
  }

  /** The reason that comes back, if any, together with whatever else is left of the hook. */
  lemma {:induction false} HookComesBackIff(reason: string, clause: string, cs: Chars)
    requires cs.Valid() && (reason == "" || Solid(reason))
    requires OnOneLine(clause) && EndsSentence(clause) && !IsSpace(clause[0])
    ensures Strip(Clean(Hook(reason, clause), cs)) == reason
       <==> Clean(clause, cs) == "" && (reason == "" || (EndsSentence(reason) && NoSentence(reason, Anchored(cs))))
  {
    if reason == "" {
      NothingLeftIff(clause, cs);
    } else {
      ReasonComesBackIff(reason, clause, cs);
    }
  }

  /** What taking a letter apart gives, whose body was built from this clause and these paragraphs. */
  function TakenApart(date: string, company: string, title: string, phrase: string, reason: string, ps: seq<string>,
                      signer: string, cs: Chars): string {
    Stripped(Letter(date, company, title, Build(reason, RoleClause(phrase, title, company), ps), signer), cs)
  }

  predicate IsModelAnswer(answer: string, cs: Chars) {
    Paragraphs(answer) != [] && forall i | 0 <= i < |Paragraphs(answer)| :: Judge(Paragraphs(answer)[i], cs) == Keeps(Paragraphs(answer)[i])
  }

  lemma AnswerTakenApart(date: string, company: string, title: string, hook: string, answer: string, signer: string, cs: Chars)
    requires cs.Valid() && Solid(date) && Judge(date, cs) == Drops && IsModelAnswer(answer, cs)
    requires IsField(company) && IsField(title) && Solid(hook) && !Closes(hook, cs) && !Heads(hook, cs)
    ensures Stripped(Letter(date, company, title, Join([hook] + Paragraphs(answer)), signer), cs)
         == Join(Maybe(Strip(Clean(hook, cs))) + Paragraphs(answer))
  {
    AnswerIsSolid(answer);
    JudgedHook(hook, cs);
    LetterStripped(date, company, title, hook, Paragraphs(answer), signer, cs);
  }

  lemma OwnHookIsSolid(reason: string, phrase: string, title: string, company: string)
    requires OnOneLine(company) && OnOneLine(title) && OnOneLine(phrase) && (reason == "" || Solid(reason))
    ensures Solid(Hook(reason, RoleClause(phrase, title, company)))
  {
    ClauseOnOneLine(phrase, title, company);
    ClauseEnds(phrase, title, company);
    HookIsSolid(reason, RoleClause(phrase, title, company));
  }

  lemma TakenApartIs(date: string, company: string, title: string, phrase: string, reason: string, answer: string,
                     signer: string, cs: Chars)
    requires cs.Valid() && Solid(date) && Judge(date, cs) == Drops && IsModelAnswer(answer, cs)
    requires IsField(company) && IsField(title) && OnOneLine(phrase) && (reason == "" || Solid(reason))
    requires var hook := Hook(reason, RoleClause(phrase, title, company)); !Closes(hook, cs) && !Heads(hook, cs)
    ensures TakenApart(date, company, title, phrase, reason, Paragraphs(answer), signer, cs)
         == Join(Maybe(Strip(Clean(Hook(reason, RoleClause(phrase, title, company)), cs))) + Paragraphs(answer))
  {
    OwnHookIsSolid(reason, phrase, title, company);
    AnswerTakenApart(date, company, title, Hook(reason, RoleClause(phrase, title, company)), answer, signer, cs);
  }

  lemma OwnHookComesBackIff(reason: string, phrase: string, title: string, company: string, cs: Chars)
    requires cs.Valid() && OnOneLine(company) && OnOneLine(title) && OnOneLine(phrase) && (reason == "" || Solid(reason))
    requires NoneHasAnchor(phrase, title, company, cs)
    ensures Strip(Clean(Hook(reason, RoleClause(phrase, title, company)), cs)) == reason
       <==> AllPlain(phrase, title, company)
            && (reason == "" || (EndsSentence(reason) && NoSentence(reason, Anchored(cs))))
  {
    ClauseOnOneLine(phrase, title, company);
    ClauseEnds(phrase, title, company);
    HookComesBackIff(reason, RoleClause(phrase, title, company), cs);
    ClauseGoesIff(phrase, title, company, cs);
  }

  /** Taking a composed letter apart gives back the opening reason and the paragraphs of the model's
      answer, for every date, signer and answer whose paragraphs read as such, exactly when the
      position, title and company have no sentence mark and the reason ends its sentence and holds the
      anchor in none. */
  lemma ScaffoldingRoundTrip(date: string, company: string, title: string, phrase: string, reason: string, answer: string,
                             signer: string, cs: Chars)
    requires cs.Valid() && Solid(date) && Judge(date, cs) == Drops && IsModelAnswer(answer, cs)
    requires IsField(company) && IsField(title) && OnOneLine(phrase) && (reason == "" || Solid(reason))
    requires var hook := Hook(reason, RoleClause(phrase, title, company)); !Closes(hook, cs) && !Heads(hook, cs)
    requires NoneHasAnchor(phrase, title, company, cs)
    ensures TakenApart(date, company, title, phrase, reason, Paragraphs(answer), signer, cs)
              == Join(Maybe(reason) + Paragraphs(answer))
       <==> AllPlain(phrase, title, company)
            && (reason == "" || (EndsSentence(reason) && NoSentence(reason, Anchored(cs))))
  {
    var clause := RoleClause(phrase, title, company);
    TakenApartIs(date, company, title, phrase, reason, answer, signer, cs);
    OwnHookComesBackIff(reason, phrase, title, company, cs);
    JoinTells(Strip(Clean(Hook(reason, clause), cs)), reason, Paragraphs(answer));
  }

  /** Without a reason the paragraphs come back exactly when no field has a sentence mark. */
  lemma ParagraphsComeBack(date: string, company: string, title: string, phrase: string, answer: string, signer: string,
                           cs: Chars)
    requires cs.Valid() && cs.lower('M') == 'm' && !cs.isDigit('M') && IsModelAnswer(answer, cs)
    requires Solid(date) && IsDate(date, cs) && !MayClose(cs.lower(date[0])) && cs.lower(date[0]) != ','
    requires IsField(company) && IsField(title) && OnOneLine(phrase) && NoneHasAnchor(phrase, title, company, cs)
    ensures TakenApart(date, company, title, phrase, "", Paragraphs(answer), signer, cs) == Join(Paragraphs(answer))
       <==> AllPlain(phrase, title, company)
  {
    DateDrops(date, cs);
    ClauseNoEnvelope(phrase, title, company, cs);
    ScaffoldingRoundTrip(date, company, title, phrase, "", answer, signer, cs);
    JoinOne("", Paragraphs(answer));
  }

  lemma DateDrops(date: string, cs: Chars)
    requires cs.Valid() && Solid(date) && IsDate(date, cs) && !MayClose(cs.lower(date[0])) && cs.lower(date[0]) != ','
    ensures Judge(date, cs) == Drops
  {
    NotClosing(date, cs);
  }

  lemma ClauseNoEnvelope(phrase: string, title: string, company: string, cs: Chars)
    requires cs.Valid() && cs.lower('M') == 'm' && !cs.isDigit('M')
    ensures !Closes(RoleClause(phrase, title, company), cs) && !Heads(RoleClause(phrase, title, company), cs)
  {
    ClauseEnds(phrase, title, company);
    NoEnvelope(RoleClause(phrase, title, company), cs);
  }

  lemma NoEnvelope(p: string, cs: Chars)
    requires cs.Valid() && p != "" && p[0] == 'M' && cs.lower('M') == 'm' && !cs.isDigit('M')
    ensures !Closes(p, cs) && !Heads(p, cs)
  {
    NotClosing(p, cs);
    assert cs.Low(p)[0] == 'm';
    NoDateStart(p, cs);
  }

  lemma NoDateStart(p: string, cs: Chars)
    requires p != "" && !cs.isDigit(p[0])
    ensures !IsDate(p, cs)
  {
  }
}
