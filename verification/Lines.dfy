/** Python's `splitlines`, for bytes and for text alike: the two differ only in which
    characters break a line. A carriage return followed by a line feed is one break, and a
    break at the very end opens no further line.
 */
module Lines {

  function FirstBreak<T>(s: seq<T>, brk: T -> bool): (e: nat)
    ensures e <= |s| && (e < |s| ==> brk(s[e]))
    ensures forall i | 0 <= i < e :: !brk(s[i])
  {
    if s == [] || brk(s[0]) then 0 else 1 + FirstBreak(s[1..], brk)
  }

  /** Where the line after the break at e starts. */
  function NextLine<T(==)>(s: seq<T>, cr: T, lf: T, e: nat): (next: nat)
    requires e < |s|
    ensures e < next <= |s|
  {
    if s[e] == cr && e + 1 < |s| && s[e + 1] == lf then e + 2 else e + 1
  }

  function SplitLines<T(==)>(s: seq<T>, brk: T -> bool, cr: T, lf: T): seq<seq<T>>
    decreases |s|
  {
    if s == [] then []
    else
      var e := FirstBreak(s, brk);
      if e == |s| then [s]
      else [s[..e]] + SplitLines(s[NextLine(s, cr, lf, e)..], brk, cr, lf)
  }

  lemma {:induction false} FirstBreakOfPrefix<T>(s: seq<T>, t: seq<T>, brk: T -> bool)
    requires FirstBreak(s, brk) < |s|
    ensures FirstBreak(s + t, brk) == FirstBreak(s, brk)
    decreases |s|
  {
    if !brk(s[0]) {
      FirstBreakOfPrefix(s[1..], t, brk);
      assert (s + t)[1..] == s[1..] + t;
    }
  }

  /** A line feed always ends a line, so the text after it splits on its own. This holds
      wherever the cut falls, even between a carriage return and its line feed before it. */
  lemma {:induction false} SplitAfterLineFeed<T>(s: seq<T>, t: seq<T>, brk: T -> bool, cr: T, lf: T)
    requires s != [] && s[|s| - 1] == lf && brk(lf) && cr != lf
    ensures SplitLines(s + t, brk, cr, lf) == SplitLines(s, brk, cr, lf) + SplitLines(t, brk, cr, lf)
    decreases |s|
  {
    var e := FirstBreak(s, brk);
    assert e < |s|;
    FirstBreakOfPrefix(s, t, brk);
    var next := NextLine(s, cr, lf, e);
    assert NextLine(s + t, cr, lf, e) == next;
    assert (s + t)[..e] == s[..e];
    assert (s + t)[next..] == s[next..] + t;
    if next < |s| {
      SplitAfterLineFeed(s[next..], t, brk, cr, lf);
    } else {
      assert s[next..] + t == t && s[next..] == [];
    }
  }

  function Count<T(==)>(s: seq<T>, x: T): nat {
    if s == [] then 0 else (if s[0] == x then 1 else 0) + Count(s[1..], x)
  }

  lemma {:induction false} CountOfParts<T>(a: seq<T>, b: seq<T>, x: T)
    ensures Count(a + b, x) == Count(a, x) + Count(b, x)
  {
    if a == [] {
      assert a + b == b;
    } else {
      CountOfParts(a[1..], b, x);
      assert (a + b)[1..] == a[1..] + b;
    }
  }

  lemma {:induction false} CountOfAbsent<T>(s: seq<T>, x: T)
    requires forall i | 0 <= i < |s| :: s[i] != x
    ensures Count(s, x) == 0
  {
    if s != [] { CountOfAbsent(s[1..], x); }
  }

  lemma OneLineFeedPerBreak<T>(s: seq<T>, cr: T, lf: T, e: nat)
    requires cr != lf && e < |s|
    ensures Count(s[e..NextLine(s, cr, lf, e)], lf) <= 1
  {
    var next := NextLine(s, cr, lf, e);
    if next == e + 1 {
      assert s[e..next] == [s[e]];
    } else {
      assert s[e..next] == [cr] + [lf];
      CountOfParts([cr], [lf], lf);
    }
  }

  /** A line and its break hold at most one line feed. */
  lemma OneLineFeedPerLine<T>(s: seq<T>, brk: T -> bool, cr: T, lf: T, e: nat)
    requires brk(lf) && cr != lf && e == FirstBreak(s, brk) < |s|
    ensures Count(s[..NextLine(s, cr, lf, e)], lf) <= 1
  {
    var next := NextLine(s, cr, lf, e);
    CountOfAbsent(s[..e], lf);
    CountOfParts(s[..e], s[e..next], lf);
    assert s[..next] == s[..e] + s[e..next];
    OneLineFeedPerBreak(s, cr, lf, e);
  }

  /** Each line feed ends a line of its own. */
  lemma {:induction false} AtLeastAsManyLines<T>(s: seq<T>, brk: T -> bool, cr: T, lf: T)
    requires brk(lf) && cr != lf
    ensures |SplitLines(s, brk, cr, lf)| >= Count(s, lf)
    decreases |s|
  {
    if s != [] {
      var e := FirstBreak(s, brk);
      if e == |s| {
        CountOfAbsent(s, lf);
      } else {
        var next := NextLine(s, cr, lf, e);
        AtLeastAsManyLines(s[next..], brk, cr, lf);
        OneLineFeedPerLine(s, brk, cr, lf, e);
        CountOfParts(s[..next], s[next..], lf);
        assert s == s[..next] + s[next..];
      }
    }
  }

  /** A piece without any break is one line once a line feed follows it. */
  lemma OneLine<T>(s: seq<T>, brk: T -> bool, cr: T, lf: T)
    requires brk(lf) && cr != lf && forall i | 0 <= i < |s| :: !brk(s[i])
    ensures SplitLines(s + [lf], brk, cr, lf) == [s]
  {
    var line := s + [lf];
    var e := FirstBreak(line, brk);
    assert line[|s|] == lf && forall i | 0 <= i < |s| :: line[i] == s[i];
    assert e == |s|;
    assert line[..e] == s && line[e + 1..] == [];
  }
}
