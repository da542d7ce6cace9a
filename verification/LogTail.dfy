/** Reading the last lines of a log backwards, block by block
    (ops/guardian/logstream.py, tail_file).
 */
module LogTail {
  import opened Lines

  type byte = x: int | 0 <= x < 256

  const CR: byte := 13
  const LF: byte := 10

  predicate BreaksBytes(b: byte) {
    b == LF || b == CR
  }

  function ByteLines(data: seq<byte>): seq<seq<byte>> {
    SplitLines(data, BreaksBytes, CR, LF)
  }

  /** The Python slice `lines[-n:]`. */
  function LastN<T>(lines: seq<T>, n: int): seq<T> {
    if n > 0 then (if n >= |lines| then lines else lines[|lines| - n..])
    else if -n >= |lines| then [] else lines[-n..]
  }

  function Joined(lines: seq<seq<byte>>): seq<byte> {
    if |lines| == 0 then [] else if |lines| == 1 then lines[0] else lines[0] + [LF] + Joined(lines[1..])
  }

  lemma LastNOfSuffix<T>(a: seq<T>, b: seq<T>, n: nat)
    requires 1 <= n <= |b|
    ensures LastN(a + b, n) == LastN(b, n)
  {
  }

  lemma {:induction false} FirstLineFeed(data: seq<byte>) returns (k: nat)
    requires Count(data, LF) > 0
    ensures k < |data| && data[k] == LF && Count(data[k + 1..], LF) == Count(data, LF) - 1
  {
    if data[0] == LF {
      k := 0;
      assert data == [LF] + data[1..];
    } else {
      assert data == [data[0]] + data[1..];
      k := FirstLineFeed(data[1..]);
      assert data[1..][k + 1..] == data[k + 2..];
      k := k + 1;
    }
  }

  /** What follows a line feed decides the last n lines. */
  lemma LastLinesAfter(front: seq<byte>, rest: seq<byte>, n: nat)
    requires front != [] && front[|front| - 1] == LF && 1 <= n <= Count(rest, LF)
    ensures LastN(ByteLines(front + rest), n) == LastN(ByteLines(rest), n)
  {
    SplitAfterLineFeed(front, rest, BreaksBytes, CR, LF);
    AtLeastAsManyLines(rest, BreaksBytes, CR, LF);
    LastNOfSuffix(ByteLines(front), ByteLines(rest), n);
  }

  lemma CutAt(content: seq<byte>, end: nat, k: nat)
    requires end + k <= |content|
    ensures content[end..][k..] == content[end + k..]
    ensures content == content[..end + k] + content[end + k..] && content[end..] == content[end..][..k] + content[end + k..]
  {
  }

  /** A suffix with more than n line feeds has the same last n lines as the whole, although
      its own first line may be cut and may begin in the middle of a CR LF pair. */
  lemma SuffixSuffices(content: seq<byte>, end: nat, n: nat)
    requires end <= |content| && n >= 1 && Count(content[end..], LF) > n
    ensures LastN(ByteLines(content[end..]), n) == LastN(ByteLines(content), n)
  {
    var k := FirstLineFeed(content[end..]);
    CutAt(content, end, k + 1);
    var rest := content[end + k + 1..];
    LastLinesAfter(content[..end + k + 1], rest, n);
    LastLinesAfter(content[end..][..k + 1], rest, n);
  }

  /** For n >= 1 the result is the last n lines of the whole file and a line feed, whatever the
      block size. */
  method TailFile(content: seq<byte>, n: int, block: nat) returns (tail: seq<byte>)
    requires block > 0
    ensures n >= 1 ==> tail == Joined(LastN(ByteLines(content), n)) + [LF]
  {
    var end := |content|;
    var data, lines := [], 0;
    while end > 0 && lines <= n
      invariant 0 <= end <= |content| && data == content[end..] && lines == Count(data, LF)
      decreases end
    {
      var step := if block < end then block else end;
      end := end - step;
      var chunk := content[end..end + step];
      assert chunk + data == content[end..];
      data := chunk + data;
      lines := Count(data, LF);
    }
    if n >= 1 {
      if end > 0 {
        SuffixSuffices(content, end, n);
      } else {
        assert data == content;
      }
    }
    tail := Joined(LastN(ByteLines(data), n)) + [LF];
  }

  /** One line feed fewer would not do: with exactly n of them a suffix can lack a line. */
  lemma ExactlyNIsTooFew()
    ensures exists content: seq<byte>, end: nat ::
              && end <= |content| && Count(content[end..], LF) == 1
              && LastN(ByteLines(content[end..]), 1) != LastN(ByteLines(content), 1)
  {
    var content: seq<byte> := [65, 66, LF];
    OneLine([65, 66], BreaksBytes, CR, LF);
    OneLine([66], BreaksBytes, CR, LF);
    assert content == [65, 66] + [LF] && content[1..] == [66] + [LF];
    assert ByteLines(content) == [[65, 66]] && ByteLines(content[1..]) == [[66]];
  }
}
