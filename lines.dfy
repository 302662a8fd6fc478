/**
 * How the old importer cuts the decompressed archive into lines with
 * `bufio.Reader.ReadBytes('\n')`: each call returns the bytes up to and
 * including the next newline; the bytes after the last newline come back
 * together with the stream's final error.
 */
module Lines {
  import opened Seqs

  newtype byte = b: int | 0 <= b < 256

  const Newline: byte := 10

  /** A complete line: ends with its newline and holds no other. */
  predicate IsLine(l: seq<byte>) {
    |l| > 0 && l[|l| - 1] == Newline && Newline !in l[..|l| - 1]
  }

  /** Every element is a complete line. */
  predicate AllLines(ls: seq<seq<byte>>) {
    forall i :: 0 <= i < |ls| ==> IsLine(ls[i])
  }

  /** The offset of the first newline at or after `from`, or |s|. */
  function NextNewline(s: seq<byte>, from: nat): (k: nat)
    requires from <= |s|
    ensures from <= k <= |s|
    ensures k < |s| ==> s[k] == Newline
    ensures Newline !in s[from..k]
    decreases |s| - from
  {
    if from == |s| then from
    else if s[from] == Newline then from
    else
      var k := NextNewline(s, from + 1);
      assert s[from..k] == [s[from]] + s[from + 1..k];
      k
  }

  /**
   * One `ReadBytes('\n')` from offset `pos`: the chunk read, the offset
   * after it, and whether it ended with a newline (otherwise the reader
   * has reached the end of the stream).
   */
  function ReadBytes(s: seq<byte>, pos: nat): (r: (seq<byte>, nat, bool))
    requires pos <= |s|
    ensures r.2 ==> pos < r.1 <= |s| && r.0 == s[pos..r.1] && IsLine(r.0)
    ensures !r.2 ==> r.1 == |s| && r.0 == s[pos..] && Newline !in r.0
  {
    var k := NextNewline(s, pos);
    if k < |s| then (s[pos..k + 1], k + 1, true) else (s[pos..], |s|, false)
  }

  /**
   * The complete lines of s, in order, and the unterminated tail after the
   * last newline (empty when s ends with a newline).
   */
  function Chunks(s: seq<byte>): (r: (seq<seq<byte>>, seq<byte>))
    ensures Concat(r.0) + r.1 == s
    ensures AllLines(r.0)
    ensures Newline !in r.1
    decreases |s|
  {
    var first := ReadBytes(s, 0);
    if !first.2 then ([], s)
    else
      var line, after := first.0, s[first.1..];
      var rest := Chunks(after);
      assert s == line + after;
      ConcatCons(line, rest.0);
      assert Concat([line] + rest.0) + rest.1 == s;
      AllLinesCons(line, rest.0);
      ([line] + rest.0, rest.1)
  }

  lemma AllLinesCons(l: seq<byte>, ls: seq<seq<byte>>)
    requires IsLine(l) && AllLines(ls)
    ensures AllLines([l] + ls)
  {
  }

  /** Reading on from a newline found at `pos` continues with the rest of the lines. */
  lemma ChunksStep(s: seq<byte>, pos: nat)
    requires pos <= |s|
    requires ReadBytes(s, pos).2
    ensures Chunks(s[pos..]).0 == [ReadBytes(s, pos).0] + Chunks(s[ReadBytes(s, pos).1..]).0
    ensures Chunks(s[pos..]).1 == Chunks(s[ReadBytes(s, pos).1..]).1
  {
    var (line, next, found) := ReadBytes(s, pos);
    var t := s[pos..];
    assert NextNewline(t, 0) == NextNewline(s, pos) - pos by {
      NextNewlineShift(s, pos, pos);
    }
    assert ReadBytes(t, 0).1 == next - pos;
    assert ReadBytes(t, 0).0 == t[..next - pos] == line;
    assert t[next - pos..] == s[next..];
    assert Chunks(t) == ([line] + Chunks(t[next - pos..]).0, Chunks(t[next - pos..]).1);
  }

  lemma {:induction false} NextNewlineShift(s: seq<byte>, pos: nat, from: nat)
    requires pos <= from <= |s|
    ensures NextNewline(s[pos..], from - pos) == NextNewline(s, from) - pos
    decreases |s| - from
  {
    if from < |s| && s[from] != Newline {
      NextNewlineShift(s, pos, from + 1);
    }
  }

  /** At the end of the stream nothing is left but the tail. */
  lemma ChunksAtEnd(s: seq<byte>, pos: nat)
    requires pos <= |s|
    requires !ReadBytes(s, pos).2
    ensures Chunks(s[pos..]) == ([], s[pos..])
  {
    NextNewlineShift(s, pos, pos);
  }

  lemma {:induction false} ConcatLinesFirst(ls: seq<seq<byte>>, t: seq<byte>)
    requires ls != []
    requires AllLines(ls)
    ensures NextNewline(Concat(ls) + t, 0) == |ls[0]| - 1
  {
    var s := Concat(ls) + t;
    assert s == ls[0] + (Concat(ls[1..]) + t);
    var l := ls[0];
    assert s[..|l|] == l;
    NextNewlineIn(s, |l| - 1);
  }

  lemma {:induction false} NextNewlineIn(s: seq<byte>, k: nat)
    requires k < |s| && s[k] == Newline && Newline !in s[..k]
    ensures NextNewline(s, 0) == k
  {
    var j := NextNewline(s, 0);
    assert s[0..j] == s[..j];
  }

  /**
   * The decomposition is unique: any sequence of complete lines followed
   * by a newline-free tail that spells s is the one Chunks finds.
   */
  lemma {:induction false} ChunksUnique(s: seq<byte>, ls: seq<seq<byte>>, t: seq<byte>)
    requires Concat(ls) + t == s
    requires AllLines(ls)
    requires Newline !in t
    ensures Chunks(s) == (ls, t)
    decreases |ls|
  {
    if ls == [] {
      assert s == t;
      assert NextNewline(s, 0) == |s|;
    } else {
      ConcatLinesFirst(ls, t);
      var l := ls[0];
      assert s == l + (Concat(ls[1..]) + t);
      assert s[..|l|] == l;
      assert s[|l|..] == Concat(ls[1..]) + t;
      ChunksUnique(s[|l|..], ls[1..], t);
      assert ls == [l] + ls[1..];
    }
  }

  /**
   * The reader's position against the lines of the whole stream: when the
   * rest from pos holds lines[i..], the next read either yields lines[i]
   * and leaves lines[i + 1..], or finds no newline because i == |lines|.
   */
  lemma ReadNext(s: seq<byte>, pos: nat, i: nat)
    requires pos <= |s| && i <= |Chunks(s).0|
    requires Chunks(s[pos..]).0 == Chunks(s).0[i..]
    ensures ReadBytes(s, pos).2 ==>
      i < |Chunks(s).0| && Chunks(s).0[i] == ReadBytes(s, pos).0 &&
      Chunks(s[ReadBytes(s, pos).1..]).0 == Chunks(s).0[i + 1..]
    ensures !ReadBytes(s, pos).2 ==> i == |Chunks(s).0|
  {
    var lines := Chunks(s).0;
    if ReadBytes(s, pos).2 {
      ChunksStep(s, pos);
      assert lines[i..] == [lines[i]] + lines[i + 1..];
    } else {
      ChunksAtEnd(s, pos);
    }
  }
}
