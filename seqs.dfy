/** Sequence helpers shared by the line reader and both import loops. */
module Seqs {

  /** The pieces of ss joined in order. */
  function Concat<T>(ss: seq<seq<T>>): seq<T>
    decreases |ss|
  {
    if ss == [] then [] else ss[0] + Concat(ss[1..])
  }

  lemma ConcatCons<T>(s: seq<T>, ss: seq<seq<T>>)
    ensures Concat([s] + ss) == s + Concat(ss)
  {
    assert ([s] + ss)[1..] == ss;
  }

  /** The index of the first element satisfying p, or |s| when there is none. */
  function FirstWhere<T>(s: seq<T>, p: T -> bool): (k: nat)
    ensures k <= |s|
    ensures forall i :: 0 <= i < k ==> !p(s[i])
    ensures k < |s| ==> p(s[k])
    decreases |s|
  {
    if s == [] then 0
    else if p(s[0]) then 0
    else 1 + FirstWhere(s[1..], p)
  }

  /** Elements after the first match do not move it. */
  lemma FirstWhereAppend<T>(s: seq<T>, t: seq<T>, p: T -> bool)
    requires FirstWhere(s, p) < |s|
    ensures FirstWhere(s + t, p) == FirstWhere(s, p)
  {
    var k, k' := FirstWhere(s, p), FirstWhere(s + t, p);
    assert (s + t)[k] == s[k];
    if k' < k {
      assert (s + t)[k'] == s[k'];
    }
  }

  /** Scanning one element further: either it is the first match, or the match lies beyond it. */
  lemma FirstWhereStep<T>(s: seq<T>, p: T -> bool, i: nat)
    requires i <= FirstWhere(s, p) && i < |s|
    ensures p(s[i]) ==> FirstWhere(s, p) == i
    ensures !p(s[i]) ==> i < FirstWhere(s, p)
  {
  }

  /** The indices of the elements satisfying p, in increasing order. */
  function Positions<T>(s: seq<T>, p: T -> bool): (ix: seq<nat>)
    ensures forall j :: 0 <= j < |ix| ==> ix[j] < |s| && p(s[ix[j]])
    ensures forall j1, j2 :: 0 <= j1 < j2 < |ix| ==> ix[j1] < ix[j2]
    ensures forall i :: 0 <= i < |s| && p(s[i]) ==> i in ix
    decreases |s|
  {
    if s == [] then []
    else
      var n := |s| - 1;
      assert forall i :: 0 <= i < n ==> s[..n][i] == s[i];
      Positions(s[..n], p) + (if p(s[n]) then [n] else [])
  }

  lemma AppendAssoc<T>(a: seq<T>, b: seq<T>, c: seq<T>)
    ensures (a + b) + c == a + (b + c)
  {
  }

  /** Exchanging two elements permutes the sequence. */
  lemma SwapKeepsMultiset<T>(s: seq<T>, i: nat, j: nat)
    requires i < j < |s|
    ensures multiset(s[i := s[j]][j := s[i]]) == multiset(s)
  {
    var t := s[i := s[j]][j := s[i]];
    assert t == s[..i] + [s[j]] + s[i + 1..j] + [s[i]] + s[j + 1..];
    assert s == s[..i] + [s[i]] + s[i + 1..j] + [s[j]] + s[j + 1..];
  }

  /** Two permutations of each other that end alike are permutations without their ends. */
  lemma DropLastKeepsMultiset<T>(a: seq<T>, c: seq<T>)
    requires multiset(a) == multiset(c) && |a| == |c| > 0 && a[|a| - 1] == c[|c| - 1]
    ensures multiset(a[..|a| - 1]) == multiset(c[..|c| - 1])
  {
    var n := |a| - 1;
    assert a == a[..n] + [a[n]] && c == c[..n] + [a[n]];
    var x, y := multiset(a[..n]), multiset(c[..n]);
    assert x + multiset{a[n]} == y + multiset{a[n]};
    assert forall e :: x[e] == (x + multiset{a[n]})[e] - multiset{a[n]}[e];
    assert forall e :: y[e] == (y + multiset{a[n]})[e] - multiset{a[n]}[e];
  }
}
