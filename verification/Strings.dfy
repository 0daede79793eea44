/** Zero-terminated byte strings: the terminator is not stored, and reading is
    only defined up to and including it. */
module Strings {

  type Char = c: int | 0 < c < 256 witness 1
  type Str = seq<Char>
  type Byte = b: int | 0 <= b < 256

  /** The byte at position d of the zero-terminated string. */
  function At(s: Str, d: nat): (c: Byte)
    requires d <= |s|
    ensures c == 0 <==> d == |s|
  {
    if d < |s| then s[d] else 0
  }

  ghost predicate SamePrefix(s: Str, t: Str, d: nat) {
    d <= |s| && d <= |t| && forall i :: 0 <= i < d ==> s[i] == t[i]
  }

  /** The longest common prefix has length l. */
  ghost predicate IsLcp(s: Str, t: Str, l: nat) {
    SamePrefix(s, t, l) && (l == |s| || l == |t| || s[l] != t[l])
  }

  /** calc_lcp: characters are compared until they differ or a string ends. */
  function LcpFrom(s: Str, t: Str, d: nat): (l: nat)
    requires d <= |s| && d <= |t|
    ensures d <= l <= |s| && l <= |t|
    ensures forall i :: d <= i < l ==> s[i] == t[i]
    ensures l == |s| || l == |t| || s[l] != t[l]
    decreases |s| - d
  {
    if d < |s| && d < |t| && s[d] == t[d] then LcpFrom(s, t, d + 1) else d
  }

  function Lcp(s: Str, t: Str): (l: nat)
    ensures IsLcp(s, t, l)
  {
    LcpFrom(s, t, 0)
  }

  /** Lexicographic order, decided at the first position where the strings differ. */
  predicate Leq(s: Str, t: Str) {
    var l := Lcp(s, t);
    At(s, l) <= At(t, l)
  }

  predicate Less(s: Str, t: Str) {
    Leq(s, t) && s != t
  }

  lemma LcpUnique(s: Str, t: Str, l: nat)
    requires IsLcp(s, t, l)
    ensures Lcp(s, t) == l
  {
    assert Lcp(s, t) >= l && l >= Lcp(s, t);
  }

  lemma LcpSymmetric(s: Str, t: Str)
    ensures Lcp(s, t) == Lcp(t, s)
  {
    LcpUnique(s, t, Lcp(t, s));
  }

  /** The order can be read off at any position known to end the common prefix. */
  lemma LeqAt(s: Str, t: Str, l: nat)
    requires SamePrefix(s, t, l)
    requires At(s, l) != At(t, l)
    ensures Lcp(s, t) == l
    ensures Leq(s, t) <==> At(s, l) < At(t, l)
    ensures s != t
  {
    LcpUnique(s, t, l);
  }

  lemma LeqEqual(s: Str, t: Str, l: nat)
    requires SamePrefix(s, t, l)
    requires At(s, l) == At(t, l) == 0
    ensures s == t && Lcp(s, t) == l && Leq(s, t)
  {
    LcpUnique(s, t, l);
  }

  lemma LeqTotal(s: Str, t: Str)
    ensures Leq(s, t) || Leq(t, s)
    ensures Leq(s, s)
  {
    LcpSymmetric(s, t);
    LeqEqual(s, s, |s|);
  }

  /** In a sorted triple the outer common prefix is the shorter inner one. */
  lemma LcpOfThree(s: Str, t: Str, u: Str)
    requires Leq(s, t) && Leq(t, u)
    ensures Leq(s, u)
    ensures Lcp(s, u) == if Lcp(s, t) <= Lcp(t, u) then Lcp(s, t) else Lcp(t, u)
  {
    var a, b := Lcp(s, t), Lcp(t, u);
    var m := if a <= b then a else b;
    assert SamePrefix(s, u, m);
    if At(s, m) == At(u, m) {
      assert At(s, m) <= At(t, m) <= At(u, m);
      assert At(s, m) == 0;
      LeqEqual(s, u, m);
    } else {
      assert At(s, m) <= At(t, m) <= At(u, m);
      LeqAt(s, u, m);
    }
  }

  /** All strings are at least d long and share their first d characters. */
  ghost predicate CommonPrefix(q: seq<Str>, d: nat) {
    forall i, j :: 0 <= i < |q| && 0 <= j < |q| ==> SamePrefix(q[i], q[j], d)
  }

  ghost predicate Sorted(q: seq<Str>) {
    forall i, j :: 0 <= i < j < |q| ==> Leq(q[i], q[j])
  }

  /** verify_lcp: every entry but the first is the exact LCP with the predecessor. */
  ghost predicate LcpExact(q: seq<Str>, lcp: seq<nat>) {
    |lcp| == |q| && forall i :: 1 <= i < |q| ==> lcp[i] == Lcp(q[i - 1], q[i])
  }

  /** Sortedness of neighbours is enough. */
  lemma {:induction false} SortedFromNeighbours(q: seq<Str>)
    requires forall i :: 1 <= i < |q| ==> Leq(q[i - 1], q[i])
    ensures Sorted(q)
  {
    forall i, j | 0 <= i < j < |q| ensures Leq(q[i], q[j]) {
      NeighbourChain(q, i, j);
    }
  }

  lemma {:induction false} NeighbourChain(q: seq<Str>, i: nat, j: nat)
    requires forall k :: 1 <= k < |q| ==> Leq(q[k - 1], q[k])
    requires i < j < |q|
    ensures Leq(q[i], q[j])
    decreases j
  {
    if i < j - 1 {
      NeighbourChain(q, i, j - 1);
      LcpOfThree(q[i], q[j - 1], q[j]);
    }
  }
}
