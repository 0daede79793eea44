/** Out-of-place distribution by buckets, part by part: where every string goes, and why the
    result does not depend on who moves which string when. */
module Distribution {
  import opened Strings
  import opened Permute
  import opened Buckets

  /** Number of entries c among g[x..y]. */
  ghost function Count(g: seq<nat>, x: nat, y: nat, c: nat): (k: nat)
    requires y <= |g|
    ensures k <= if x <= y then y - x else 0
    decreases y
  {
    if y <= x then 0 else Count(g, x, y - 1, c) + (if g[y - 1] == c then 1 else 0)
  }

  lemma {:induction false} CountSplit(g: seq<nat>, x: nat, y: nat, z: nat, c: nat)
    requires x <= y <= z <= |g|
    ensures Count(g, x, z, c) == Count(g, x, y, c) + Count(g, y, z, c)
    decreases z
  {
    if y < z { CountSplit(g, x, y, z - 1, c); }
  }

  lemma CountFirst(g: seq<nat>, x: nat, y: nat, c: nat)
    requires x < y <= |g|
    ensures Count(g, x, y, c) == (if g[x] == c then 1 else 0) + Count(g, x + 1, y, c)
  {
    CountSplit(g, x, x + 1, y, c);
    assert Count(g, x, x, c) == 0;
  }

  lemma {:induction false} CountIsMultiset(g: seq<nat>, c: nat, y: nat)
    requires y <= |g|
    ensures Count(g, 0, y, c) == multiset(g[..y])[c]
  {
    if y > 0 {
      CountIsMultiset(g, c, y - 1);
      assert g[..y] == g[..y - 1] + [g[y - 1]];
    }
  }

  /** The parts into which the strings are cut: part p is cuts[p]..cuts[p + 1]. */
  ghost predicate IsCuts(cuts: seq<nat>, n: nat) {
    && |cuts| >= 2 && cuts[0] == 0 && cuts[|cuts| - 1] == n
    && forall p, q :: 0 <= p <= q < |cuts| ==> cuts[p] <= cuts[q]
  }

  ghost predicate InPart(cuts: seq<nat>, p: nat, i: nat) {
    p + 1 < |cuts| && cuts[p] <= i < cuts[p + 1]
  }

  lemma {:induction false} FindPart(cuts: seq<nat>, i: nat, q: nat) returns (p: nat)
    requires |cuts| > 0 && cuts[0] <= i && q < |cuts| && i < cuts[q]
    ensures p < q && InPart(cuts, p, i)
  {
    if cuts[q - 1] <= i { p := q - 1; } else { p := FindPart(cuts, i, q - 1); }
  }

  /** The bucket boundary of part p and bucket c after the prefix sum, when the strings of
      the part before position i have been moved. */
  ghost function Border(g: seq<nat>, size: seq<nat>, cuts: seq<nat>, p: nat, c: nat, i: nat): nat
    requires IsCuts(cuts, |g|) && p + 1 < |cuts| && c < |size| && cuts[p] <= i <= cuts[p + 1]
  {
    assert cuts[p + 1] <= cuts[|cuts| - 1];
    Start(size, c) + Count(g, 0, cuts[p], c) + Count(g, i, cuts[p + 1], c)
  }

  /** The place of string i, which lies in part p. */
  ghost function Dest(g: seq<nat>, size: seq<nat>, cuts: seq<nat>, p: nat, i: nat): nat
    requires IsCuts(cuts, |g|) && InPart(cuts, p, i) && i < |g| && g[i] < |size|
  {
    Border(g, size, cuts, p, g[i], i + 1)
  }

  /** Moving string i takes the boundary of its bucket down by one, to its place. */
  lemma BorderStep(g: seq<nat>, size: seq<nat>, cuts: seq<nat>, p: nat, c: nat, i: nat)
    requires IsCuts(cuts, |g|) && InPart(cuts, p, i) && i < |g| && c < |size| && g[i] < |size|
    ensures Border(g, size, cuts, p, c, i) == Border(g, size, cuts, p, c, i + 1) + (if g[i] == c then 1 else 0)
    ensures Dest(g, size, cuts, p, i) + 1 == Border(g, size, cuts, p, g[i], i)
  {
    assert cuts[p + 1] <= cuts[|cuts| - 1];
    CountFirst(g, i, cuts[p + 1], c);
    CountFirst(g, i, cuts[p + 1], g[i]);
  }

  /** The inclusive prefix sum is the boundary before anything has been moved. */
  lemma BorderInclusive(g: seq<nat>, size: seq<nat>, cuts: seq<nat>, p: nat, c: nat)
    requires IsCuts(cuts, |g|) && p + 1 < |cuts| && c < |size|
    ensures cuts[p + 1] <= |g|
    ensures Border(g, size, cuts, p, c, cuts[p]) == Start(size, c) + Count(g, 0, cuts[p + 1], c)
  {
    assert cuts[p + 1] <= cuts[|cuts| - 1];
    CountSplit(g, 0, cuts[p], cuts[p + 1], c);
  }

  lemma BorderExclusive(g: seq<nat>, size: seq<nat>, cuts: seq<nat>, c: nat)
    requires IsCuts(cuts, |g|) && c < |size|
    ensures Border(g, size, cuts, 0, c, cuts[1]) == Start(size, c)
  {
  }

  /** Every string goes into its bucket. */
  lemma DestInBucket(g: seq<nat>, size: seq<nat>, cuts: seq<nat>, p: nat, i: nat)
    requires IsCuts(cuts, |g|) && InPart(cuts, p, i) && i < |g| && Counts(g, size)
    ensures Start(size, g[i]) <= Dest(g, size, cuts, p, i) < Start(size, g[i] + 1) <= |g|
    ensures Dest(g, size, cuts, p, i) < Start(size, g[i]) + Count(g, 0, cuts[p + 1], g[i])
  {
    var c := g[i];
    assert cuts[p + 1] <= cuts[|cuts| - 1];
    BorderStep(g, size, cuts, p, c, i);
    CountSplit(g, 0, cuts[p], cuts[p + 1], c);
    CountSplit(g, cuts[p], i, cuts[p + 1], c);
    CountSplit(g, 0, cuts[p + 1], |g|, c);
    CountIsMultiset(g, c, |g|);
    assert g[..|g|] == g;
    StartTotal(g, size);
    StartMono(size, c + 1, |size|);
  }

  /** No two strings go to the same place. */
  lemma DestInjective(g: seq<nat>, size: seq<nat>, cuts: seq<nat>, p: nat, i: nat, q: nat, j: nat)
    requires IsCuts(cuts, |g|) && Counts(g, size)
    requires InPart(cuts, p, i) && i < |g| && InPart(cuts, q, j) && j < |g| && i < j
    ensures Dest(g, size, cuts, p, i) != Dest(g, size, cuts, q, j)
  {
    var c := g[i];
    DestInBucket(g, size, cuts, p, i);
    DestInBucket(g, size, cuts, q, j);
    if g[j] != c {
      if c < g[j] { StartMono(size, c + 1, g[j]); } else { StartMono(size, g[j] + 1, c); }
    } else if p == q {
      CountSplit(g, i + 1, j, cuts[p + 1], c);
      CountFirst(g, j, cuts[p + 1], c);
    } else {
      assert cuts[if q + 1 <= p then q + 1 else p] <= cuts[p];
      assert cuts[p + 1] <= cuts[q];
      CountSplit(g, 0, cuts[p + 1], cuts[q], c);
    }
  }

  // ---- a scattered sequence is a permutation -------------------------------------------

  /** The entries of q stand in r at the distinct places dest. */
  ghost predicate Scattered<T>(q: seq<T>, r: seq<T>, dest: seq<nat>) {
    && |q| == |r| == |dest|
    && (forall i :: 0 <= i < |dest| ==> dest[i] < |r| && r[dest[i]] == q[i])
    && (forall i, j :: 0 <= i < j < |dest| ==> dest[i] != dest[j])
  }

  ghost function Without<T>(s: seq<T>, d: nat): (r: seq<T>)
    requires d < |s|
    ensures |r| == |s| - 1
    ensures forall k :: 0 <= k < |r| ==> r[k] == s[if k < d then k else k + 1]
  {
    s[..d] + s[d + 1..]
  }

  ghost function Lowered(dest: seq<nat>, d: nat): seq<nat> {
    seq(|dest|, i requires 0 <= i < |dest| => if dest[i] > d then dest[i] - 1 else dest[i])
  }

  lemma ScatteredInit<T>(q: seq<T>, r: seq<T>, dest: seq<nat>)
    requires q != [] && Scattered(q, r, dest)
    ensures dest[|q| - 1] < |r|
    ensures var n, d := |q| - 1, dest[|q| - 1]; Scattered(q[..n], Without(r, d), Lowered(dest[..n], d))
  {
    var n := |q| - 1;
    var d := dest[n];
    var q', r', dest' := q[..n], Without(r, d), Lowered(dest[..n], d);
    forall i | 0 <= i < n ensures dest'[i] < |r'| && r'[dest'[i]] == q'[i] {
      assert dest[i] != dest[n] && r[dest[i]] == q[i];
    }
    forall i, j | 0 <= i < j < n ensures dest'[i] != dest'[j] {
      assert dest[i] != dest[j] && dest[i] != dest[n] && dest[j] != dest[n];
    }
  }

  lemma WithoutMultiset<T>(s: seq<T>, d: nat)
    requires d < |s|
    ensures multiset(s) == multiset(Without(s, d)) + multiset{s[d]}
  {
    assert s == s[..d] + [s[d]] + s[d + 1..];
  }

  lemma {:induction false} ScatteredMultiset<T>(q: seq<T>, r: seq<T>, dest: seq<nat>)
    requires Scattered(q, r, dest)
    ensures multiset(r) == multiset(q)
  {
    if q != [] {
      var n := |q| - 1;
      var d := dest[n];
      ScatteredInit(q, r, dest);
      ScatteredMultiset(q[..n], Without(r, d), Lowered(dest[..n], d));
      WithoutMultiset(q, n);
      WithoutMultiset(r, d);
      assert Without(q, n) == q[..n];
    }
  }

  /** Every place is taken. */
  lemma {:induction false} ScatteredOnto<T>(q: seq<T>, r: seq<T>, dest: seq<nat>, k: nat) returns (i: nat)
    requires Scattered(q, r, dest) && k < |r|
    ensures i < |dest| && dest[i] == k
  {
    var n := |q| - 1;
    var d := dest[n];
    if k == d {
      i := n;
    } else {
      ScatteredInit(q, r, dest);
      i := ScatteredOnto(q[..n], Without(r, d), Lowered(dest[..n], d), if k < d then k else k - 1);
    }
  }

  /** All strings moved: the result is a permutation in ascending buckets. */
  lemma ScatteredBuckets(q: seq<Str>, r: seq<Str>, dest: seq<nat>, g: seq<nat>, size: seq<nat>, f: Str -> nat)
    requires Scattered(q, r, dest) && Counts(g, size) && Paired(g, q, f)
    requires forall i :: 0 <= i < |g| ==> Start(size, g[i]) <= dest[i] < Start(size, g[i] + 1)
    ensures InBuckets(r, size, f)
  {
    StartTotal(g, size);
    forall c, p | 0 <= c < |size| && Start(size, c) <= p < Start(size, c + 1) && p < |r| ensures f(r[p]) == c {
      var i := ScatteredOnto(q, r, dest, p);
      assert f(r[p]) == g[i];
      SameBucket(size, c, g[i], p);
    }
  }
}
