/** LCP insertion sort: most comparisons are decided from the LCP array alone, and the LCP
    array and the distinguishing characters are kept exact while strings move. */
module LcpInsertionSort {
  import opened Strings
  import opened Keys
  import opened Buckets
  import opened InsertionSort
  import opened LcpOutput

  /** Strings, their LCPs and distinguishing characters: position k is in order with its predecessor. */
  ghost predicate Exact(q: seq<Str>, l: seq<nat>, c: seq<Byte>, k: nat)
    requires 0 < k < |q| && |l| == |c| == |q|
  {
    && Leq(q[k - 1], q[k]) && l[k] == Lcp(q[k - 1], q[k]) && c[k] == At(q[k], l[k])
  }

  ghost predicate AllExact(q: seq<Str>, l: seq<nat>, c: seq<Byte>, x: nat, y: nat) {
    |l| == |c| == |q| && y <= |q| && forall k :: x < k < y ==> Exact(q, l, c, k)
  }

  /** The first j strings are sorted, and position j already carries the LCP with a string
      that is not there yet: the common prefix of all. */
  ghost predicate Prepared(q: seq<Str>, l: seq<nat>, c: seq<Byte>, j: nat, depth: nat) {
    && AllExact(q, l, c, 0, j) && CommonPrefix(q, depth) && (0 < j < |q| ==> l[j] == depth)
  }

  /** String j of the original order stands at position i; everything behind it up to j has moved
      up by one and is not less; y is its LCP with its successor. Position i is not yet decided. */
  ghost predicate Around(h: seq<Str>, l: seq<nat>, c: seq<Byte>, i: nat, j: nat, y: nat, depth: nat) {
    && i <= j < |h| == |l| == |c| && CommonPrefix(h, depth)
    && AllExact(h, l, c, 0, i) && AllExact(h, l, c, i + 1, j + 1)
    && (i < j ==> Leq(h[i], h[i + 1]) && y == Lcp(h[i], h[i + 1]))
    && (i == j ==> y == depth)
    && (i < j && j + 1 < |h| ==> l[j + 1] == depth)
  }

  /** The entry at position i still belongs to the pair around the inserted string. */
  ghost predicate Undecided(h: seq<Str>, l: seq<nat>, c: seq<Byte>, i: nat, j: nat, depth: nat) {
    i <= j < |h| == |l| == |c| && i > 0 ==>
      && (i == j ==> l[i] == depth)
      && (i < j ==> && Leq(h[i - 1], h[i + 1]) && l[i] == Lcp(h[i - 1], h[i + 1])
                    && l[i] <= |h[i + 1]| && c[i] == c[i + 1] == At(h[i + 1], l[i]))
  }

  function Put<T>(s: seq<T>, i: nat, x: T): seq<T> {
    if i < |s| then s[i := x] else s
  }

  /** CASE 1: the LCP goes down, so the string to the left is smaller. */
  lemma DecideLower(h: seq<Str>, l: seq<nat>, c: seq<Byte>, i: nat, j: nat, y: nat, depth: nat)
    requires Around(h, l, c, i, j, y, depth) && Undecided(h, l, c, i, j, depth)
    requires i > 0 && l[i] < y
    ensures Exact(h, l, c, i)
  {
    var s, x, t := h[i - 1], h[i], h[i + 1];
    var m := l[i];
    if At(s, m) == At(t, m) { LeqEqual(s, t, m); }
    LeqAt(s, x, m);
  }

  /** CASE 3: the LCP with the left neighbour goes up, so that one is larger. */
  lemma DecideHigher(h: seq<Str>, l: seq<nat>, c: seq<Byte>, i: nat, j: nat, y: nat, depth: nat)
    requires Around(h, l, c, i, j, y, depth) && Undecided(h, l, c, i, j, depth)
    requires i > 0 && l[i] > y
    ensures Leq(h[i], h[i - 1]) && y == Lcp(h[i], h[i - 1])
  {
    var s, x, t := h[i - 1], h[i], h[i + 1];
    assert At(x, y) < At(t, y) == At(s, y);
    LeqAt(x, s, y);
  }

  /** CASE 2 starts comparing behind a prefix that both strings share with the successor. */
  lemma DecideEqual(h: seq<Str>, l: seq<nat>, c: seq<Byte>, i: nat, j: nat, y: nat, depth: nat)
    requires Around(h, l, c, i, j, y, depth) && Undecided(h, l, c, i, j, depth)
    requires i > 0 && l[i] == y
    ensures SamePrefix(h[i], h[i - 1], y)
  {
  }

  /** The string to the left is not smaller: it moves up. */
  lemma ShiftUp(h: seq<Str>, l: seq<nat>, c: seq<Byte>, i: nat, j: nat, y: nat, z: nat, depth: nat)
    requires Around(h, l, c, i, j, y, depth) && Undecided(h, l, c, i, j, depth)
    requires i > 0 && Leq(h[i], h[i - 1]) && z == Lcp(h[i], h[i - 1])
    ensures var h', l', c' := SwapDown(h, i), Put(l, i + 1, l[i]), c[i := c[i - 1]];
            Around(h', l', c', i - 1, j, z, depth) && Undecided(h', l', c', i - 1, j, depth)
  {
    hide Leq, Lcp, At;
    var h', l', c' := SwapDown(h, i), Put(l, i + 1, l[i]), c[i := c[i - 1]];
    SwapDownPrefix(h, i, depth);
    forall k | 0 < k < i - 1 ensures Exact(h', l', c', k) {
      assert Exact(h, l, c, k);
    }
    forall k | i < k < j + 1 ensures Exact(h', l', c', k) {
      if k > i + 1 { assert Exact(h, l, c, k); }
    }
    if i > 1 { assert Exact(h, l, c, i - 1); }
  }

  lemma SwapDownPrefix(h: seq<Str>, i: nat, depth: nat)
    requires 0 < i < |h| && CommonPrefix(h, depth)
    ensures CommonPrefix(SwapDown(h, i), depth)
  {
  }

  /** The place is found: one more string is in order. */
  lemma Insert(h: seq<Str>, l: seq<nat>, c: seq<Byte>, i: nat, j: nat, y: nat, depth: nat)
    requires Around(h, l, c, i, j, y, depth) && (i > 0 ==> Exact(h, l, c, i))
    ensures i + 1 < |h| ==> y <= |h[i + 1]|
    ensures Prepared(h, Put(l, i + 1, y), if i + 1 < |h| then c[i + 1 := At(h[i + 1], y)] else c, j + 1, depth)
  {
    hide Leq, At;
    if i + 1 < |h| { assert SamePrefix(h[i], h[i + 1], depth); }
    var l', c' := Put(l, i + 1, y), if i + 1 < |h| then c[i + 1 := At(h[i + 1], y)] else c;
    forall k | 0 < k < j + 1 ensures Exact(h, l', c', k) {
      if k != i + 1 { assert Exact(h, l, c, k); }
    }
  }

  /** The entry at position i is rewritten with the result of the comparison. */
  lemma Decided(h: seq<Str>, l: seq<nat>, c: seq<Byte>, i: nat, j: nat, y: nat, z: nat, depth: nat)
    requires Around(h, l, c, i, j, y, depth) && i > 0
    requires Leq(h[i - 1], h[i]) && z == Lcp(h[i - 1], h[i])
    ensures var l', c' := l[i := z], c[i := At(h[i], z)];
            Around(h, l', c', i, j, y, depth) && Exact(h, l', c', i)
  {
    hide Leq, At;
    var l', c' := l[i := z], c[i := At(h[i], z)];
    forall k | 0 < k < i ensures Exact(h, l', c', k) { assert Exact(h, l, c, k); }
    forall k | i + 1 < k < j + 1 ensures Exact(h, l', c', k) { assert Exact(h, l, c, k); }
  }

  lemma FirstPlace(q: seq<Str>, l: seq<nat>, c: seq<Byte>, j: nat, depth: nat)
    requires Prepared(q, l, c, j, depth) && j < |q|
    ensures Around(q, l, c, j, j, depth, depth) && Undecided(q, l, c, j, j, depth)
  {
  }

  /** Compare behind a known common prefix: the exact LCP, and whether the first is not greater. */
  method CompareFrom(s: Str, t: Str, d: nat) returns (z: nat, less: bool)
    requires SamePrefix(s, t, d)
    ensures z == Lcp(s, t) && less == Leq(s, t) && z <= |s| && (!less ==> Leq(t, s))
  {
    z := d;
    while z < |s| && z < |t| && s[z] == t[z]
      invariant SamePrefix(s, t, z)
    {
      z := z + 1;
    }
    LcpUnique(s, t, z);
    LeqTotal(s, t);
    less := z == |s| || (z < |t| && s[z] < t[z]);
  }

  // ---- in place ------------------------------------------------------------------

  /** The string x was taken out of position i; counted back in, the strings are h. */
  ghost predicate TakenOut(m: seq<Str>, h: seq<Str>, i: nat, x: Str) {
    |m| == |h| && i < |h| && h == m[i := x]
  }

  ghost predicate Walk(m: seq<Str>, l: seq<nat>, c: seq<Byte>, h: seq<Str>, i: nat, j: nat, x: Str, y: nat, depth: nat) {
    && TakenOut(m, h, i, x) && Around(h, l, c, i, j, y, depth)
  }

  lemma WalkShift(m: seq<Str>, l: seq<nat>, c: seq<Byte>, h: seq<Str>, i: nat, j: nat, x: Str, y: nat, z: nat, depth: nat)
    requires Walk(m, l, c, h, i, j, x, y, depth) && Undecided(h, l, c, i, j, depth) && i > 0
    requires Leq(x, m[i - 1]) && z == Lcp(x, m[i - 1])
    ensures var m', l', c', h' := m[i := m[i - 1]], Put(l, i + 1, l[i]), c[i := c[i - 1]], SwapDown(h, i);
            Walk(m', l', c', h', i - 1, j, x, z, depth) && Undecided(h', l', c', i - 1, j, depth)
    ensures multiset(SwapDown(h, i)) == multiset(h)
  {
    ShiftUp(h, l, c, i, j, y, z, depth);
  }

  /** Move the string to the left up by one, with its LCP and character. */
  method ShiftOne(a: array<Str>, lcp: array<nat>, cache: array<Byte>, lo: nat, n: nat, i: nat,
                  ghost j: nat, ghost x: Str, ghost y: nat, ghost z: nat, ghost depth: nat, ghost h: seq<Str>)
    returns (ghost h': seq<Str>)
    requires lo + n <= a.Length && lo + n <= lcp.Length && lo + n <= cache.Length && 0 < i <= j < n
    requires Walk(a[lo..lo + n], lcp[lo..lo + n], cache[lo..lo + n], h, i, j, x, y, depth)
    requires Undecided(h, lcp[lo..lo + n], cache[lo..lo + n], i, j, depth)
    requires Leq(x, a[lo + i - 1]) && z == Lcp(x, a[lo + i - 1])
    modifies a, lcp, cache
    ensures Walk(a[lo..lo + n], lcp[lo..lo + n], cache[lo..lo + n], h', i - 1, j, x, z, depth)
    ensures Undecided(h', lcp[lo..lo + n], cache[lo..lo + n], i - 1, j, depth)
    ensures multiset(h') == multiset(h)
    ensures OutsideKept(old(a[..]), a[..], lo, lo + n)
    ensures OutsideKept(old(lcp[..]), lcp[..], lo + 1, lo + n) && OutsideKept(old(cache[..]), cache[..], lo + 1, lo + n)
  {
    hide Walk, Undecided, Leq, Lcp, SwapDown;
    ghost var m, l, c := a[lo..lo + n], lcp[lo..lo + n], cache[lo..lo + n];
    assert m[i - 1] == a[lo + i - 1];
    WalkShift(m, l, c, h, i, j, x, y, z, depth);
    WalkLength(m, l, c, h, i, j, x, y, depth);
    h' := SwapDown(h, i);
    var curLcp := lcp[lo + i];
    a[lo + i] := a[lo + i - 1];
    cache[lo + i] := cache[lo + i - 1];
    if i + 1 < n { lcp[lo + i + 1] := curLcp; }
    assert a[lo..lo + n] == m[i := m[i - 1]];
    assert cache[lo..lo + n] == c[i := c[i - 1]];
    assert lcp[lo..lo + n] == Put(l, i + 1, l[i]);
  }

  lemma WalkDecided(m: seq<Str>, l: seq<nat>, c: seq<Byte>, h: seq<Str>, i: nat, j: nat, x: Str, y: nat, z: nat, depth: nat)
    requires Walk(m, l, c, h, i, j, x, y, depth) && i > 0
    requires Leq(m[i - 1], x) && z == Lcp(x, m[i - 1])
    ensures z <= |x|
    ensures var l', c' := l[i := z], c[i := At(x, z)];
            Walk(m, l', c', h, i, j, x, y, depth) && Exact(h, l', c', i)
  {
    LcpSymmetric(x, m[i - 1]);
    Decided(h, l, c, i, j, y, z, depth);
  }

  /** The entry of the inserted string is rewritten with the LCP just found. */
  method Settle(a: array<Str>, lcp: array<nat>, cache: array<Byte>, lo: nat, n: nat, i: nat,
                ghost j: nat, x: Str, ghost y: nat, z: nat, ghost depth: nat, ghost h: seq<Str>)
    requires lo + n <= a.Length && lo + n <= lcp.Length && lo + n <= cache.Length && 0 < i <= j < n
    requires Walk(a[lo..lo + n], lcp[lo..lo + n], cache[lo..lo + n], h, i, j, x, y, depth)
    requires Leq(a[lo + i - 1], x) && z == Lcp(x, a[lo + i - 1]) && z <= |x|
    modifies lcp, cache
    ensures Walk(a[lo..lo + n], lcp[lo..lo + n], cache[lo..lo + n], h, i, j, x, y, depth)
    ensures |h| == n && Exact(h, lcp[lo..lo + n], cache[lo..lo + n], i)
    ensures OutsideKept(old(lcp[..]), lcp[..], lo + 1, lo + n) && OutsideKept(old(cache[..]), cache[..], lo + 1, lo + n)
  {
    assert |h| == n;
    hide Walk, Exact, Leq, Lcp;
    ghost var m, l, c := a[lo..lo + n], lcp[lo..lo + n], cache[lo..lo + n];
    assert m[i - 1] == a[lo + i - 1];
    WalkDecided(m, l, c, h, i, j, x, y, z, depth);
    lcp[lo + i] := z;
    cache[lo + i] := At(x, z);
    assert lcp[lo..lo + n] == l[i := z];
    assert cache[lo..lo + n] == c[i := At(x, z)];
  }

  /** One round of the inner loop: the three cases. */
  method Compare(a: array<Str>, lcp: array<nat>, cache: array<Byte>, lo: nat, n: nat, i: nat, ghost j: nat,
                 x: Str, y: nat, ghost depth: nat, ghost h: seq<Str>)
    returns (placed: bool, y': nat, ghost h': seq<Str>)
    requires lo + n <= a.Length && lo + n <= lcp.Length && lo + n <= cache.Length && 0 < i <= j < n
    requires Walk(a[lo..lo + n], lcp[lo..lo + n], cache[lo..lo + n], h, i, j, x, y, depth)
    requires Undecided(h, lcp[lo..lo + n], cache[lo..lo + n], i, j, depth)
    modifies a, lcp, cache
    ensures |h'| == n && multiset(h') == multiset(h)
    ensures var i' := if placed then i else i - 1;
            && Walk(a[lo..lo + n], lcp[lo..lo + n], cache[lo..lo + n], h', i', j, x, y', depth)
            && (if placed then Exact(h', lcp[lo..lo + n], cache[lo..lo + n], i)
                else Undecided(h', lcp[lo..lo + n], cache[lo..lo + n], i - 1, j, depth))
    ensures OutsideKept(old(a[..]), a[..], lo, lo + n)
    ensures OutsideKept(old(lcp[..]), lcp[..], lo + 1, lo + n) && OutsideKept(old(cache[..]), cache[..], lo + 1, lo + n)
  {
    ghost var m, l, c := a[lo..lo + n], lcp[lo..lo + n], cache[lo..lo + n];
    assert |h| == n && h[i] == x && m[i - 1] == h[i - 1] && Around(h, l, c, i, j, y, depth);
    hide Walk, Undecided, Exact, Around, Leq, Lcp, SamePrefix;
    var cur, curLcp := a[lo + i - 1], lcp[lo + i];
    assert l[i] == curLcp && m[i - 1] == cur;
    placed, y', h' := true, y, h;
    if curLcp < y {
      DecideLower(h, l, c, i, j, y, depth);
    } else if curLcp == y {
      DecideEqual(h, l, c, i, j, y, depth);
      var z, less := CompareFrom(x, cur, y);
      if !less {
        Settle(a, lcp, cache, lo, n, i, j, x, y, z, depth, h);
      } else {
        h' := ShiftOne(a, lcp, cache, lo, n, i, j, x, y, z, depth, h);
        placed, y' := false, z;
      }
    } else {
      DecideHigher(h, l, c, i, j, y, depth);
      h' := ShiftOne(a, lcp, cache, lo, n, i, j, x, y, y, depth, h);
      placed := false;
    }
    WalkLength(a[lo..lo + n], lcp[lo..lo + n], cache[lo..lo + n], h', if placed then i else i - 1, j, x, y', depth);
  }

  lemma WalkLength(m: seq<Str>, l: seq<nat>, c: seq<Byte>, h: seq<Str>, i: nat, j: nat, x: Str, y: nat, depth: nat)
    requires Walk(m, l, c, h, i, j, x, y, depth)
    ensures |h| == |m|
  {
  }

  /** The string is put down and its successor's entry is written, if there is a successor. */
  method PutDown(a: array<Str>, lcp: array<nat>, cache: array<Byte>, lo: nat, n: nat, i: nat, ghost j: nat,
                 x: Str, y: nat, ghost depth: nat, ghost h: seq<Str>)
    requires lo + n <= a.Length && lo + n <= lcp.Length && lo + n <= cache.Length && i <= j < n
    requires Walk(a[lo..lo + n], lcp[lo..lo + n], cache[lo..lo + n], h, i, j, x, y, depth)
    requires i > 0 ==> |h| == n && Exact(h, lcp[lo..lo + n], cache[lo..lo + n], i)
    modifies a, lcp, cache
    ensures a[lo..lo + n] == h && Prepared(h, lcp[lo..lo + n], cache[lo..lo + n], j + 1, depth)
    ensures OutsideKept(old(a[..]), a[..], lo, lo + n)
    ensures OutsideKept(old(lcp[..]), lcp[..], lo + 1, lo + n) && OutsideKept(old(cache[..]), cache[..], lo + 1, lo + n)
  {
    ghost var m, l, c := a[lo..lo + n], lcp[lo..lo + n], cache[lo..lo + n];
    Insert(h, l, c, i, j, y, depth);
    hide Walk, Prepared, Around, Exact;
    a[lo + i] := x;
    assert a[lo..lo + n] == h;
    if i + 1 < n {
      assert a[lo + i + 1] == h[i + 1];
      lcp[lo + i + 1] := y;
      cache[lo + i + 1] := At(a[lo + i + 1], y);
      assert cache[lo..lo + n] == c[i + 1 := At(h[i + 1], y)];
    }
    assert lcp[lo..lo + n] == Put(l, i + 1, y);
  }

  /** Insert string j into the sorted strings before it. The source has two copies of this
      body; the first, for j < n - 1, omits the bounds tests that cannot fail there. */
  method InsertOne(a: array<Str>, lcp: array<nat>, cache: array<Byte>, lo: nat, n: nat, j: nat, depth: nat)
    requires lo + n <= a.Length && lo + n <= lcp.Length && lo + n <= cache.Length && j < n
    requires Prepared(a[lo..lo + n], lcp[lo..lo + n], cache[lo..lo + n], j, depth)
    modifies a, lcp, cache
    ensures Prepared(a[lo..lo + n], lcp[lo..lo + n], cache[lo..lo + n], j + 1, depth)
    ensures multiset(a[lo..lo + n]) == multiset(old(a[lo..lo + n]))
    ensures OutsideKept(old(a[..]), a[..], lo, lo + n)
    ensures OutsideKept(old(lcp[..]), lcp[..], lo + 1, lo + n) && OutsideKept(old(cache[..]), cache[..], lo + 1, lo + n)
  {
    var x, y := a[lo + j], depth;
    var i: nat := j;
    ghost var h := a[lo..lo + n];
    FirstPlace(h, lcp[lo..lo + n], cache[lo..lo + n], j, depth);
    assert Walk(h, lcp[lo..lo + n], cache[lo..lo + n], h, j, j, x, y, depth);
    var placed := false;
    hide Walk, Undecided, Around, Exact, Prepared;
    while i > 0 && !placed
      invariant i <= j && |h| == n && multiset(h) == multiset(old(a[lo..lo + n]))
      invariant Walk(a[lo..lo + n], lcp[lo..lo + n], cache[lo..lo + n], h, i, j, x, y, depth)
      invariant if placed then i > 0 && Exact(h, lcp[lo..lo + n], cache[lo..lo + n], i)
                else Undecided(h, lcp[lo..lo + n], cache[lo..lo + n], i, j, depth)
      invariant OutsideKept(old(a[..]), a[..], lo, lo + n)
      invariant OutsideKept(old(lcp[..]), lcp[..], lo + 1, lo + n) && OutsideKept(old(cache[..]), cache[..], lo + 1, lo + n)
      decreases if placed then 0 else i
    {
      placed, y, h := Compare(a, lcp, cache, lo, n, i, j, x, y, depth, h);
      if !placed { i := i - 1; }
    }
    PutDown(a, lcp, cache, lo, n, i, j, x, y, depth, h);
  }

  /** From the entries of the slice to the entries of the whole arrays. */
  lemma SliceDelivered(o: Output, lo: nat, n: nat)
    requires o.Covers(lo + n) && AllExact(o.str[lo..lo + n], o.lcp[lo..lo + n], o.chr[lo..lo + n], 0, n)
    ensures Delivered(o, lo, n, {})
  {
    hide Leq, Lcp;
    var q, l, c := o.str[lo..lo + n], o.lcp[lo..lo + n], o.chr[lo..lo + n];
    forall k | lo < k < lo + n ensures ExactAt(o, k) {
      assert Exact(q, l, c, k - lo);
    }
  }

  method LcpInssort(a: array<Str>, lcp: array<nat>, cache: array<Byte>, lo: nat, n: nat, depth: nat)
    requires lo + n <= a.Length && lo + n <= lcp.Length && lo + n <= cache.Length
    requires CommonPrefix(a[lo..lo + n], depth)
    modifies a, lcp, cache
    ensures LcpSorted(old(a[..]), old(OutputOf(a, lcp, cache)), OutputOf(a, lcp, cache), lo, n)
  {
    if n <= 1 { return; }
    assert Prepared(a[lo..lo + n], lcp[lo..lo + n], cache[lo..lo + n], 0, depth);
    for j := 0 to n
      invariant Prepared(a[lo..lo + n], lcp[lo..lo + n], cache[lo..lo + n], j, depth)
      invariant multiset(a[lo..lo + n]) == multiset(old(a[lo..lo + n]))
      invariant OutsideKept(old(a[..]), a[..], lo, lo + n)
      invariant OutsideKept(old(lcp[..]), lcp[..], lo + 1, lo + n) && OutsideKept(old(cache[..]), cache[..], lo + 1, lo + n)
    {
      hide Prepared;
      InsertOne(a, lcp, cache, lo, n, j, depth);
    }
    ghost var o := OutputOf(a, lcp, cache);
    assert o.str[lo..lo + n] == a[lo..lo + n] && old(a[..])[lo..lo + n] == old(a[lo..lo + n]);
    assert o.lcp[lo..lo + n] == lcp[lo..lo + n] && o.chr[lo..lo + n] == cache[lo..lo + n];
    SliceDelivered(o, lo, n);
  }
}
