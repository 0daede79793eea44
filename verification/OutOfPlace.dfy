/** The sequential out-of-place distribution of a sample sort step: inclusive prefix sum, then every
    string to the lowered boundary of its bucket. */
module OutOfPlace {
  import opened Strings
  import opened Permute
  import opened LcpOutput
  import opened Distribution

  function OnePart(n: nat): seq<nat> {
    [0, n]
  }

  lemma OnePartOk(n: nat)
    ensures IsCuts(OnePart(n), n)
    ensures forall i :: 0 <= i < n ==> InPart(OnePart(n), 0, i)
  {
  }

  /** The places of the first m strings. */
  ghost function Dests(g: seq<nat>, size: seq<nat>, m: nat): (d: seq<nat>)
    requires m <= |g| && Counts(g, size)
    ensures |d| == m
    ensures forall i :: 0 <= i < m ==> d[i] == PlaceOf(g, size, i)
  {
    seq(m, i requires 0 <= i < m => PlaceOf(g, size, i))
  }

  ghost function PlaceOf(g: seq<nat>, size: seq<nat>, i: nat): nat
    requires i < |g| && Counts(g, size)
  {
    OnePartOk(|g|);
    assert InPart(OnePart(|g|), 0, i);
    Dest(g, size, OnePart(|g|), 0, i)
  }

  /** Boundary of bucket c when the first i strings have been moved. */
  ghost function BorderAt(g: seq<nat>, size: seq<nat>, c: nat, i: nat): nat
    requires i <= |g| && c < |size|
  {
    OnePartOk(|g|);
    Border(g, size, OnePart(|g|), 0, c, i)
  }

  lemma BorderBefore(g: seq<nat>, size: seq<nat>, c: nat)
    requires Counts(g, size) && c < |size|
    ensures BorderAt(g, size, c, 0) == Start(size, c + 1)
  {
    OnePartOk(|g|);
    BorderInclusive(g, size, OnePart(|g|), 0, c);
    CountIsMultiset(g, c, |g|);
    assert g[..|g|] == g;
  }

  lemma BorderAfter(g: seq<nat>, size: seq<nat>, c: nat)
    requires c < |size|
    ensures BorderAt(g, size, c, |g|) == Start(size, c)
  {
    OnePartOk(|g|);
    BorderExclusive(g, size, OnePart(|g|), c);
  }

  lemma BorderMove(g: seq<nat>, size: seq<nat>, c: nat, i: nat)
    requires i < |g| && c < |size| && Counts(g, size)
    ensures BorderAt(g, size, c, i) == BorderAt(g, size, c, i + 1) + (if g[i] == c then 1 else 0)
    ensures PlaceOf(g, size, i) + 1 == BorderAt(g, size, g[i], i)
  {
    OnePartOk(|g|);
    assert InPart(OnePart(|g|), 0, i);
    BorderStep(g, size, OnePart(|g|), 0, c, i);
  }

  lemma PlaceFacts(g: seq<nat>, size: seq<nat>, i: nat)
    requires i < |g| && Counts(g, size)
    ensures Start(size, g[i]) <= PlaceOf(g, size, i) < Start(size, g[i] + 1) <= |g|
    ensures forall j :: 0 <= j < i ==> PlaceOf(g, size, j) != PlaceOf(g, size, i)
  {
    OnePartOk(|g|);
    assert InPart(OnePart(|g|), 0, i);
    DestInBucket(g, size, OnePart(|g|), 0, i);
    forall j | 0 <= j < i ensures PlaceOf(g, size, j) != PlaceOf(g, size, i) {
      assert InPart(OnePart(|g|), 0, j);
      DestInjective(g, size, OnePart(|g|), 0, j, 0, i);
    }
  }

  /** The first i strings have been moved. */
  ghost predicate MovedSome(q: seq<Str>, r: seq<Str>, g: seq<nat>, size: seq<nat>, bkt: seq<nat>, i: nat) {
    && |q| == |r| == |g| && i <= |g| && Counts(g, size) && |bkt| == |size| + 1
    && (forall c :: 0 <= c < |size| ==> bkt[c] == BorderAt(g, size, c, i))
    && (forall j :: 0 <= j < i ==> PlaceOf(g, size, j) < |r| && r[PlaceOf(g, size, j)] == q[j])
  }

  lemma NoneMoved(q: seq<Str>, r: seq<Str>, g: seq<nat>, size: seq<nat>, bkt: seq<nat>)
    requires |q| == |r| == |g| && Counts(g, size) && |bkt| == |size| + 1
    requires forall c :: 0 <= c < |size| ==> bkt[c] == BorderAt(g, size, c, 0)
    ensures MovedSome(q, r, g, size, bkt, 0)
  {
  }

  lemma MoveOne(q: seq<Str>, r: seq<Str>, g: seq<nat>, size: seq<nat>, bkt: seq<nat>, i: nat)
    requires MovedSome(q, r, g, size, bkt, i) && i < |g|
    ensures g[i] < |size| && 0 < bkt[g[i]] <= |g|
    ensures MovedSome(q, r[bkt[g[i]] - 1 := q[i]], g, size, bkt[g[i] := bkt[g[i]] - 1], i + 1)
  {
    PlaceFacts(g, size, i);
    BorderMove(g, size, g[i], i);
    var c, d := g[i], bkt[g[i]] - 1;
    var bkt' := bkt[c := d];
    forall e | 0 <= e < |size| ensures bkt'[e] == BorderAt(g, size, e, i + 1) {
      BorderMove(g, size, e, i);
    }
  }

  lemma MovedAll(q: seq<Str>, r: seq<Str>, g: seq<nat>, size: seq<nat>, bkt: seq<nat>, f: Str -> nat)
    requires MovedSome(q, r, g, size, bkt, |g|) && Paired(g, q, f)
    ensures multiset(r) == multiset(q) && InBuckets(r, size, f)
    ensures forall c :: 0 <= c < |size| ==> bkt[c] == Start(size, c)
  {
    var dest := Dests(g, size, |g|);
    forall j | 0 <= j < |g|
      ensures Start(size, g[j]) <= dest[j] < Start(size, g[j] + 1) && dest[j] < |r| && r[dest[j]] == q[j]
    {
      PlaceFacts(g, size, j);
    }
    forall i, j | 0 <= i < j < |dest| ensures dest[i] != dest[j] {
      PlaceFacts(g, size, j);
    }
    assert Scattered(q, r, dest);
    ScatteredMultiset(q, r, dest);
    ScatteredBuckets(q, r, dest, g, size, f);
    forall c | 0 <= c < |size| ensures bkt[c] == Start(size, c) {
      BorderAfter(g, size, c);
    }
  }

  /** Step 3: the inclusive prefix sum, with the number of strings behind it. */
  method InclusiveSum(bktsize: array<nat>, n: nat, ghost g: seq<nat>) returns (bkt: array<nat>)
    requires bktsize.Length > 0 && Counts(g, bktsize[..]) && n == |g|
    ensures fresh(bkt) && bkt.Length == bktsize.Length + 1 && bkt[bktsize.Length] == n
    ensures forall c :: 0 <= c < bktsize.Length ==> bkt[c] == BorderAt(g, bktsize[..], c, 0)
  {
    bkt := new nat[bktsize.Length + 1];
    bkt[0] := bktsize[0];
    assert Start(bktsize[..], 1) == Start(bktsize[..], 0) + bktsize[0];
    for i := 1 to bktsize.Length
      invariant forall c :: 0 <= c < i ==> bkt[c] == Start(bktsize[..], c + 1)
    {
      assert bkt[i - 1] == Start(bktsize[..], (i - 1) + 1);
      bkt[i] := bkt[i - 1] + bktsize[i];
    }
    bkt[bktsize.Length] := n;
    forall c | 0 <= c < bktsize.Length ensures bkt[c] == BorderAt(g, bktsize[..], c, 0) {
      BorderBefore(g, bktsize[..], c);
    }
  }

  /** Step 4: out of place, in the order of the strings. */
  method MoveStrings(act: array<Str>, shd: array<Str>, lo: nat, n: nat, bktcache: array<nat>, bkt: array<nat>,
                     ghost size: seq<nat>)
    requires act != shd && lo + n <= act.Length && lo + n <= shd.Length && n <= bktcache.Length && bktcache != bkt
    requires MovedSome(act[lo..lo + n], shd[lo..lo + n], bktcache[..n], size, bkt[..], 0)
    modifies shd, bkt
    ensures MovedSome(act[lo..lo + n], shd[lo..lo + n], bktcache[..n], size, bkt[..], n)
    ensures OutsideKept(old(shd[..]), shd[..], lo, lo + n) && bkt[bkt.Length - 1] == old(bkt[bkt.Length - 1])
  {
    ghost var g, q := bktcache[..n], act[lo..lo + n];
    assert bkt.Length == |size| + 1;
    hide MovedSome;
    for i := 0 to n
      modifies shd, bkt
      invariant bktcache[..n] == g && act[lo..lo + n] == q
      invariant MovedSome(q, shd[lo..lo + n], g, size, bkt[..], i)
      invariant OutsideKept(old(shd[..]), shd[..], lo, lo + n) && bkt[bkt.Length - 1] == old(bkt[bkt.Length - 1])
    {
      ghost var r, b := shd[lo..lo + n], bkt[..];
      assert g[i] == bktcache[i] && q[i] == act[lo + i];
      MoveOne(q, r, g, size, b, i);
      var c := bktcache[i];
      bkt[c] := bkt[c] - 1;
      shd[lo + bkt[c]] := act[lo + i];
      assert bkt[..] == b[g[i] := b[g[i]] - 1];
      assert shd[lo..lo + n] == r[b[g[i]] - 1 := q[i]];
    }
  }

  method Distribute(act: array<Str>, shd: array<Str>, lo: nat, n: nat, bktcache: array<nat>, bktsize: array<nat>, ghost f: Str -> nat)
    returns (bkt: array<nat>)
    requires act != shd && lo + n <= act.Length && lo + n <= shd.Length && n <= bktcache.Length && bktsize.Length > 0
    requires Counts(bktcache[..n], bktsize[..]) && Paired(bktcache[..n], act[lo..lo + n], f)
    modifies shd
    ensures fresh(bkt) && bkt.Length == bktsize.Length + 1
    ensures forall c :: 0 <= c <= bktsize.Length ==> bkt[c] == Start(bktsize[..], c)
    ensures InBuckets(shd[lo..lo + n], bktsize[..], f) && multiset(shd[lo..lo + n]) == multiset(act[lo..lo + n])
    ensures OutsideKept(old(shd[..]), shd[..], lo, lo + n)
  {
    hide *;
    ghost var g, size := bktcache[..n], bktsize[..];
    bkt := InclusiveSum(bktsize, n, g);
    StartTotal(g, size);
    NoneMoved(act[lo..lo + n], shd[lo..lo + n], g, size, bkt[..]);
    MoveStrings(act, shd, lo, n, bktcache, bkt, size);
    MovedAll(act[lo..lo + n], shd[lo..lo + n], g, size, bkt[..], f);
  }
}
