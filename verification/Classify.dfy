/** Classifying a stretch of strings: every classifier fills the bucket cache alike. */
module Classify {
  import opened Strings
  import opened Keys
  import opened SplitterTree
  import opened Classifier
  import opened Permute

  /** The full descent, its unrolled form, the interleaved form that handles several
      strings at once, and the form that recovers the splitters from the tree. */
  datatype Variant = Simple | Unroll | Interleave(rollout: nat) | Calc

  /** The unrolled forms abort beyond this depth. */
  const MAX_TREEBITS := 15

  ghost function KeyBucket(keys: seq<Key>, depth: nat): Str -> nat {
    (s: Str) => Bucket(keys, KeyAt(s, depth))
  }

  /** The first m strings of a[lo..] are classified. */
  ghost predicate Classified(cache: seq<nat>, q: seq<Str>, m: nat, keys: seq<Key>, depth: nat) {
    m <= |cache| && m <= |q| && forall p :: 0 <= p < m ==> cache[p] == Bucket(keys, KeyAt(q[p], depth))
  }

  method FindOne(ct: ClassifyTree, variant: Variant, key: Key) returns (b: nat)
    requires ct.Valid() && ct.treebits <= MAX_TREEBITS
    ensures b == Bucket(ct.keys, key)
  {
    match variant
    case Simple => b := ct.FindBkt(key);
    case Unroll => b := ct.FindBktUnroll(key);
    case Interleave(_) => b := ct.FindBkt(key);
    case Calc => b := ct.FindBktCalc(key);
  }

  method GetKeys(a: array<Str>, lo: nat, m: nat, depth: nat) returns (key: seq<Key>)
    requires lo + m <= a.Length
    ensures |key| == m && forall u :: 0 <= u < m ==> key[u] == KeyAt(a[lo + u], depth)
  {
    key := [];
    for u := 0 to m
      invariant |key| == u && forall v :: 0 <= v < u ==> key[v] == KeyAt(a[lo + v], depth)
    {
      key := key + [KeyAt(a[lo + u], depth)];
    }
  }

  /** Rollout strings at once. */
  method ClassifySome(ct: ClassifyTree, a: array<Str>, lo: nat, n: nat, depth: nat, bktout: array<nat>, i: nat, rollout: nat)
    requires ct.Valid() && lo + n <= a.Length && n <= bktout.Length && i + rollout <= n
    requires Classified(bktout[..], a[lo..lo + n], i, ct.keys, depth)
    modifies bktout
    ensures Classified(bktout[..], a[lo..lo + n], i + rollout, ct.keys, depth)
  {
    hide Bucket, KeyAt, Classified;
    var key := GetKeys(a, lo + i, rollout, depth);
    var obkt := ct.FindBktInterleaved(key);
    ghost var c0, q := bktout[..], a[lo..lo + n];
    for u := 0 to rollout
      modifies bktout
      invariant |bktout[..i]| == i && bktout[..i] == c0[..i]
      invariant forall v :: i <= v < i + u ==> bktout[v] == Bucket(ct.keys, KeyAt(q[v], depth))
    {
      assert q[i + u] == a[lo + i + u] && key[u] == KeyAt(q[i + u], depth);
      bktout[i + u] := obkt[u];
    }
    MoreClassified(c0, bktout[..], q, i, rollout, ct.keys, depth);
  }

  lemma MoreClassified(c0: seq<nat>, c1: seq<nat>, q: seq<Str>, i: nat, m: nat, keys: seq<Key>, depth: nat)
    requires Classified(c0, q, i, keys, depth) && i + m <= |c1| && i + m <= |q|
    requires c1[..i] == c0[..i]
    requires forall v :: i <= v < i + m ==> c1[v] == Bucket(keys, KeyAt(q[v], depth))
    ensures Classified(c1, q, i + m, keys, depth)
  {
    forall p | 0 <= p < i ensures c1[p] == c0[p] {
      assert c1[..i][p] == c0[..i][p];
    }
  }

  method ClassifyOne(ct: ClassifyTree, variant: Variant, a: array<Str>, lo: nat, n: nat, depth: nat,
                     bktout: array<nat>, i: nat)
    requires ct.Valid() && ct.treebits <= MAX_TREEBITS && lo + n <= a.Length && n <= bktout.Length && i < n
    requires Classified(bktout[..], a[lo..lo + n], i, ct.keys, depth)
    modifies bktout
    ensures Classified(bktout[..], a[lo..lo + n], i + 1, ct.keys, depth)
  {
    hide Bucket, KeyAt, Classified;
    ghost var c0 := bktout[..];
    var b := FindOne(ct, variant, KeyAt(a[lo + i], depth));
    bktout[i] := b;
    assert a[lo..lo + n][i] == a[lo + i];
    MoreClassified(c0, bktout[..], a[lo..lo + n], i, 1, ct.keys, depth);
  }

  /** classify: whatever the variant, the cache holds the bucket of every string. */
  method ClassifyAll(ct: ClassifyTree, variant: Variant, a: array<Str>, lo: nat, n: nat, depth: nat, bktout: array<nat>)
    requires ct.Valid() && ct.treebits <= MAX_TREEBITS && lo + n <= a.Length && n <= bktout.Length
    requires variant.Interleave? ==> variant.rollout > 0
    modifies bktout
    ensures Classified(bktout[..], a[lo..lo + n], n, ct.keys, depth)
  {
    hide Bucket, KeyAt, Embeds, SortedKeys;
    var i := 0;
    while i < n
      invariant i <= n && Classified(bktout[..], a[lo..lo + n], i, ct.keys, depth)
    {
      if variant.Interleave? && i + variant.rollout < n {
        ClassifySome(ct, a, lo, n, depth, bktout, i, variant.rollout);
        i := i + variant.rollout;
      } else {
        ClassifyOne(ct, variant, a, lo, n, depth, bktout, i);
        i := i + 1;
      }
    }
  }
}
