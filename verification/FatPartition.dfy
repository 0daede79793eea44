/** The partition step of multikey quicksort on cached keys: smaller, equal and larger keys,
    with equal ones first collected at both ends. */
module FatPartition {
  import opened Strings
  import opened Keys
  import opened Permute
  import opened LcpOutput

  /** Strings and cached keys stand side by side. */
  ghost predicate KeysOf(m: seq<Str>, k: seq<Key>, depth: nat) {
    |m| == |k| && forall p :: 0 <= p < |m| ==> k[p] == KeyAt(m[p], depth)
  }

  lemma KeysOfSwap(m: seq<Str>, k: seq<Key>, depth: nat, x: nat, y: nat)
    requires KeysOf(m, k, depth) && x < |m| && y < |m|
    ensures KeysOf(Swap(m, x, y), Swap(k, x, y), depth)
  {
    hide KeyAt;
  }

  /** The index of the median of three entries. */
  function Med3(A: seq<Key>, i: nat, j: nat, k: nat): (r: nat)
    requires i < |A| && j < |A| && k < |A|
    ensures r == i || r == j || r == k
    ensures A[i] <= A[r] <= A[j] || A[j] <= A[r] <= A[i] || A[i] <= A[r] <= A[k]
            || A[k] <= A[r] <= A[i] || A[j] <= A[r] <= A[k] || A[k] <= A[r] <= A[j]
    ensures A[r] >= A[i] || A[r] >= A[j]
    ensures A[r] >= A[i] || A[r] >= A[k]
    ensures A[r] >= A[j] || A[r] >= A[k]
    ensures A[r] <= A[i] || A[r] <= A[j]
    ensures A[r] <= A[i] || A[r] <= A[k]
    ensures A[r] <= A[j] || A[r] <= A[k]
  {
    if A[i] == A[j] then i
    else if A[k] == A[i] || A[k] == A[j] then k
    else if A[i] < A[j] then
      if A[j] < A[k] then j
      else if A[i] < A[k] then k
      else i
    else
      if A[j] > A[k] then j
      else if A[i] < A[k] then i
      else k
  }

  const MAX_KEY: Key := KEY_LIMIT - 1

  /** 0 [=== leq [<<< llt [??? rgt] >>> req] === n */
  datatype Fat = Fat(leq: nat, llt: nat, rgt: nat, req: nat, maxLt: Key, minGt: Key)

  ghost predicate Attained(k: seq<Key>, x: nat, y: nat, m: Key) {
    exists p :: x <= p < y && p < |k| && k[p] == m
  }

  ghost predicate Regions(k: seq<Key>, v: Key, s: Fat) {
    && 1 <= s.leq <= s.llt <= s.rgt + 1 <= s.req + 1 <= |k|
    && (forall p :: 0 <= p < s.leq ==> k[p] == v)
    && (forall p :: s.leq <= p < s.llt ==> k[p] < v)
    && (forall p :: s.rgt < p <= s.req ==> k[p] > v)
    && (forall p :: s.req < p < |k| ==> k[p] == v)
  }

  /** maxLt is the largest smaller key so far. */
  ghost predicate Lows(k: seq<Key>, s: Fat)
    requires s.llt <= |k|
  {
    && (forall p :: s.leq <= p < s.llt ==> k[p] <= s.maxLt)
    && (if s.leq >= s.llt then s.maxLt == 0 else Attained(k, s.leq, s.llt, s.maxLt))
  }

  /** minGt is the smallest larger key so far; one larger key may still wait on the left. */
  ghost predicate Highs(k: seq<Key>, v: Key, s: Fat, waiting: bool)
    requires s.req < |k| && s.rgt < |k|
  {
    && (forall p :: s.rgt < p <= s.req ==> s.minGt <= k[p])
    && (waiting ==> s.llt <= s.rgt && v < k[s.llt] && s.minGt <= k[s.llt])
    && (if s.rgt >= s.req && !waiting then s.minGt == MAX_KEY
        else Attained(k, s.rgt + 1, s.req + 1, s.minGt) || (waiting && k[s.llt] == s.minGt))
  }

  ghost predicate FatInv(k: seq<Key>, v: Key, s: Fat, waiting: bool) {
    Regions(k, v, s) && Lows(k, s) && Highs(k, v, s, waiting)
  }

  function Min(a: Key, b: Key): Key {
    if b < a then b else a
  }

  function Max(a: Key, b: Key): Key {
    if a < b then b else a
  }

  /** A value that is attained in a range and moves within it stays attained. */
  lemma AttainedSwap(k: seq<Key>, x: nat, y: nat, x': nat, y': nat, m: Key, i: nat, j: nat)
    requires i < |k| && j < |k| && Attained(k, x, y, m)
    requires x' <= x || (x' == x + 1 && (x == i || x == j))
    requires y <= y' || (y' == y - 1 && (y' == i || y' == j))
    requires x <= i < y ==> x' <= j < y'
    requires x <= j < y ==> x' <= i < y'
    ensures Attained(Swap(k, i, j), x', y', m)
  {
    var p :| x <= p < y && p < |k| && k[p] == m;
    var q := if p == i then j else if p == j then i else p;
    assert Swap(k, i, j)[q] == m;
  }

  lemma AttainedWider(k: seq<Key>, x: nat, y: nat, x': nat, y': nat, m: Key)
    requires Attained(k, x, y, m) && x' <= x && y <= y'
    ensures Attained(k, x', y', m)
  {
  }

  // ---- steps -----------------------------------------------------------------------

  lemma LeftEqual(k: seq<Key>, v: Key, s: Fat)
    requires FatInv(k, v, s, false) && s.llt <= s.rgt && k[s.llt] == v
    ensures FatInv(Swap(k, s.leq, s.llt), v, s.(leq := s.leq + 1, llt := s.llt + 1), false)
  {
    if s.leq < s.llt { AttainedSwap(k, s.leq, s.llt, s.leq + 1, s.llt + 1, s.maxLt, s.leq, s.llt); }
    if s.rgt < s.req { AttainedSwap(k, s.rgt + 1, s.req + 1, s.rgt + 1, s.req + 1, s.minGt, s.leq, s.llt); }
  }

  lemma LeftLess(k: seq<Key>, v: Key, s: Fat)
    requires FatInv(k, v, s, false) && s.llt <= s.rgt && k[s.llt] < v
    ensures FatInv(k, v, s.(maxLt := Max(s.maxLt, k[s.llt]), llt := s.llt + 1), false)
  {
    if s.leq < s.llt && s.maxLt >= k[s.llt] {
      AttainedWider(k, s.leq, s.llt, s.leq, s.llt + 1, s.maxLt);
    }
  }

  lemma LeftGreater(k: seq<Key>, v: Key, s: Fat)
    requires FatInv(k, v, s, false) && s.llt <= s.rgt && k[s.llt] > v
    ensures FatInv(k, v, s.(minGt := Min(s.minGt, k[s.llt])), true)
  {
  }

  lemma RightEqual(k: seq<Key>, v: Key, s: Fat)
    requires FatInv(k, v, s, true) && s.llt <= s.rgt && k[s.rgt] == v
    ensures s.req > 0 && s.rgt > 0
    ensures FatInv(Swap(k, s.req, s.rgt), v, s.(req := s.req - 1, rgt := s.rgt - 1), true)
  {
    if Attained(k, s.rgt + 1, s.req + 1, s.minGt) {
      AttainedSwap(k, s.rgt + 1, s.req + 1, s.rgt, s.req, s.minGt, s.req, s.rgt);
    }
    if s.leq < s.llt { AttainedSwap(k, s.leq, s.llt, s.leq, s.llt, s.maxLt, s.req, s.rgt); }
  }

  lemma RightGreater(k: seq<Key>, v: Key, s: Fat)
    requires FatInv(k, v, s, true) && s.llt <= s.rgt && k[s.rgt] > v
    ensures s.rgt > 0
    ensures var s' := s.(minGt := Min(s.minGt, k[s.rgt]), rgt := s.rgt - 1);
            FatInv(k, v, s', s'.llt <= s'.rgt)
  {
    if Attained(k, s.rgt + 1, s.req + 1, s.minGt) {
      AttainedWider(k, s.rgt + 1, s.req + 1, s.rgt, s.req + 1, s.minGt);
    }
  }

  /** A larger key on the left and a smaller one on the right change places. */
  lemma Exchange(k: seq<Key>, v: Key, s: Fat)
    requires FatInv(k, v, s, true) && s.llt <= s.rgt && k[s.rgt] < v
    ensures s.rgt > 0
    ensures FatInv(Swap(k, s.llt, s.rgt), v,
                   s.(maxLt := Max(s.maxLt, k[s.rgt]), llt := s.llt + 1, rgt := s.rgt - 1), false)
  {
    var k' := Swap(k, s.llt, s.rgt);
    if s.leq < s.llt { AttainedSwap(k, s.leq, s.llt, s.leq, s.llt, s.maxLt, s.llt, s.rgt); }
    if Attained(k, s.rgt + 1, s.req + 1, s.minGt) {
      AttainedSwap(k, s.rgt + 1, s.req + 1, s.rgt, s.req + 1, s.minGt, s.llt, s.rgt);
    }
    assert k'[s.llt] == k[s.rgt] && k'[s.rgt] == k[s.llt];
  }

  // ---- collecting the equal keys in the middle ----------------------------------------

  /** Where the entry at p comes from when two blocks of equal size change places. */
  function Crossed(p: nat, x: nat, y: nat, size: nat): nat {
    if x <= p < x + size then p - x + y
    else if y <= p < y + size then p - y + x
    else p
  }

  ghost predicate Exchanged(k: seq<Key>, k': seq<Key>, x: nat, y: nat, size: nat) {
    && |k'| == |k| && x + size <= y && y + size <= |k|
    && forall p :: 0 <= p < |k| ==> k'[p] == k[Crossed(p, x, y, size)]
  }

  /** Smaller keys, equal keys, larger keys; with the extremes next to the equal ones. */
  ghost predicate ThreeParts(k: seq<Key>, v: Key, lt: nat, eq: nat, maxLt: Key, minGt: Key) {
    && lt + eq <= |k| && eq > 0
    && (forall p :: 0 <= p < lt ==> k[p] < v && k[p] <= maxLt)
    && (forall p :: lt <= p < lt + eq ==> k[p] == v)
    && (forall p :: lt + eq <= p < |k| ==> v < k[p] && minGt <= k[p])
    && (lt > 0 ==> Attained(k, 0, lt, maxLt))
    && (lt + eq < |k| ==> Attained(k, lt + eq, |k|, minGt))
  }

  function LeftSize(s: Fat): nat
    requires s.leq <= s.llt
  {
    if s.leq < s.llt - s.leq then s.leq else s.llt - s.leq
  }

  function RightSize(s: Fat, n: nat): nat
    requires s.rgt <= s.req < n
  {
    if n - 1 - s.req < s.req - s.rgt then n - 1 - s.req else s.req - s.rgt
  }

  /** The two block exchanges of the source. */
  ghost predicate LeftExchanged(k: seq<Key>, k': seq<Key>, s: Fat) {
    s.leq <= s.llt && Exchanged(k, k', 0, s.llt - LeftSize(s), LeftSize(s))
  }

  ghost predicate RightExchanged(k: seq<Key>, k': seq<Key>, s: Fat) {
    && s.rgt <= s.req < |k| && RightSize(s, |k|) <= |k|
    && Exchanged(k, k', s.llt, |k| - RightSize(s, |k|), RightSize(s, |k|))
  }

  /** A value at p is found again at the other place. */
  lemma FoundAcross(k: seq<Key>, k': seq<Key>, x: nat, y: nat, size: nat, p: nat)
    requires Exchanged(k, k', x, y, size) && p < |k|
    ensures 0 <= Crossed(p, x, y, size) < |k| && k'[Crossed(p, x, y, size)] == k[p]
  {
    var q := Crossed(p, x, y, size);
    assert Crossed(q, x, y, size) == p;
    assert k'[q] == k[Crossed(q, x, y, size)];
  }

  lemma AttainedPrefix(k: seq<Key>, k': seq<Key>, y: nat, m: Key)
    requires |k'| == |k| && Attained(k, 0, y, m) && forall p :: 0 <= p < y && p < |k| ==> k'[p] == k[p]
    ensures Attained(k', 0, y, m)
  {
  }

  lemma CollectLeft(k: seq<Key>, k': seq<Key>, v: Key, s: Fat)
    requires FatInv(k, v, s, false) && s.llt == s.rgt + 1 && LeftExchanged(k, k', s)
    ensures |k'| == |k|
    ensures forall p :: 0 <= p < s.llt - s.leq ==> k'[p] < v && k'[p] <= s.maxLt
    ensures forall p :: s.llt - s.leq <= p < s.llt ==> k'[p] == v
    ensures s.llt > s.leq ==> Attained(k', 0, s.llt - s.leq, s.maxLt)
  {
    if s.llt > s.leq { LeftAttained(k, k', s); }
    hide Attained;
  }

  lemma LeftAttained(k: seq<Key>, k': seq<Key>, s: Fat)
    requires s.leq < s.llt <= |k| && LeftExchanged(k, k', s) && Attained(k, s.leq, s.llt, s.maxLt)
    ensures Attained(k', 0, s.llt - s.leq, s.maxLt)
  {
    var p :| s.leq <= p < s.llt && p < |k| && k[p] == s.maxLt;
    FoundAcross(k, k', 0, s.llt - LeftSize(s), LeftSize(s), p);
  }

  lemma KeptRight(k: seq<Key>, k': seq<Key>, s: Fat)
    requires LeftExchanged(k, k', s)
    ensures |k'| == |k| && forall p :: s.llt <= p < |k| ==> k'[p] == k[p]
  {
  }

  lemma KeptLeft(k': seq<Key>, k'': seq<Key>, s: Fat)
    requires RightExchanged(k', k'', s)
    ensures |k''| == |k'| && forall p :: 0 <= p < s.llt && p < |k'| ==> k''[p] == k'[p]
  {
    var size := RightSize(s, |k'|);
    forall p | 0 <= p < s.llt && p < |k'| ensures k''[p] == k'[p] {
      assert Crossed(p, s.llt, |k'| - size, size) == p;
    }
  }

  lemma CollectRight(k: seq<Key>, k': seq<Key>, k'': seq<Key>, v: Key, s: Fat)
    requires FatInv(k, v, s, false) && s.llt == s.rgt + 1
    requires LeftExchanged(k, k', s) && RightExchanged(k', k'', s)
    ensures var r := s.llt + (|k| - 1 - s.req);
            && |k''| == |k|
            && (forall p :: s.llt <= p < r ==> k''[p] == v)
            && (forall p :: r <= p < |k| ==> v < k''[p] && s.minGt <= k''[p])
  {
    KeptRight(k, k', s);
    hide LeftExchanged;
  }

  lemma RightAttained(k: seq<Key>, k': seq<Key>, k'': seq<Key>, s: Fat)
    requires s.llt == s.rgt + 1 <= s.req < |k| && Attained(k, s.rgt + 1, s.req + 1, s.minGt)
    requires LeftExchanged(k, k', s) && RightExchanged(k', k'', s)
    ensures Attained(k'', s.llt + (|k| - 1 - s.req), |k|, s.minGt)
  {
    var p :| s.rgt + 1 <= p < s.req + 1 && p < |k| && k[p] == s.minGt;
    KeptRight(k, k', s);
    hide LeftExchanged;
    FoundAcross(k', k'', s.llt, |k| - RightSize(s, |k|), RightSize(s, |k|), p);
  }

  lemma FatBounds(k: seq<Key>, v: Key, s: Fat, waiting: bool)
    requires FatInv(k, v, s, waiting)
    ensures 1 <= s.leq <= s.llt <= s.rgt + 1 <= s.req + 1 <= |k|
    ensures waiting ==> s.llt <= s.rgt
    ensures s.rgt < s.req && !waiting ==> Attained(k, s.rgt + 1, s.req + 1, s.minGt)
  {
  }

  lemma ThreePartsIntro(k: seq<Key>, k'': seq<Key>, v: Key, lt: nat, llt: nat, r: nat, maxLt: Key, minGt: Key)
    requires lt <= llt <= r <= |k| == |k''| && lt < r
    requires forall p :: 0 <= p < lt ==> k[p] < v && k[p] <= maxLt
    requires forall p :: lt <= p < llt ==> k[p] == v
    requires forall p :: 0 <= p < llt ==> k''[p] == k[p]
    requires forall p :: llt <= p < r ==> k''[p] == v
    requires forall p :: r <= p < |k''| ==> v < k''[p] && minGt <= k''[p]
    requires lt > 0 ==> Attained(k, 0, lt, maxLt)
    requires r < |k| ==> Attained(k'', r, |k|, minGt)
    ensures ThreeParts(k'', v, lt, r - lt, maxLt, minGt)
  {
    if lt > 0 { AttainedPrefix(k, k'', lt, maxLt); }
  }

  lemma Collected(k: seq<Key>, k': seq<Key>, k'': seq<Key>, v: Key, s: Fat)
    requires FatInv(k, v, s, false) && s.llt == s.rgt + 1
    requires LeftExchanged(k, k', s)
    requires RightExchanged(k', k'', s)
    ensures ThreeParts(k'', v, s.llt - s.leq, s.leq + (|k| - 1 - s.req), s.maxLt, s.minGt)
  {
    hide *;
    FatBounds(k, v, s, false);
    CollectLeft(k, k', v, s);
    CollectRight(k, k', k'', v, s);
    KeptLeft(k', k'', s);
    if s.rgt < s.req { RightAttained(k, k', k'', s); }
    ThreePartsIntro(k', k'', v, s.llt - s.leq, s.llt, s.llt + (|k| - 1 - s.req), s.maxLt, s.minGt);
  }
}
