/** The 8-byte keys on which all sample sorters compare: up to eight characters of
    a string, packed big-endian, zero-filled behind the terminator. */
module Keys {
  import opened Bits
  import opened Strings

  const KEY_BYTES := 8
  const KEY_LIMIT := 0x1_0000_0000_0000_0000

  type Key = k: int | 0 <= k < KEY_LIMIT

  /** Big-endian value of a byte sequence. */
  function Val(ds: seq<Byte>): nat {
    if ds == [] then 0 else 256 * Val(ds[..|ds| - 1]) + ds[|ds| - 1]
  }

  /** Byte of s at position p, zero from the terminator on. */
  function Padded(s: Str, p: nat): Byte {
    if p < |s| then s[p] else 0
  }

  function Digits(s: Str, depth: nat): (ds: seq<Byte>)
    ensures |ds| == KEY_BYTES
    ensures forall i :: 0 <= i < KEY_BYTES ==> ds[i] == Padded(s, depth + i)
  {
    seq<Byte>(KEY_BYTES, i requires 0 <= i => Padded(s, depth + i))
  }

  /** get_uint64: the key of s at the given depth. */
  function KeyAt(s: Str, depth: nat): (k: Key)
  {
    ValBound(Digits(s, depth));
    assert Pow256(KEY_BYTES) == KEY_LIMIT;
    Val(Digits(s, depth))
  }

  function Pow256(k: nat): nat {
    if k == 0 then 1 else 256 * Pow256(k - 1)
  }

  lemma {:induction false} ValBound(ds: seq<Byte>)
    ensures Val(ds) < Pow256(|ds|)
  {
    if ds != [] { ValBound(ds[..|ds| - 1]); }
  }

  /** First position at which two byte sequences differ. */
  function FirstDiff(a: seq<Byte>, b: seq<Byte>, i: nat): (m: nat)
    requires i <= |a| == |b|
    ensures i <= m <= |a|
    ensures forall j :: i <= j < m ==> a[j] == b[j]
    ensures m < |a| ==> a[m] != b[m]
    decreases |a| - i
  {
    if i < |a| && a[i] == b[i] then FirstDiff(a, b, i + 1) else i
  }

  /** Keys compare as integers exactly like their bytes compare from the left. */
  lemma {:induction false} ValOrder(a: seq<Byte>, b: seq<Byte>, m: nat)
    requires |a| == |b| && m <= |a|
    requires forall j :: 0 <= j < m ==> a[j] == b[j]
    requires m < |a| ==> a[m] != b[m]
    ensures m == |a| ==> Val(a) == Val(b)
    ensures m < |a| ==> (Val(a) < Val(b) <==> a[m] < b[m])
    ensures m < |a| ==> (Val(a) > Val(b) <==> a[m] > b[m])
  {
    if a == [] {
    } else {
      var n := |a| - 1;
      var a', b' := a[..n], b[..n];
      if m < n {
        ValOrder(a', b', m);
      } else {
        assert a' == b';
      }
    }
  }

  /** Shifting a value right by 8 bits drops its last byte. */
  lemma ShrByte(x: nat)
    ensures Shr(x, 8) == x / 256
  {
    assert Shr(x, 8) == Shr(x / 2, 7) == Shr(x / 4, 6) == Shr(x / 8, 5) == Shr(x / 16, 4);
    assert Shr(x / 16, 4) == Shr(x / 32, 3) == Shr(x / 64, 2) == Shr(x / 128, 1) == x / 256;
  }

  lemma ShlByte(x: nat)
    ensures Shl(x, 8) == 256 * x
  {
    assert Shl(x, 2) == 2 * Shl(x, 1) == 4 * x;
    assert Shl(x, 4) == 2 * Shl(x, 3) == 4 * Shl(x, 2);
    assert Shl(x, 6) == 2 * Shl(x, 5) == 4 * Shl(x, 4);
    assert Shl(x, 8) == 2 * Shl(x, 7) == 4 * Shl(x, 6);
  }

  lemma {:induction false} ShrVal(ds: seq<Byte>, k: nat)
    requires k <= |ds|
    ensures Shr(Val(ds), 8 * k) == Val(ds[..|ds| - k])
    decreases k
  {
    if k == 0 {
      assert ds[..|ds|] == ds;
    } else {
      var init := ds[..|ds| - 1];
      ShrAdd(Val(ds), 8, 8 * (k - 1));
      ShrByte(Val(ds));
      ShrVal(init, k - 1);
      assert init[..|init| - (k - 1)] == ds[..|ds| - k];
    }
  }

  /** lcpKeyType: XOR both keys and count the leading zero bytes. */
  function LcpKeyType(a: Key, b: Key): (l: nat)
    ensures l <= KEY_BYTES
  {
    HighZeroBits(Xor(a, b), 64) / 8
  }

  /** lcpKeyDepth: number of bytes in front of the trailing zero bytes. */
  function LcpKeyDepth(a: Key): nat {
    KEY_BYTES - LowZeroBits(a, 64) / 8
  }

  /** getCharAtDepth: byte d of the key. */
  function GetCharAtDepth(a: Key, d: nat): Byte
    requires d < KEY_BYTES
  {
    Shr(a, 8 * (KEY_BYTES - 1 - d)) % 256
  }

  /** The bit trick computes the number of equal leading bytes. */
  lemma LcpKeyTypeIsFirstDiff(a: seq<Byte>, b: seq<Byte>, m: nat)
    requires |a| == |b| == KEY_BYTES && m <= KEY_BYTES
    requires forall j :: 0 <= j < m ==> a[j] == b[j]
    requires m < KEY_BYTES ==> a[m] != b[m]
    requires Val(a) < KEY_LIMIT && Val(b) < KEY_LIMIT
    ensures LcpKeyType(Val(a), Val(b)) == m
  {
    hide Xor, HighZeroBits, Pow2, Shr, Val;
    var x := Xor(Val(a), Val(b));
    Pow2Of64();
    ShrVal(a, 8); ShrVal(b, 8);
    assert a[..0] == b[..0];
    XorAgreesAbove(Val(a), Val(b), 64);
    assert x < Pow2(64);
    // the first m bytes agree
    ShrVal(a, 8 - m); ShrVal(b, 8 - m);
    assert a[..m] == b[..m];
    XorAgreesAbove(Val(a), Val(b), 64 - 8 * m);
    HighZeroBitsBound(x, 64, 8 * m);
    if m < KEY_BYTES {
      // but the next one does not
      ShrVal(a, 7 - m); ShrVal(b, 7 - m);
      ValOrder(a[..m + 1], b[..m + 1], m);
      XorAgreesAbove(Val(a), Val(b), 64 - 8 * (m + 1));
      HighZeroBitsBound(x, 64, 8 * (m + 1));
    }
  }

  /** Different keys differ in one of their eight bytes. */
  lemma LcpOfDifferentKeys(a: Key, b: Key)
    requires a != b
    ensures LcpKeyType(a, b) < KEY_BYTES
  {
    Pow2Of64();
    ShrBound(a, 64, 64);
    ShrBound(b, 64, 64);
    XorAgreesAbove(a, b, 64);
    XorZero(a, b);
    hide Xor, Shr, HighZeroBits;
    HighZeroBitsBound(Xor(a, b), 64, 64);
  }

  lemma Pow2Of64()
    ensures Pow2(64) == KEY_LIMIT
  {
    assert Pow2(8) == 256;
    assert Pow2(16) == 256 * Pow2(8);
    assert Pow2(24) == 256 * Pow2(16);
    assert Pow2(32) == 256 * Pow2(24);
    assert Pow2(40) == 256 * Pow2(32);
    assert Pow2(48) == 256 * Pow2(40);
    assert Pow2(56) == 256 * Pow2(48);
    assert Pow2(64) == 256 * Pow2(56);
  }

  lemma GetCharOfVal(ds: seq<Byte>, d: nat)
    requires |ds| == KEY_BYTES && d < KEY_BYTES && Val(ds) < KEY_LIMIT
    ensures GetCharAtDepth(Val(ds), d) == ds[d]
  {
    ShrVal(ds, KEY_BYTES - 1 - d);
    var e := ds[..d + 1];
    assert Val(e) == 256 * Val(e[..d]) + e[d];
    hide Shr, Val;
    assert Val(e) % 256 == ds[d];
  }

  /** Zeros stay zeros: the shape of the bytes of a zero-truncated key. */
  ghost predicate ZeroTail(ds: seq<Byte>, z: nat) {
    z <= |ds| && (forall j :: 0 <= j < z ==> ds[j] != 0) && forall j :: z <= j < |ds| ==> ds[j] == 0
  }

  lemma {:induction false} LowZeroBytes(ds: seq<Byte>, z: nat)
    requires ZeroTail(ds, z)
    ensures LowZeroBits(Val(ds), 8 * |ds|) / 8 == |ds| - z
  {
    if ds != [] {
      var init, last := ds[..|ds| - 1], ds[|ds| - 1];
      var w := 8 * |ds|;
      assert Pow2(8) == 256;
      ShlByte(Val(init));
      if last == 0 {
        LowZeroBytes(init, z);
        LowZeroBitsShift(Val(init), 8, w);
      } else {
        LowZeroBitsLocal(Val(init), last, 8, w, w);
      }
    }
  }

  // ---- what a comparison of keys says about the strings behind them ----------

  /** Distinct keys decide the order, and their byte LCP is the LCP of the strings. */
  lemma KeysDiffer(s: Str, t: Str, depth: nat)
    requires SamePrefix(s, t, depth)
    requires KeyAt(s, depth) != KeyAt(t, depth)
    ensures LcpKeyType(KeyAt(s, depth), KeyAt(t, depth)) < KEY_BYTES
    ensures Lcp(s, t) == depth + LcpKeyType(KeyAt(s, depth), KeyAt(t, depth))
    ensures Leq(s, t) <==> KeyAt(s, depth) < KeyAt(t, depth)
    ensures s != t
  {
    var a, b := Digits(s, depth), Digits(t, depth);
    var m := FirstDiff(a, b, 0);
    ValOrder(a, b, m);
    LcpKeyTypeIsFirstDiff(a, b, m);
    forall p | depth <= p < depth + m ensures Padded(s, p) == Padded(t, p) {
      assert a[p - depth] == b[p - depth];
    }
    NoEarlyEnd(s, t, depth, m);
    LeqAt(s, t, depth + m);
  }

  /** Strings whose keys agree on m bytes and then differ have not ended before. */
  lemma {:induction false} NoEarlyEnd(s: Str, t: Str, depth: nat, m: nat)
    requires SamePrefix(s, t, depth)
    requires forall p :: depth <= p < depth + m ==> Padded(s, p) == Padded(t, p)
    requires Padded(s, depth + m) != Padded(t, depth + m)
    ensures SamePrefix(s, t, depth + m)
    ensures At(s, depth + m) == Padded(s, depth + m) && At(t, depth + m) == Padded(t, depth + m)
  {
    assert |s| < depth + m ==> Padded(s, |s|) == Padded(t, |s|);
    assert |t| < depth + m ==> Padded(s, |t|) == Padded(t, |t|);
    forall i | 0 <= i < depth + m ensures s[i] == t[i] {
      if i >= depth { assert Padded(s, i) == Padded(t, i); }
    }
  }

  lemma KeyDigitsEqual(s: Str, t: Str, depth: nat)
    requires KeyAt(s, depth) == KeyAt(t, depth)
    ensures Digits(s, depth) == Digits(t, depth)
  {
    var a, b := Digits(s, depth), Digits(t, depth);
    ValOrder(a, b, FirstDiff(a, b, 0));
  }

  lemma KeyLastByte(s: Str, depth: nat)
    ensures KeyAt(s, depth) % 256 == Padded(s, depth + 7)
  {
    assert Digits(s, depth)[7] == Padded(s, depth + 7);
  }

  /** Equal keys with a nonzero last byte: eight more common characters. */
  lemma KeysEqualLong(s: Str, t: Str, depth: nat)
    requires SamePrefix(s, t, depth)
    requires KeyAt(s, depth) == KeyAt(t, depth) && KeyAt(s, depth) % 256 != 0
    ensures SamePrefix(s, t, depth + KEY_BYTES)
  {
    KeyDigitsEqual(s, t, depth);
    KeyLastByte(s, depth); KeyLastByte(t, depth);
    forall i | 0 <= i < depth + KEY_BYTES ensures s[i] == t[i] {
      if i >= depth {
        assert Digits(s, depth)[i - depth] == Digits(t, depth)[i - depth];
      }
    }
  }

  /** Number of characters of s behind depth that fit into the key. */
  function KeyChars(s: Str, depth: nat): nat
    requires depth <= |s|
  {
    if |s| - depth < KEY_BYTES then |s| - depth else KEY_BYTES
  }

  lemma KeyDepthIsChars(s: Str, depth: nat)
    requires depth <= |s|
    ensures LcpKeyDepth(KeyAt(s, depth)) == KeyChars(s, depth)
    ensures KeyAt(s, depth) % 256 == 0 <==> |s| < depth + KEY_BYTES
  {
    KeyLastByte(s, depth);
    LowZeroBytes(Digits(s, depth), KeyChars(s, depth));
  }

  /** Equal keys with a zero last byte: the strings are equal, and the key tells where they end. */
  lemma KeysEqualShort(s: Str, t: Str, depth: nat)
    requires SamePrefix(s, t, depth)
    requires KeyAt(s, depth) == KeyAt(t, depth) && KeyAt(s, depth) % 256 == 0
    ensures s == t && |s| == depth + LcpKeyDepth(KeyAt(s, depth))
  {
    KeyDepthIsChars(s, depth); KeyDepthIsChars(t, depth);
    KeyDigitsEqual(s, t, depth);
    forall i | 0 <= i < |s| ensures s[i] == t[i] {
      if i >= depth { assert Digits(s, depth)[i - depth] == Digits(t, depth)[i - depth]; }
    }
  }

  /** Keys strictly between two keys of strings share the leading bytes of both,
      and those bytes are characters, not terminators. */
  lemma KeysBetween(s: Str, u: Str, v: Str, depth: nat, lo: Key, hi: Key)
    requires SamePrefix(u, v, depth) && SamePrefix(s, u, depth)
    requires exists w: Str :: SamePrefix(w, u, depth) && KeyAt(w, depth) == lo
    requires exists w: Str :: SamePrefix(w, u, depth) && KeyAt(w, depth) == hi
    requires lo < KeyAt(u, depth) < hi && lo < KeyAt(v, depth) < hi
    ensures SamePrefix(u, v, depth + LcpKeyType(lo, hi))
  {
    var w: Str :| SamePrefix(w, u, depth) && KeyAt(w, depth) == lo;
    var x: Str :| SamePrefix(x, u, depth) && KeyAt(x, depth) == hi;
    KeysDiffer(w, u, depth); KeysDiffer(u, x, depth); KeysDiffer(w, x, depth);
    KeysDiffer(w, v, depth); KeysDiffer(v, x, depth);
    LcpOfThree(w, u, x);
    LcpOfThree(w, v, x);
  }

  // ---- the two extractors of the source ---------------------------------------

  /** get_char_uint64_simple: byte by byte, stopping at the terminator. */
  method GetCharSimple(s: Str, depth: nat) returns (v: Key)
    requires depth <= |s|
    ensures v == KeyAt(s, depth)
  {
    var acc: nat := 0;
    var i := 0;
    ghost var ds := Digits(s, depth);
    while i < KEY_BYTES && depth + i < |s|
      invariant 0 <= i <= KEY_BYTES && depth + i <= |s|
      invariant acc == Val(ds[..i]) * Pow256(KEY_BYTES - i)
    {
      ValStep(ds, i);
      acc := acc + s[depth + i] * Pow256(KEY_BYTES - i - 1);
      i := i + 1;
    }
    ZeroFill(ds, i);
    assert acc == KeyAt(s, depth);
    v := acc;
  }

  lemma ValStep(ds: seq<Byte>, i: nat)
    requires i < |ds|
    ensures Val(ds[..i + 1]) * Pow256(|ds| - i - 1)
            == Val(ds[..i]) * Pow256(|ds| - i) + ds[i] * Pow256(|ds| - i - 1)
  {
    var v, p := Val(ds[..i]), Pow256(|ds| - i - 1);
    assert ds[..i + 1][..i] == ds[..i];
    assert (256 * v + ds[i]) * p == v * (256 * p) + ds[i] * p;
  }

  lemma {:induction false} ZeroFill(ds: seq<Byte>, i: nat)
    requires i <= |ds|
    requires forall j :: i <= j < |ds| ==> ds[j] == 0
    ensures Val(ds) == Val(ds[..i]) * Pow256(|ds| - i)
    decreases |ds|
  {
    if i == |ds| {
      assert ds[..i] == ds;
    } else {
      var n := |ds| - 1;
      ZeroFill(ds[..n], i);
      assert ds[..n][..i] == ds[..i];
      assert Val(ds[..i]) * (256 * Pow256(n - i)) == 256 * (Val(ds[..i]) * Pow256(n - i));
    }
  }

  /** v & (0xFF.. << 8*(8-k)): keep the k leading bytes. */
  function KeepBytes(v: Key, k: nat): nat
    requires k <= KEY_BYTES
  {
    Shr(v, 8 * (KEY_BYTES - k)) * Pow256(KEY_BYTES - k)
  }

  /** get_char_uint64_bswap64: eight raw bytes are loaded at once and everything behind
      the first zero byte is masked away; the last byte needs no test. */
  function MaskFrom(v: Key, j: nat): nat
    requires j < KEY_BYTES
    decreases KEY_BYTES - j
  {
    if j == KEY_BYTES - 1 then v
    else if GetCharAtDepth(v, j) == 0 then KeepBytes(v, j + 1)
    else MaskFrom(v, j + 1)
  }

  /** Whatever lies in memory behind the terminator, masking yields the same key. */
  lemma {:induction false} MaskedLoadAgrees(s: Str, depth: nat, raw: seq<Byte>, j: nat)
    requires depth <= |s| && |raw| == KEY_BYTES && j < KEY_BYTES && Val(raw) < KEY_LIMIT
    requires depth + j <= |s|
    requires forall i :: 0 <= i < KEY_BYTES && depth + i <= |s| ==> raw[i] == Padded(s, depth + i)
    ensures MaskFrom(Val(raw), j) == KeyAt(s, depth)
    decreases KEY_BYTES - j
  {
    var ds := Digits(s, depth);
    if j == KEY_BYTES - 1 {
      assert raw == ds;
    } else {
      GetCharOfVal(raw, j);
      if raw[j] == 0 {
        ShrVal(raw, KEY_BYTES - 1 - j);
        ZeroFill(ds, j + 1);
        assert raw[..j + 1] == ds[..j + 1];
      } else {
        MaskedLoadAgrees(s, depth, raw, j + 1);
      }
    }
  }
}
