/** The growable bitmap and its big-endian string form, as a finite set of naturals. */
module BitmapSpec {
  import opened Ints
  import opened Bits

  const BITMAP_MAX: int := 0x100_0000

  /** The number n is in the set the words stand for. */
  predicate In(ws: seq<u32>, n: nat) { n / 32 < |ws| && Bit(ws[n / 32], n % 32) }

  ghost function SetOf(ws: seq<u32>): set<nat> { set n: nat | n < 32 * |ws| && In(ws, n) }

  /** A byte string stands for a set: its last byte holds the numbers 0 to 7, and so on. */
  predicate InString(s: seq<u8>, n: nat) { n / 8 < |s| && Bit(s[|s| - 1 - n / 8], n % 8) }

  ghost predicate Encodes(s: seq<u8>, m: set<nat>) { forall n: nat :: n in m <==> InString(s, n) }

  function StripZeros(s: seq<u8>): seq<u8> {
    if s != [] && s[0] == 0 then StripZeros(s[1..]) else s
  }

  /** The least number of bits that hold the set. */
  ghost predicate IsNbits(m: set<nat>, bits: nat) {
    (forall n :: n in m ==> n < bits) && (bits > 0 ==> bits - 1 in m)
  }

  /** A word without bits is zero. */
  lemma ZeroWord(w: u32)
    requires forall k: nat :: k < 32 ==> !Bit(w, k)
    ensures w == 0
  {
    Pow2Values();
    forall k: nat | k < 32 ensures Bit(w, k) == Bit(0, k) { BitZero(k); }
    Same(w, 0, 32);
  }

  lemma NonzeroByte(w: u8)
    requires w != 0
    ensures exists k: nat :: k < 8 && Bit(w, k)
  {
    Pow2Values();
    if forall k: nat :: k < 8 ==> !Bit(w, k) {
      forall j: nat | j < 8 ensures Bit(w, j) == Bit(0, j) { BitZero(j); }
      Same(w, 0, 8);
    }
  }

  // ---- the string form is canonical --------------------------------------------------

  /** Leading zero bytes carry nothing. */
  lemma {:induction false} StripKeepsSet(s: seq<u8>, n: nat)
    ensures InString(StripZeros(s), n) <==> InString(s, n)
  {
    if s != [] && s[0] == 0 {
      StripKeepsSet(s[1..], n);
      BitZero(n % 8);
    }
  }

  lemma {:induction false} StripStarts(s: seq<u8>)
    ensures StripZeros(s) != [] ==> StripZeros(s)[0] != 0
  {
    if s != [] && s[0] == 0 { StripStarts(s[1..]); }
  }

  /** A nonzero first byte fixes the length. */
  lemma LongerHasMore(s: seq<u8>, t: seq<u8>)
    requires |t| < |s| && s[0] != 0
    ensures exists n: nat :: InString(s, n) && !InString(t, n)
  {
    NonzeroByte(s[0]);
    var k: nat :| k < 8 && Bit(s[0], k);
    var n := 8 * (|s| - 1) + k;
    assert n / 8 == |s| - 1 && n % 8 == k;
    assert InString(s, n) && !InString(t, n);
  }

  /** Strings without leading zeros that stand for the same set are equal. */
  lemma CanonicalUnique(s: seq<u8>, t: seq<u8>)
    requires forall n: nat :: InString(s, n) <==> InString(t, n)
    requires (s != [] ==> s[0] != 0) && (t != [] ==> t[0] != 0)
    ensures s == t
  {
    if |t| < |s| { LongerHasMore(s, t); }
    if |s| < |t| { LongerHasMore(t, s); }
    forall i: nat | i < |s| ensures s[i] == t[i] {
      forall k: nat | k < 8 ensures Bit(s[i], k) == Bit(t[i], k) {
        var n := 8 * (|s| - 1 - i) + k;
        assert n / 8 == |s| - 1 - i && n % 8 == k;
        assert InString(s, n) <==> InString(t, n);
      }
      SameByte(s[i], t[i]);
    }
  }

  /** What bitmap_to_string gives for what bitmap_from_string read: the same bytes
      without the leading zeros. */
  lemma {:induction false} ExportOfImport(s: seq<u8>, t: seq<u8>, m: set<nat>)
    requires Encodes(s, m) && Encodes(t, m) && (t != [] ==> t[0] != 0)
    ensures t == StripZeros(s)
  {
    forall n: nat ensures InString(t, n) <==> InString(StripZeros(s), n) {
      StripKeepsSet(s, n);
      assert n in m <==> InString(s, n);
      assert n in m <==> InString(t, n);
    }
    StripStarts(s);
    CanonicalUnique(t, StripZeros(s));
  }

  /** And reading back what was written gives the same set. */
  lemma ImportOfExport(s: seq<u8>, m: set<nat>, m': set<nat>)
    requires Encodes(s, m) && Encodes(s, m')
    ensures m == m'
  {
    forall n: nat ensures n in m <==> n in m' { assert n in m <==> InString(s, n); }
  }

  /** The big-endian bytes of the number 1 << n. */
  function PowerBytes(n: nat): seq<u8> {
    var low := n % 8;
    [if low == 0 then 1 else if low == 1 then 2 else if low == 2 then 4 else if low == 3 then 8
     else if low == 4 then 16 else if low == 5 then 32 else if low == 6 then 64 else 128]
    + seq(n / 8, _ => 0)
  }

  lemma PowerByte(n: nat, k: nat)
    requires k < 8
    ensures Bit(PowerBytes(n)[0], k) == (k == n % 8)
  {
    var low := n % 8;
    assert Shl(1, 0) == 1 && Shl(1, 1) == 2 && Shl(1, 2) == 4 && Shl(1, 3) == 8;
    assert Shl(1, 4) == 16 && Shl(1, 5) == 32 && Shl(1, 6) == 64 && Shl(1, 7) == 128;
    assert PowerBytes(n)[0] == Shl(1, low);
    BitOne(low, k);
  }

  /** The string of a set that holds the one number n is the number 1 << n. */
  lemma OneNumber(n: nat, t: seq<u8>)
    requires Encodes(t, {n}) && (t != [] ==> t[0] != 0)
    ensures t == PowerBytes(n)
  {
    var s := PowerBytes(n);
    forall i: nat ensures InString(t, i) <==> InString(s, i) {
      assert i in {n} <==> InString(t, i);
      if i / 8 < |s| {
        if i / 8 == n / 8 { PowerByte(n, i % 8); } else { BitZero(i % 8); }
      }
    }
    CanonicalUnique(t, s);
  }

  // ---- one word at a time -----------------------------------------------------------------

  /** w | (b << sh), for a byte or a bit that stays within the word. */
  function OrIn(w: u32, b: nat, m: nat, sh: nat): (r: u32)
    requires b < Pow2(m) && m + sh <= 32
    ensures forall k: nat :: Bit(r, k) == (Bit(w, k) || (k >= sh && Bit(b, k - sh)))
  {
    Pow2Values();
    ShlBelow(b, m, sh);
    Pow2Below(m + sh, 32);
    Bounded(w, Shl(b, sh), 32);
    assert forall k: nat :: Bit(Or(w, Shl(b, sh)), k) == (Bit(w, k) || (k >= sh && Bit(b, k - sh))) by {
      forall k: nat ensures Bit(Or(w, Shl(b, sh)), k) == (Bit(w, k) || (k >= sh && Bit(b, k - sh))) {
        BitOr(w, Shl(b, sh), k);
        BitShl(b, sh, k);
      }
    }
    Or(w, Shl(b, sh))
  }

  /** w & ~(1 << c). */
  function ClearIn(w: u32, c: nat): (r: u32)
    requires c < 32
    ensures forall k: nat :: Bit(r, k) == (Bit(w, k) && k != c)
  {
    Pow2Values();
    ShlBelow(1, 1, c);
    Pow2Below(1 + c, 32);
    var mask := Not(Shl(1, c), 32);
    Bounded(w, mask, 32);
    assert forall k: nat :: Bit(And(w, mask), k) == (Bit(w, k) && k != c) by {
      forall k: nat ensures Bit(And(w, mask), k) == (Bit(w, k) && k != c) {
        BitAnd(w, mask, k);
        BitNot(Shl(1, c), 32, k);
        BitOne(c, k);
        if k >= 32 { BitAbove(w, 32, k); }
      }
    }
    And(w, mask)
  }

  lemma SetOne(ws: seq<u32>, n: nat)
    requires n / 32 < |ws|
    ensures SetOf(ws[n / 32 := OrIn(ws[n / 32], 1, 1, n % 32)]) == SetOf(ws) + {n}
  {
    var o := n / 32;
    var us := ws[o := OrIn(ws[o], 1, 1, n % 32)];
    forall k: nat ensures In(us, k) <==> In(ws, k) || k == n {
      if k / 32 == o {
        if k % 32 >= n % 32 {
          if k % 32 > n % 32 { BitAbove(1, 1, k % 32 - n % 32); }
        }
      }
    }
  }

  lemma ClearOne(ws: seq<u32>, n: nat)
    requires n / 32 < |ws|
    ensures SetOf(ws[n / 32 := ClearIn(ws[n / 32], n % 32)]) == SetOf(ws) - {n}
  {
    var o := n / 32;
    var us := ws[o := ClearIn(ws[o], n % 32)];
    forall k: nat ensures In(us, k) <==> In(ws, k) && k != n {}
  }

  /** Words that are zero add nothing. */
  lemma ZeroWords(ws: seq<u32>, us: seq<u32>)
    requires |ws| <= |us| && us[..|ws|] == ws && forall i :: |ws| <= i < |us| ==> us[i] == 0
    ensures SetOf(us) == SetOf(ws)
  {
    forall k: nat ensures In(us, k) <==> In(ws, k) {
      BitZero(k % 32);
      if k / 32 < |ws| { assert us[k / 32] == us[..|ws|][k / 32]; }
    }
  }

  /** Byte q of the number, counted from the least significant. */
  function ByteOf(ws: seq<u32>, q: nat): (b: u8)
    requires q / 4 < |ws|
    ensures forall k: nat :: Bit(b, k) == (k < 8 && In(ws, 8 * q + k))
  {
    var w, sh := ws[q / 4], 8 * (q % 4);
    Pow2Values();
    assert forall k: nat :: Bit(Low(Shr(w, sh), 8), k) == (k < 8 && In(ws, 8 * q + k)) by {
      forall k: nat ensures Bit(Low(Shr(w, sh), 8), k) == (k < 8 && In(ws, 8 * q + k)) {
        BitLow(Shr(w, sh), 8, k);
        BitShr(w, sh, k);
        if k < 8 { assert (8 * q + k) / 32 == q / 4 && (8 * q + k) % 32 == sh + k; }
      }
    }
    Low(Shr(w, sh), 8)
  }

  /** The bytes up to the highest bit stand for the set, and the first is not zero. */
  lemma BytesEncode(ws: seq<u32>, s: seq<u8>, bits: nat)
    requires IsNbits(SetOf(ws), bits) && |s| == (bits + 7) / 8 && |s| <= 4 * |ws|
    requires forall q: nat :: q < |s| ==> s[|s| - 1 - q] == ByteOf(ws, q)
    ensures Encodes(s, SetOf(ws))
    ensures s != [] ==> s[0] != 0
  {
    forall n: nat ensures n in SetOf(ws) <==> InString(s, n) {
      if n / 8 < |s| {
        assert s[|s| - 1 - n / 8] == ByteOf(ws, n / 8);
        assert 8 * (n / 8) + n % 8 == n;
      } else {
        assert n >= bits;
      }
    }
    if s != [] {
      var n := bits - 1;
      assert n in SetOf(ws) && n / 8 == |s| - 1;
      assert InString(s, n) && Bit(s[0], n % 8);
      BitZero(n % 8);
    }
  }

  /** The export of a bitmap is short enough to be read back exactly when the one number
      at the limit, which can be set, is not. */
  lemma ExportIsReadable(m: set<nat>, bits: nat)
    requires IsNbits(m, bits) && forall n :: n in m ==> n <= BITMAP_MAX
    ensures (bits + 7) / 8 <= BITMAP_MAX / 8 <==> BITMAP_MAX !in m
  {
    if bits > BITMAP_MAX { assert bits - 1 == BITMAP_MAX; }
  }
}
