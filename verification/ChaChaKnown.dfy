/** The cipher written out: the rounds of section 2.3 of RFC 8439 word by word, the bytes of a
    word as quotients and remainders, and the quarter round example of section 2.1.1. */
module ChaChaKnown {
  import opened Ints
  import opened Bits
  import opened KeyStream
  import opened ChaChaSpec
  import opened ChaChaRounds

  // ---- bytes of words ------------------------------------------------------------------------

  // ---- exclusive or, digit by digit -----------------------------------------------------------

  /** The number with these hexadecimal digits. */
  function Hex(s: seq<nat>): nat {
    if s == [] then 0 else 16 * Hex(s[..|s| - 1]) + s[|s| - 1]
  }

  predicate Digits(s: seq<nat>) { forall i :: 0 <= i < |s| ==> s[i] < 16 }

  lemma DigitOnTop(h: nat, d: nat, k: nat)
    requires d < 16
    ensures Bit(16 * h + d, k) == if k < 4 then Bit(d, k) else Bit(h, k - 4)
  {
    assert Pow2(4) == 16;
    ShlIsMul(h, 4);
    OrAdds(h, 4, d);
    BitOr(Shl(h, 4), d, k);
    BitShl(h, 4, k);
    if k >= 4 { BitAbove(d, 4, k); }
  }

  /** Bit j of digit i. */
  lemma {:induction false} HexBit(s: seq<nat>, i: nat, j: nat, k: nat)
    requires Digits(s) && i < |s| && j < 4 && k == 4 * (|s| - 1 - i) + j
    ensures Bit(Hex(s), k) == Bit(s[i], j)
  {
    var n := |s| - 1;
    DigitOnTop(Hex(s[..n]), s[n], k);
    if i < n { HexBit(s[..n], i, j, k - 4); }
  }

  function Value(s: seq<nat>): nat
    requires |s| == 8
  {
    0x1000_0000 * s[0] + 0x100_0000 * s[1] + 0x10_0000 * s[2] + 0x1_0000 * s[3]
    + 0x1000 * s[4] + 0x100 * s[5] + 0x10 * s[6] + s[7]
  }

  lemma HexWord(s: seq<nat>)
    requires Digits(s) && |s| == 8
    ensures Hex(s) == Value(s)
  {
    assert s[..7][..6] == s[..6] && s[..6][..5] == s[..5] && s[..5][..4] == s[..4] && s[..4][..3] == s[..3];
    assert s[..3][..2] == s[..2] && s[..2][..1] == s[..1] && s[..1][..0] == [];
    assert Hex(s[..1]) == s[0];
    assert Hex(s[..2]) == 16 * Hex(s[..1]) + s[1];
    assert Hex(s[..3]) == 16 * Hex(s[..2]) + s[2];
    assert Hex(s[..4]) == 16 * Hex(s[..3]) + s[3];
    assert Hex(s[..5]) == 16 * Hex(s[..4]) + s[4];
    assert Hex(s[..6]) == 16 * Hex(s[..5]) + s[5];
    assert Hex(s[..7]) == 16 * Hex(s[..6]) + s[6];
  }

  /** Digit by digit, the exclusive or of a and b is c. */
  predicate XorsTo(a: seq<nat>, b: seq<nat>, c: seq<nat>) {
    && |a| == |b| == |c| == 8 && Digits(a) && Digits(b) && Digits(c)
    && forall i :: 0 <= i < 8 ==> Bitwise(a[i], b[i], c[i])
  }

  predicate Bitwise(x: nat, y: nat, z: nat) { forall j: nat :: j < 4 ==> Bit(z, j) == (Bit(x, j) != Bit(y, j)) }

  predicate XorsDigit(x: nat, y: nat, z: nat) {
    && x < 16 && y < 16 && z < 16
    && (z / 8 % 2 != 0 <==> x / 8 % 2 != y / 8 % 2) && (z / 4 % 2 != 0 <==> x / 4 % 2 != y / 4 % 2)
    && (z / 2 % 2 != 0 <==> x / 2 % 2 != y / 2 % 2) && (z % 2 != 0 <==> x % 2 != y % 2)
  }

  lemma DigitBit(x: nat, k: nat)
    requires k < 4
    ensures Bit(x, k) == (x / (if k == 0 then 1 else if k == 1 then 2 else if k == 2 then 4 else 8) % 2 == 1)
  {
    BitShr(x, k, 0);
    SmallShifts(x);
    assert Shr(x, 0) == x;
  }

  lemma DigitBitwise(x: nat, y: nat, z: nat)
    requires XorsDigit(x, y, z)
    ensures Fits(x, y, z)
  {
    forall j: nat | j < 4 ensures Bit(z, j) == (Bit(x, j) != Bit(y, j)) {
      DigitBit(x, j);
      DigitBit(y, j);
      DigitBit(z, j);
    }
  }

  lemma XorIs(a: seq<nat>, b: seq<nat>, c: seq<nat>)
    requires XorsTo(a, b, c)
    ensures Xor(Hex(a), Hex(b)) == Hex(c)
  {
    HexWord(a);
    HexWord(b);
    HexWord(c);
    Pow2Values();
    Bounded(Hex(a), Hex(b), 32);
    forall k: nat | k < 32 ensures Bit(Xor(Hex(a), Hex(b)), k) == Bit(Hex(c), k) {
      XorIsBit(a, b, c, 7 - k / 4, k % 4, k);
    }
    SameWord(Xor(Hex(a), Hex(b)), Hex(c));
  }

  lemma XorIsBit(a: seq<nat>, b: seq<nat>, c: seq<nat>, i: nat, j: nat, k: nat)
    requires XorsTo(a, b, c) && i < 8 && j < 4 && k == 4 * (7 - i) + j
    ensures Bit(Xor(Hex(a), Hex(b)), k) == Bit(Hex(c), k)
  {
    HexBit(a, i, j, k);
    HexBit(b, i, j, k);
    HexBit(c, i, j, k);
    XorSame(Hex(a), Hex(b), Hex(c), a[i], b[i], c[i], j, k);
  }

  lemma XorSame(a: nat, b: nat, c: nat, x: nat, y: nat, z: nat, j: nat, k: nat)
    requires Bit(a, k) == Bit(x, j) && Bit(b, k) == Bit(y, j) && Bit(c, k) == Bit(z, j)
    requires j < 4 && Bitwise(x, y, z)
    ensures Bit(Xor(a, b), k) == Bit(c, k)
  {
    BitXor(a, b, k);
  }

  lemma XorWord(m: nat, n: nat, a: seq<nat>, b: seq<nat>, c: seq<nat>)
    requires |a| == |b| == |c| == 8 && Value(a) == m && Value(b) == n
    requires XorsDigit(a[0], b[0], c[0]) && XorsDigit(a[1], b[1], c[1])
    requires XorsDigit(a[2], b[2], c[2]) && XorsDigit(a[3], b[3], c[3])
    requires XorsDigit(a[4], b[4], c[4]) && XorsDigit(a[5], b[5], c[5])
    requires XorsDigit(a[6], b[6], c[6]) && XorsDigit(a[7], b[7], c[7])
    ensures Xor(m, n) == Value(c)
  {
    DigitBitwise(a[0], b[0], c[0]);
    DigitBitwise(a[1], b[1], c[1]);
    DigitBitwise(a[2], b[2], c[2]);
    DigitBitwise(a[3], b[3], c[3]);
    DigitBitwise(a[4], b[4], c[4]);
    DigitBitwise(a[5], b[5], c[5]);
    DigitBitwise(a[6], b[6], c[6]);
    DigitBitwise(a[7], b[7], c[7]);
    AllBitwise(a, b, c);
    XorIsValue(a, b, c);
  }

  predicate Fits(x: nat, y: nat, z: nat) { x < 16 && y < 16 && z < 16 && Bitwise(x, y, z) }

  lemma AllBitwise(a: seq<nat>, b: seq<nat>, c: seq<nat>)
    requires |a| == |b| == |c| == 8
    requires Fits(a[0], b[0], c[0]) && Fits(a[1], b[1], c[1]) && Fits(a[2], b[2], c[2]) && Fits(a[3], b[3], c[3])
    requires Fits(a[4], b[4], c[4]) && Fits(a[5], b[5], c[5]) && Fits(a[6], b[6], c[6]) && Fits(a[7], b[7], c[7])
    ensures XorsTo(a, b, c)
  {
    forall i | 0 <= i < 8 ensures Fits(a[i], b[i], c[i]) {}
  }

  lemma XorIsValue(a: seq<nat>, b: seq<nat>, c: seq<nat>)
    requires XorsTo(a, b, c)
    ensures Xor(Value(a), Value(b)) == Value(c)
  {
    HexWord(a);
    HexWord(b);
    HexWord(c);
    XorIs(a, b, c);
  }

  // ---- rotation, by quotient and remainder ----------------------------------------------------

  lemma RotlIs(v: u32, n: nat, hi: nat, lo: nat)
    requires 0 < n < 32 && lo < Pow2(32 - n) && v == hi * Pow2(32 - n) + lo
    ensures Rotl(v, n) == lo * Pow2(n) + hi
  {
    var m := 32 - n;
    ShlIsMul(hi, m);
    ShlIsMul(lo, n);
    HiBelow(v, n, hi, lo);
    OrAdds(hi, m, lo);
    OrAdds(lo, n, hi);
    ShlBelow(lo, m, n);
    Pow2Values();
    Pow2Below(n, 32);
    Bounded(Shl(lo, n), hi, 32);
    forall k: nat | k < 32 ensures Bit(Rotl(v, n), k) == Bit(Or(Shl(lo, n), hi), k) {
      RotlBit(v, n, k);
      var j := if k >= n then k - n else k + m;
      BitOr(Shl(lo, n), hi, k);
      BitShl(lo, n, k);
      BitOr(Shl(hi, m), lo, j);
      BitShl(hi, m, j);
      if k >= n { BitAbove(hi, n, k); } else { BitAbove(lo, m, j); }
    }
    SameWord(Rotl(v, n), Or(Shl(lo, n), hi));
  }

  lemma TooBig(a: nat, b: nat, c: nat, e: int)
    requires b * c >= e && a * c < e
    ensures a < b
  {
  }

  lemma HiBelow(v: u32, n: nat, hi: nat, lo: nat)
    requires 0 < n < 32 && v == hi * Pow2(32 - n) + lo
    ensures hi < Pow2(n)
  {
    Pow2Values();
    Pow2Add(n, 32 - n);
    TooBig(hi, Pow2(n), Pow2(32 - n), 0x1_0000_0000 - lo);
  }

  /** The powers the rotations use. */
  lemma Powers()
    ensures Pow2(7) == 0x80 && Pow2(12) == 0x1000 && Pow2(20) == 0x10_0000 && Pow2(25) == 0x200_0000
    ensures Pow2(8) == 0x100 && Pow2(16) == 0x1_0000 && Pow2(24) == 0x100_0000
  {
    Pow2Values();
    Pow2Add(8, 4);
    Pow2Add(16, 4);
    Pow2Add(24, 1);
    assert Pow2(4) == 16;
  }

  lemma FirstLine(q: Quad)
    requires q == Quad(0x11111111, 0x01020304, 0x9b8d6f43, 0x01234567)
    ensures HalfStep(q, 16) == Quad(0x12131415, 0x01020304, 0x9b8d6f43, 0x51721330)
  {
    var a := Add32(q.a, q.b);
    XorWord(q.d, a, [0, 1, 2, 3, 4, 5, 6, 7], [1, 2, 1, 3, 1, 4, 1, 5], [1, 3, 3, 0, 5, 1, 7, 2]);
    Powers();
    RotlIs(Xor32(q.d, a), 16, 0x1330, 0x5172);
  }

  lemma SecondLine(q: Quad)
    requires q == Quad(0x9b8d6f43, 0x51721330, 0x12131415, 0x01020304)
    ensures HalfStep(q, 12) == Quad(0xecff8273, 0x51721330, 0x12131415, 0xd8177edf)
  {
    var a := Add32(q.a, q.b);
    XorWord(q.d, a, [0, 1, 0, 2, 0, 3, 0, 4], [14, 12, 15, 15, 8, 2, 7, 3], [14, 13, 15, 13, 8, 1, 7, 7]);
    Powers();
    RotlIs(Xor32(q.d, a), 12, 0xedf, 0xd8177);
  }

  lemma ThirdLine(q: Quad)
    requires q == Quad(0x12131415, 0xd8177edf, 0xecff8273, 0x51721330)
    ensures HalfStep(q, 8) == Quad(0xea2a92f4, 0xd8177edf, 0xecff8273, 0x5881c4bb)
  {
    var a := Add32(q.a, q.b);
    XorWord(q.d, a, [5, 1, 7, 2, 1, 3, 3, 0], [14, 10, 2, 10, 9, 2, 15, 4], [11, 11, 5, 8, 8, 1, 12, 4]);
    Powers();
    RotlIs(Xor32(q.d, a), 8, 0xbb, 0x5881c4);
  }

  lemma FourthLine(q: Quad)
    requires q == Quad(0xecff8273, 0x5881c4bb, 0xea2a92f4, 0xd8177edf)
    ensures HalfStep(q, 7) == Quad(0x4581472e, 0x5881c4bb, 0xea2a92f4, 0xcb1cf8ce)
  {
    var a := Add32(q.a, q.b);
    XorWord(q.d, a, [13, 8, 1, 7, 7, 14, 13, 15], [4, 5, 8, 1, 4, 7, 2, 14], [9, 13, 9, 6, 3, 9, 15, 1]);
    Powers();
    RotlIs(Xor32(q.d, a), 7, 0x4e, 0x19639f1);
  }

  /** The example of section 2.1.1 of RFC 8439. */
  lemma KnownQuarterRound(q: Quad)
    requires q == Quad(0x11111111, 0x01020304, 0x9b8d6f43, 0x01234567)
    ensures QuarterRound(q) == Quad(0xea2a92f4, 0xcb1cf8ce, 0x4581472e, 0x5881c4bb)
  {
    FirstLine(q);
    var q1 := HalfStep(q, 16);
    SecondLine(Turn(q1));
    var q2 := HalfStep(Turn(q1), 12);
    ThirdLine(Turn(q2));
    var q3 := HalfStep(Turn(q2), 8);
    FourthLine(Turn(q3));
  }

  // ---- words are little-endian -------------------------------------------------------------------

  /** Four bytes as a number, least significant first. */
  function Little(s: seq<u8>): u32
    requires |s| == 4
  {
    var a: int, b: int, c: int, d: int := s[0], s[1], s[2], s[3];
    a + 0x100 * b + 0x1_0000 * c + 0x100_0000 * d
  }

  lemma Le32Is(s: seq<u8>)
    requires |s| == 4
    ensures Le32(s) == Little(s)
  {
    Pow2Values();
    var a, b, c, d := Place(s[0], 0), Place(s[1], 8), Place(s[2], 16), Place(s[3], 24);
    ShlIsMul(s[1], 8);
    ShlIsMul(s[2], 16);
    ShlIsMul(s[3], 24);
    OrCommutes(a, b);
    OrAdds(s[1], 8, a);
    OrCommutes(Or(a, b), c);
    OrAdds(s[2], 16, Or(a, b));
    OrCommutes(Or(Or(a, b), c), d);
    OrAdds(s[3], 24, Or(Or(a, b), c));
  }

  /** Storing a word and loading it. */
  lemma Le32OfBytes(w: u32)
    ensures Le32([Byte(w, 0), Byte(w, 1), Byte(w, 2), Byte(w, 3)]) == w
  {
    var s := [Byte(w, 0), Byte(w, 1), Byte(w, 2), Byte(w, 3)];
    forall n: nat | n < 32 ensures Bit(Le32(s), n) == Bit(w, n) {
      var k, j := n / 8, n % 8;
      BitLe32(s, k, j);
      BitByte(w, k, j);
      assert s[k] == Byte(w, k) && n == 8 * k + j;
    }
    SameWord(Le32(s), w);
  }

  // ---- the block function --------------------------------------------------------------------------

  /** A double round, quarter round by quarter round. */
  function Inner(mix: Mixer, x: State): State {
    var x1 := QuarterAt(mix, x, 0, 4, 8, 12);
    var x2 := QuarterAt(mix, x1, 1, 5, 9, 13);
    var x3 := QuarterAt(mix, x2, 2, 6, 10, 14);
    var x4 := QuarterAt(mix, x3, 3, 7, 11, 15);
    var x5 := QuarterAt(mix, x4, 0, 5, 10, 15);
    var x6 := QuarterAt(mix, x5, 1, 6, 11, 12);
    var x7 := QuarterAt(mix, x6, 2, 7, 8, 13);
    QuarterAt(mix, x7, 3, 4, 9, 14)
  }

  function Repeat(f: State -> State, x: State, n: nat): State
    decreases n, x
  {
    if n == 0 then x else Repeat(f, f(x), n - 1)
  }

  lemma EightQuarters(mix: Mixer, x: State)
    ensures Quarters(mix, x, DoubleRound(), 8) == Inner(mix, x)
  {
    var qs := DoubleRound();
    assert qs[0] == Quartet(0, 4, 8, 12) && qs[1] == Quartet(1, 5, 9, 13);
    assert qs[2] == Quartet(2, 6, 10, 14) && qs[3] == Quartet(3, 7, 11, 15);
    assert qs[4] == Quartet(0, 5, 10, 15) && qs[5] == Quartet(1, 6, 11, 12);
    assert qs[6] == Quartet(2, 7, 8, 13) && qs[7] == Quartet(3, 4, 9, 14);
    assert Quarters(mix, x, qs, 1) == QuarterAt(mix, Quarters(mix, x, qs, 0), 0, 4, 8, 12);
    assert Quarters(mix, x, qs, 2) == QuarterAt(mix, Quarters(mix, x, qs, 1), 1, 5, 9, 13);
    assert Quarters(mix, x, qs, 3) == QuarterAt(mix, Quarters(mix, x, qs, 2), 2, 6, 10, 14);
    assert Quarters(mix, x, qs, 4) == QuarterAt(mix, Quarters(mix, x, qs, 3), 3, 7, 11, 15);
    assert Quarters(mix, x, qs, 5) == QuarterAt(mix, Quarters(mix, x, qs, 4), 0, 5, 10, 15);
    assert Quarters(mix, x, qs, 6) == QuarterAt(mix, Quarters(mix, x, qs, 5), 1, 6, 11, 12);
    assert Quarters(mix, x, qs, 7) == QuarterAt(mix, Quarters(mix, x, qs, 6), 2, 7, 8, 13);
  }

  lemma {:induction false} RepeatLast(f: State -> State, x: State, n: nat)
    ensures Repeat(f, x, n + 1) == f(Repeat(f, x, n))
    decreases n
  {
    if n > 0 { RepeatLast(f, f(x), n - 1); }
  }

  function Twice(mix: Mixer, x: State): State { Quarters(mix, x, DoubleRound(), 8) }

  /** f is a double round. */
  ghost predicate Doubles(mix: Mixer, f: State -> State) { forall x :: f(x) == Twice(mix, x) }

  lemma {:induction false} RoundsRepeat(mix: Mixer, f: State -> State, x: State, n: nat)
    requires Doubles(mix, f)
    ensures Rounds(mix, x, n) == Repeat(f, x, n)
    decreases n
  {
    if n > 0 {
      RoundsRepeat(mix, f, x, n - 1);
      assert f(Repeat(f, x, n - 1)) == Twice(mix, Rounds(mix, x, n - 1));
      RepeatLast(f, x, n - 1);
    }
  }

  function InnerBlock(mix: Mixer): State -> State { x => Inner(mix, x) }

  lemma InnerDoubles(mix: Mixer)
    ensures Doubles(mix, InnerBlock(mix))
  {
    forall x: State ensures InnerBlock(mix)(x) == Twice(mix, x) { EightQuarters(mix, x); }
  }

  lemma WordBytes(mix: Mixer, x: State, i: nat)
    requires i < 16
    ensures Little(Cipher(mix)(x)[4 * i..4 * i + 4]) == Block(mix, x)[i]
  {
    var b: seq<u8>, v := BlockBytes(mix, x), Block(mix, x)[i];
    forall k: nat | k < 4 ensures b[4 * i + k] == Byte(v, k) {
      assert (4 * i + k) / 4 == i && (4 * i + k) % 4 == k;
    }
    FourBytes(b, i, v);
  }

  lemma FourBytes(b: seq<u8>, i: nat, v: u32)
    requires 4 * i + 4 <= |b| && forall k: nat :: k < 4 ==> b[4 * i + k] == Byte(v, k)
    ensures Little(b[4 * i..4 * i + 4]) == v
  {
    var w := b[4 * i..4 * i + 4];
    assert w[0] == b[4 * i + 0] && w[1] == b[4 * i + 1] && w[2] == b[4 * i + 2] && w[3] == b[4 * i + 3];
    assert w == [Byte(v, 0), Byte(v, 1), Byte(v, 2), Byte(v, 3)];
    Le32OfBytes(v);
    Le32Is(w);
  }

  lemma BlockAt(mix: Mixer, x: State, r: State, i: nat)
    requires i < 16 && r == Rounds(mix, x, 10)
    ensures Block(mix, x)[i] == (r[i] as int + x[i]) % 0x1_0000_0000
  {
  }

  lemma BlockWordOf(mix: Mixer, f: State -> State, x: State, i: nat)
    requires i < 16 && Doubles(mix, f)
    ensures Little(Cipher(mix)(x)[4 * i..4 * i + 4]) == (Repeat(f, x, 10)[i] as int + x[i]) % 0x1_0000_0000
  {
    WordBytes(mix, x, i);
    var r := Rounds(mix, x, 10);
    assert r == Repeat(f, x, 10) by { RoundsRepeat(mix, f, x, 10); }
    BlockAt(mix, x, r, i);
  }

  /** Word i of the ChaCha20 block of a state: ten double rounds, plus the state, stored least
      significant byte first. */
  lemma BlockWord(x: State, i: nat)
    requires i < 16
    ensures Little(ChaCha20()(x)[4 * i..4 * i + 4])
              == (Repeat(InnerBlock(QuarterRound), x, 10)[i] as int + x[i]) % 0x1_0000_0000
  {
    InnerDoubles(QuarterRound);
    BlockWordOf(QuarterRound, InnerBlock(QuarterRound), x, i);
  }

  // ---- the state that is encrypted ------------------------------------------------------------------

  lemma SliceOfSlice(k: seq<u8>, a: nat, b: nat, i: nat)
    requires a <= b <= |k| && a + i + 4 <= b
    ensures k[a..b][i..i + 4] == k[a + i..a + i + 4]
  {
    var l, r := k[a..b][i..i + 4], k[a + i..a + i + 4];
    assert |l| == |r| == 4 && forall j :: 0 <= j < 4 ==> l[j] == k[a + i + j] == r[j];
  }

  lemma KeyHalves(k: seq<u8>)
    requires |k| >= 32
    ensures Words(k[..32]) == Words(k[..16]) + Words(k[16..32])
  {
    forall i: nat | i < 4
      ensures WordAt(k[..32], i) == WordAt(k[..16], i) && WordAt(k[..32], 4 + i) == WordAt(k[16..32], i)
    {
      SliceOfSlice(k, 0, 32, 4 * i);
      SliceOfSlice(k, 0, 16, 4 * i);
      SliceOfSlice(k, 0, 32, 16 + 4 * i);
      SliceOfSlice(k, 16, 32, 4 * i);
      assert 4 * (4 + i) == 16 + 4 * i && k[0..32] == k[..32] && k[0..16] == k[..16];
    }
  }

  lemma KeyParts(k: seq<u8>, wide: bool)
    requires |k| >= if wide then 32 else 16
    ensures KeyWords(k, wide) == Words(if wide then SIGMA else TAU) + Words(k[..16])
                                 + Words(if wide then k[16..32] else k[..16])
  {
    if wide { KeyHalves(k); }
  }

  /** The codes of a text. */
  function Ascii(t: string): seq<u8>
    requires forall i :: 0 <= i < |t| ==> t[i] < 128 as char
  {
    seq(|t|, i requires 0 <= i < |t| => t[i] as int)
  }

  lemma Constants()
    ensures SIGMA == Ascii("expand 32-byte k") && TAU == Ascii("expand 16-byte k")
  {
  }

  function LittleWords(s: seq<u8>): (r: seq<u32>)
    ensures |r| == |s| / 4
  {
    seq(|s| / 4, i requires 0 <= i < |s| / 4 => Little(s[4 * i..4 * i + 4]))
  }

  lemma WordsAreLittle(s: seq<u8>)
    ensures Words(s) == LittleWords(s)
  {
    forall i: nat | i < |s| / 4 ensures Words(s)[i] == LittleWords(s)[i] { Le32Is(s[4 * i..4 * i + 4]); }
  }

  /** The constant for the key length, and the key, twice if it is short. */
  function KeyPart(long: bool, key: seq<u8>): (r: seq<u32>)
    requires |key| >= if long then 32 else 16
    ensures |r| == 12
  {
    LittleWords(Ascii(if long then "expand 32-byte k" else "expand 16-byte k"))
    + LittleWords(key[..16]) + LittleWords(if long then key[16..32] else key[..16])
  }

  /** Key words, a block number and two words of nonce. */
  function Numbered(k: seq<u32>, n: nat, nonce: seq<u32>): State
    requires |k| == 12 && |nonce| == 2
  {
    k + [n % 0x1_0000_0000, n / 0x1_0000_0000 % 0x1_0000_0000] + nonce
  }

  /** The constant and the key, the block number and the nonce. */
  function Primed(long: bool, key: seq<u8>, n: nat, nonce: seq<u8>): State
    requires |nonce| == 8 && |key| >= if long then 32 else 16
  {
    Numbered(KeyPart(long, key), n, LittleWords(nonce))
  }

  /** A block counter given as eight bytes. */
  function Little64(s: seq<u8>): nat
    requires |s| == 8
  {
    Little(s[..4]) as int + 0x1_0000_0000 * Little(s[4..])
  }

  lemma CounterIs(k: seq<u32>, counter: seq<u8>, iv: seq<u8>)
    requires |k| == 12 && |counter| == 8 && |iv| == 8
    ensures Counter(k + IvWords(counter, iv)) == Little64(counter)
  {
    var x: State := k + IvWords(counter, iv);
    WordsAreLittle(counter);
    assert x[12] == Words(counter)[0] && x[13] == Words(counter)[1];
    assert counter[0..4] == counter[..4] && counter[4..8] == counter[4..];
  }

  lemma KeyIsLittle(long: bool, key: seq<u8>)
    requires |key| >= if long then 32 else 16
    ensures KeyWords(key, long) == KeyPart(long, key)
  {
    KeyParts(key, long);
    Constants();
    WordsAreLittle(if long then SIGMA else TAU);
    WordsAreLittle(key[..16]);
    WordsAreLittle(if long then key[16..32] else key[..16]);
  }

  lemma NewCounter(k: seq<u32>, v: seq<u32>, iv: seq<u32>, c: nat)
    requires |k| == 12 && |v| == 4 && |iv| == 2 && v[2..] == iv
    ensures WithCounter(k + v, c) == Numbered(k, c, iv)
  {
    assert v[2] == iv[0] && v[3] == iv[1];
  }

  /** A counter and a nonce after any key words: the states of the key stream, numbered. */
  lemma NumberedAt(k: seq<u32>, counter: seq<u8>, iv: seq<u8>, i: nat)
    requires |k| == 12 && |counter| == 8 && |iv| == 8
    ensures StateAt(k + IvWords(counter, iv), i) == Numbered(k, Little64(counter) + i / 64, LittleWords(iv))
  {
    CounterIs(k, counter, iv);
    WordsAreLittle(iv);
    NewCounter(k, IvWords(counter, iv), LittleWords(iv), Little64(counter) + i / 64);
  }

  /** Where the cipher is primed with a key, a counter and a nonce, byte i of the key stream
      comes from the state with block number i / 64 more. */
  lemma PrimedAt(long: bool, key: seq<u8>, counter: seq<u8>, iv: seq<u8>, i: nat)
    requires |key| >= (if long then 32 else 16) && |counter| == 8 && |iv| == 8
    ensures StateAt(KeyWords(key, long) + IvWords(counter, iv), i)
              == Primed(long, key, Little64(counter) + i / 64, iv)
  {
    var k := KeyWords(key, long);
    assert k == KeyPart(long, key) by { KeyIsLittle(long, key); }
    NumberedAt(k, counter, iv, i);
  }

  lemma NumberedFirst(k: seq<u32>, counter: seq<u8>, iv: seq<u8>)
    requires |k| == 12 && |counter| == 8 && |iv| == 8
    ensures k + IvWords(counter, iv) == Numbered(k, Little64(counter), LittleWords(iv))
  {
    var x: State := k + IvWords(counter, iv);
    SameCounter(x);
    CounterIs(k, counter, iv);
    WordsAreLittle(iv);
    NewCounter(k, IvWords(counter, iv), LittleWords(iv), Little64(counter));
  }

  lemma PrimedFirst(long: bool, key: seq<u8>, counter: seq<u8>, iv: seq<u8>)
    requires |key| >= (if long then 32 else 16) && |counter| == 8 && |iv| == 8
    ensures KeyWords(key, long) + IvWords(counter, iv) == Primed(long, key, Little64(counter), iv)
  {
    var k := KeyWords(key, long);
    assert k == KeyPart(long, key) by { KeyIsLittle(long, key); }
    NumberedFirst(k, counter, iv);
  }

  /** The stream cipher, byte by byte. */
  lemma StreamIs(f: BlockFn, long: bool, key: seq<u8>, counter: seq<u8>, iv: seq<u8>, m: seq<u8>)
    requires |key| >= (if long then 32 else 16) && |counter| == 8 && |iv| == 8
    ensures var c := Crypt(f, KeyWords(key, long) + IvWords(counter, iv), m);
            |c| == |m| && forall i: nat :: i < |m| ==>
              c[i] == Xor8(m[i], f(Primed(long, key, Little64(counter) + i / 64, iv))[i % 64])
  {
    var x := KeyWords(key, long) + IvWords(counter, iv);
    forall i: nat | i < |m|
      ensures Crypt(f, x, m)[i] == Xor8(m[i], f(Primed(long, key, Little64(counter) + i / 64, iv))[i % 64])
    {
      PrimedAt(long, key, counter, iv, i);
    }
  }
}
