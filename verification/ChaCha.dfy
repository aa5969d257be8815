/** A stream cipher made of a block function and a 64-bit block counter, whatever the
    block function is. */
module KeyStream {
  import opened Ints
  import opened Bits

  /** Sixteen words; the counter is in words 12 and 13. */
  type State = x: seq<u32> | |x| == 16 witness [0, 0, 0, 0, 0, 0, 0, 0, 0, 0, 0, 0, 0, 0, 0, 0]

  type Bytes64 = s: seq<u8> | |s| == 64 witness seq(64, _ => 0)

  type BlockFn = State -> Bytes64

  function Xor8(a: u8, b: u8): u8 {
    Pow2Values();
    Bounded(a, b, 8);
    Xor(a, b)
  }

  lemma XorTwice(a: u8, b: u8)
    ensures Xor8(Xor8(a, b), b) == a
  {
    forall j: nat | j < 8 ensures Bit(Xor8(Xor8(a, b), b), j) == Bit(a, j) {
      BitXor(Xor8(a, b), b, j);
      BitXor(a, b, j);
    }
    SameByte(Xor8(Xor8(a, b), b), a);
  }

  /** The 64-bit counter in words 12 and 13. */
  function Counter(x: State): nat {
    var lo: int, hi: int := x[12], x[13];
    lo + 0x1_0000_0000 * hi
  }

  function Lo(c: nat): u32 { c % 0x1_0000_0000 }
  function Hi(c: nat): u32 { Lo(c / 0x1_0000_0000) }

  function WithCounter(x: State, c: nat): State { x[12 := Lo(c)][13 := Hi(c)] }

  /** Byte i of the key stream from state x on. */
  function Stream(f: BlockFn, x: State, i: nat): u8 {
    f(StateAt(x, i))[i % 64]
  }

  /** The state after n bytes, rounded up to whole blocks. */
  function After(x: State, n: nat): State { WithCounter(x, Counter(x) + (n + 63) / 64) }

  function Crypt(f: BlockFn, x: State, m: seq<u8>): (r: seq<u8>)
    ensures |r| == |m| && forall i :: 0 <= i < |m| ==> r[i] == Xor8(m[i], Stream(f, x, i))
  {
    seq(|m|, i requires 0 <= i < |m| => Xor8(m[i], Stream(f, x, i)))
  }

  lemma SelfInverse(f: BlockFn, x: State, m: seq<u8>)
    ensures Crypt(f, x, Crypt(f, x, m)) == m
  {
    forall i | 0 <= i < |m| ensures Crypt(f, x, Crypt(f, x, m))[i] == m[i] { XorTwice(m[i], Stream(f, x, i)); }
  }

  /** c modulo 2^64, as two words. */
  lemma TwoWords(c: nat)
    ensures exists r: nat :: c == 0x1_0000_0000_0000_0000 * r + 0x1_0000_0000 * Hi(c) + Lo(c)
  {
    var q := c / 0x1_0000_0000;
    var r := q / 0x1_0000_0000;
    assert c == 0x1_0000_0000 * q + Lo(c);
    assert q == 0x1_0000_0000 * r + Hi(c);
    assert c == 0x1_0000_0000_0000_0000 * r + 0x1_0000_0000 * Hi(c) + Lo(c);
  }

  /** The two words depend on the counter modulo 2^64 only. */
  lemma WordsUnique(c: nat, d: nat, r: nat)
    requires c == 0x1_0000_0000_0000_0000 * r + d
    ensures Lo(c) == Lo(d) && Hi(c) == Hi(d)
  {
    var q := d / 0x1_0000_0000;
    assert c == 0x1_0000_0000 * (0x1_0000_0000 * r + q) + Lo(d);
    assert c / 0x1_0000_0000 == 0x1_0000_0000 * r + q && Lo(c) == Lo(d);
    assert Lo(0x1_0000_0000 * r + q) == Lo(q);
  }

  lemma SameCounter(x: State)
    ensures WithCounter(x, Counter(x)) == x
  {
    var lo: int, hi: int := x[12], x[13];
    assert Lo(lo + 0x1_0000_0000 * hi) == lo && (lo + 0x1_0000_0000 * hi) / 0x1_0000_0000 == hi;
  }

  lemma WithTwice(x: State, c: nat, n: nat)
    ensures WithCounter(WithCounter(x, c), Counter(WithCounter(x, c)) + n) == WithCounter(x, c + n)
  {
    TwoWords(c);
    var r: nat :| c == 0x1_0000_0000_0000_0000 * r + 0x1_0000_0000 * Hi(c) + Lo(c);
    WordsUnique(c + n, Lo(c) + 0x1_0000_0000 * Hi(c) + n, r);
  }

  /** The state that gives byte i of the key stream. */
  function StateAt(x: State, i: nat): State { WithCounter(x, Counter(x) + i / 64) }

  lemma StateLater(x: State, k: nat, i: nat)
    ensures StateAt(WithCounter(x, Counter(x) + k), i) == StateAt(x, 64 * k + i)
    ensures (64 * k + i) % 64 == i % 64
  {
    assert (64 * k + i) / 64 == k + i / 64 && (64 * k + i) % 64 == i % 64;
    WithTwice(x, Counter(x) + k, i / 64);
  }

  lemma StreamLater(f: BlockFn, x: State, k: nat, i: nat)
    ensures Stream(f, WithCounter(x, Counter(x) + k), i) == Stream(f, x, 64 * k + i)
  {
    StateLater(x, k, i);
  }

  lemma CryptSplits(f: BlockFn, x: State, y: State, a: seq<u8>, b: seq<u8>, k: nat)
    requires |a| == 64 * k && y == WithCounter(x, Counter(x) + k)
    ensures Crypt(f, x, a + b) == Crypt(f, x, a) + Crypt(f, y, b)
  {
    var l, r := Crypt(f, x, a + b), Crypt(f, x, a) + Crypt(f, y, b);
    assert |l| == |r|;
    forall i: nat | i < |a| + |b| ensures l[i] == r[i] { SplitByte(f, x, y, a, b, k, i); }
  }

  /** Byte i, encrypted as part of the whole or of its part. */
  lemma SplitByte(f: BlockFn, x: State, y: State, a: seq<u8>, b: seq<u8>, k: nat, i: nat)
    requires |a| == 64 * k && y == WithCounter(x, Counter(x) + k) && i < |a| + |b|
    ensures Crypt(f, x, a + b)[i] == (Crypt(f, x, a) + Crypt(f, y, b))[i]
  {
    if i >= |a| { StreamLater(f, x, k, i - |a|); }
  }

  /** Encrypting a whole number of blocks, and then the rest, is encrypting at once. */
  lemma SplitsCompose(f: BlockFn, x: State, a: seq<u8>, b: seq<u8>)
    requires |a| % 64 == 0
    ensures Crypt(f, x, a + b) == Crypt(f, x, a) + Crypt(f, After(x, |a|), b)
    ensures After(x, |a + b|) == After(After(x, |a|), |b|)
  {
    var k := |a| / 64;
    CryptSplits(f, x, After(x, |a|), a, b, k);
    assert (|a + b| + 63) / 64 == k + (|b| + 63) / 64;
    WithTwice(x, Counter(x) + k, (|b| + 63) / 64);
  }
}

/** ChaCha20 (section 2 of RFC 8439 for the rounds), with the 64-bit block counter and the
    64-bit nonce of the original cipher. */
module ChaChaSpec {
  import opened Ints
  import opened Bits
  import opened KeyStream

  // ---- words and bytes ---------------------------------------------------------------

  function Xor32(a: u32, b: u32): u32 {
    Pow2Values();
    Bounded(a, b, 32);
    Xor(a, b)
  }

  /** ROTL32 for 0 < n < 32. */
  function Rotl(v: u32, n: nat): u32
    requires 0 < n < 32
  {
    Pow2Values();
    ShrBelow(v, 32, 32 - n);
    Pow2Below(n, 32);
    Bounded(Low(Shl(v, n), 32), Shr(v, 32 - n), 32);
    Or(Low(Shl(v, n), 32), Shr(v, 32 - n))
  }

  /** U32TO8_LITTLE: byte k of a word. */
  function Byte(w: u32, k: nat): u8 {
    Pow2Values();
    Low(Shr(w, 8 * k), 8)
  }

  lemma {:induction false} BitByte(w: u32, k: nat, j: nat)
    ensures Bit(Byte(w, k), j) == (j < 8 && Bit(w, 8 * k + j))
  {
    BitLow(Shr(w, 8 * k), 8, j);
    BitShr(w, 8 * k, j);
  }

  /** A byte shifted into its place in a word. */
  function Place(b: u8, sh: nat): (w: nat)
    requires sh <= 24
    ensures w < Pow2(32)
  {
    Pow2Values();
    ShlBelow(b, 8, sh);
    Pow2Below(8 + sh, 32);
    Shl(b, sh)
  }

  lemma {:induction false} BitPlace(b: u8, sh: nat, j: nat)
    requires sh <= 24
    ensures Bit(Place(b, sh), j) == (sh <= j < sh + 8 && Bit(b, j - sh))
  {
    Pow2Values();
    BitShl(b, sh, j);
    if j >= sh + 8 { BitAbove(b, 8, j - sh); }
  }

  /** U8TO32_LITTLE. */
  function Le32(s: seq<u8>): u32
    requires |s| == 4
  {
    Pow2Values();
    var a := Place(s[0], 0);
    var b := Place(s[1], 8);
    var c := Place(s[2], 16);
    var d := Place(s[3], 24);
    Bounded(a, b, 32);
    Bounded(Or(a, b), c, 32);
    Bounded(Or(Or(a, b), c), d, 32);
    Or(Or(Or(a, b), c), d)
  }

  lemma {:induction false} BitLe32(s: seq<u8>, k: nat, j: nat)
    requires |s| == 4 && k < 4 && j < 8
    ensures Bit(Le32(s), 8 * k + j) == Bit(s[k], j)
  {
    var n := 8 * k + j;
    var a, b, c, d := Place(s[0], 0), Place(s[1], 8), Place(s[2], 16), Place(s[3], 24);
    BitOr(Or(Or(a, b), c), d, n);
    BitOr(Or(a, b), c, n);
    BitOr(a, b, n);
    BitPlace(s[0], 0, n);
    BitPlace(s[1], 8, n);
    BitPlace(s[2], 16, n);
    BitPlace(s[3], 24, n);
  }

  /** Encrypting a word and taking a byte is encrypting the byte. */
  lemma XorBytes(w: u32, s: seq<u8>, k: nat)
    requires |s| == 4 && k < 4
    ensures Byte(Xor32(w, Le32(s)), k) == Xor8(s[k], Byte(w, k))
  {
    var l, r := Byte(Xor32(w, Le32(s)), k), Xor8(s[k], Byte(w, k));
    forall j: nat | j < 8 ensures Bit(l, j) == Bit(r, j) {
      BitByte(Xor32(w, Le32(s)), k, j);
      BitByte(w, k, j);
      BitLe32(s, k, j);
      BitXor(w, Le32(s), 8 * k + j);
      BitXor(s[k], Byte(w, k), j);
    }
    SameByte(l, r);
  }

  // ---- the rounds -------------------------------------------------------------------------

  datatype Quad = Quad(a: u32, b: u32, c: u32, d: u32)

  /** One line of the quarter round: a += b; d ^= a; d <<<= n. */
  function HalfStep(q: Quad, n: nat): Quad
    requires 0 < n < 32
  {
    var a := Add32(q.a, q.b);
    q.(a := a, d := Rotl(Xor32(q.d, a), n))
  }

  /** The same line with (a, d) and (c, b) exchanged. */
  function Turn(q: Quad): Quad { Quad(q.c, q.d, q.a, q.b) }

  /** Section 2.1 of RFC 8439. */
  function QuarterRound(q: Quad): Quad {
    Turn(HalfStep(Turn(HalfStep(Turn(HalfStep(Turn(HalfStep(q, 16)), 12)), 8)), 7))
  }

  /** Which four words a quarter round works on. */
  datatype Quartet = Quartet(a: nat, b: nat, c: nat, d: nat)

  function Column(i: nat): Quartet { Quartet(i, 4 + i, 8 + i, 12 + i) }
  function Diagonal(i: nat): Quartet { Quartet(i, 4 + (i + 1) % 4, 8 + (i + 2) % 4, 12 + (i + 3) % 4) }

  predicate InState(q: Quartet) { q.a < 16 && q.b < 16 && q.c < 16 && q.d < 16 }

  /** A double round works on the four columns, then on the four diagonals (section 2.3). */
  function DoubleRound(): (qs: seq<Quartet>)
    ensures |qs| == 8 && forall i :: 0 <= i < 8 ==> InState(qs[i])
    ensures forall i: nat :: i < 4 ==> qs[i] == Column(i) && qs[i + 4] == Diagonal(i)
  {
    [Column(0), Column(1), Column(2), Column(3), Diagonal(0), Diagonal(1), Diagonal(2), Diagonal(3)]
  }

  /** The rounds are the same whatever is done to each quartet of words. */
  type Mixer = Quad -> Quad

  function QuarterAt(mix: Mixer, x: State, a: nat, b: nat, c: nat, d: nat): State
    requires a < 16 && b < 16 && c < 16 && d < 16
  {
    var q := mix(Quad(x[a], x[b], x[c], x[d]));
    x[a := q.a][b := q.b][c := q.c][d := q.d]
  }

  /** The first n of a list of quarter rounds. */
  function Quarters(mix: Mixer, x: State, qs: seq<Quartet>, n: nat): State
    requires n <= |qs| && forall i :: 0 <= i < |qs| ==> InState(qs[i])
    decreases n, x
  {
    if n == 0 then x
    else var q := qs[n - 1]; QuarterAt(mix, Quarters(mix, x, qs, n - 1), q.a, q.b, q.c, q.d)
  }

  function Rounds(mix: Mixer, x: State, n: nat): State
    decreases n, x
  {
    if n == 0 then x else Quarters(mix, Rounds(mix, x, n - 1), DoubleRound(), 8)
  }

  /** The block function: ten double rounds, then the input is added. */
  function Block(mix: Mixer, x: State): State {
    seq(16, i requires 0 <= i < 16 => Add32(Rounds(mix, x, 10)[i], x[i]))
  }

  /** The serialised block. */
  function BlockBytes(mix: Mixer, x: State): Bytes64 {
    seq(64, i requires 0 <= i < 64 => Byte(Block(mix, x)[i / 4], i % 4))
  }

  function Cipher(mix: Mixer): BlockFn { x => BlockBytes(mix, x) }

  /** ChaCha20. */
  function ChaCha20(): BlockFn { Cipher(QuarterRound) }

  // ---- key and nonce -------------------------------------------------------------------------

  /** The ASCII codes of "expand 32-byte k" and "expand 16-byte k". */
  const SIGMA: seq<u8> := [101, 120, 112, 97, 110, 100, 32, 51, 50, 45, 98, 121, 116, 101, 32, 107]
  const TAU: seq<u8> := [101, 120, 112, 97, 110, 100, 32, 49, 54, 45, 98, 121, 116, 101, 32, 107]

  function WordAt(s: seq<u8>, i: nat): u32
    requires 4 * i + 4 <= |s|
  {
    Le32(s[4 * i..4 * i + 4])
  }

  function Words(s: seq<u8>): (r: seq<u32>)
    ensures |r| == |s| / 4
  {
    seq(|s| / 4, i requires 0 <= i < |s| / 4 => WordAt(s, i))
  }

  /** Words 0 to 11 for a key: a 256-bit key is used whole, a 128-bit key twice. */
  function KeyWords(key: seq<u8>, long: bool): (r: seq<u32>)
    requires |key| >= if long then 32 else 16
    ensures |r| == 12
  {
    if long then Words(SIGMA) + Words(key[..32]) else Words(TAU) + Words(key[..16]) + Words(key[..16])
  }

  /** Words 12 to 15 for a counter and a nonce. */
  function IvWords(counter: seq<u8>, nonce: seq<u8>): (r: seq<u32>)
    requires |counter| == 8 && |nonce| == 8
    ensures |r| == 4
  {
    Words(counter) + Words(nonce)
  }
}
