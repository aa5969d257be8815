/** Fixed-width unsigned integers as they appear in the C source, modelled as
    bounded integers with explicit wrap-around. */
module Ints {

  const INT_MAX: int := 0x7fff_ffff

  type u8 = x: int | 0 <= x < 256
  type u32 = x: int | 0 <= x < 0x1_0000_0000

  /** C's unsigned 32-bit addition, subtraction and multiplication.  The first
      branch is the value when nothing wraps. */
  function Add32(a: u32, b: nat): u32 {
    if a + b < 0x1_0000_0000 then a + b else (a + b) % 0x1_0000_0000
  }

  function Sub32(a: u32, b: nat): u32 {
    if b <= a then a - b else (a - b) % 0x1_0000_0000
  }

  function Mul32(a: u32, b: u32): u32 { (a * b) % 0x1_0000_0000 }

  /** A size stored in 32 bits. */
  function ToU32(n: nat): u32 { if n < 0x1_0000_0000 then n else n % 0x1_0000_0000 }

  function Min(a: int, b: int): int { if a <= b then a else b }

  /** The pieces of a sequence, put together. */
  function Concat<T>(pieces: seq<seq<T>>): seq<T> {
    if pieces == [] then [] else pieces[0] + Concat(pieces[1..])
  }

  /** PEEK_U32: four bytes, most significant first. */
  function PeekU32(s: seq<u8>): u32
    requires |s| >= 4
  {
    var a: int, b: int, c: int, d: int := s[0], s[1], s[2], s[3];
    a * 0x100_0000 + b * 0x1_0000 + c * 0x100 + d
  }

  /** POKE_U32, its inverse. */
  function PokeU32(w: u32): seq<u8> { [w / 0x100_0000, w / 0x1_0000 % 256, w / 0x100 % 256, w % 256] }

  lemma PeekOfPoke(w: u32, rest: seq<u8>)
    ensures PeekU32(PokeU32(w) + rest) == w
  {
    var x: int := w;
    var q := x / 256;
    var r := q / 256;
    assert x == 256 * q + x % 256;
    assert q == 256 * r + q % 256;
    assert r == 256 * (r / 256) + r % 256;
    assert x / 0x1_0000 == r && x / 0x100_0000 == r / 256;
  }

  lemma Digits(x: int, q: int, d: u8)
    requires x == 256 * q + d
    ensures x / 256 == q && x % 256 == d
  {
  }

  lemma DigitsApart(x: nat)
    ensures x / 0x1_0000 == x / 256 / 256 && x / 0x100_0000 == x / 256 / 256 / 256
  {
    var q := x / 256;
    var r := q / 256;
    assert x == 256 * q + x % 256 && q == 256 * r + q % 256 && r == 256 * (r / 256) + r % 256;
  }

  lemma PokeOfPeek(s: seq<u8>)
    requires |s| >= 4
    ensures s == PokeU32(PeekU32(s)) + s[4..]
  {
    var a: int, b: int, c: int := s[0], s[1], s[2];
    var w: int := PeekU32(s);
    Digits(w, 0x1_0000 * a + 256 * b + c, s[3]);
    Digits(0x1_0000 * a + 256 * b + c, 256 * a + b, s[2]);
    Digits(256 * a + b, a, s[1]);
    DigitsApart(w);
    assert PokeU32(w) == [s[0], s[1], s[2], s[3]];
  }
}
