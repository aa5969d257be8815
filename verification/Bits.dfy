/** Bitwise operators on natural numbers, bit by bit, and how they interact with
    shifting and masking.  C's unsigned words are the numbers below a power of two. */
module Bits {

  function Pow2(n: nat): (p: nat)
    ensures p > 0
  {
    if n == 0 then 1 else 2 * Pow2(n - 1)
  }

  /** Bit k of w, the least significant being bit 0. */
  predicate Bit(w: nat, k: nat)
    decreases k, w
  {
    if k == 0 then w % 2 == 1 else Bit(w / 2, k - 1)
  }

  function Or(a: nat, b: nat): nat {
    if a == 0 then b else if b == 0 then a
    else 2 * Or(a / 2, b / 2) + if a % 2 == 1 || b % 2 == 1 then 1 else 0
  }

  function And(a: nat, b: nat): nat {
    if a == 0 || b == 0 then 0
    else 2 * And(a / 2, b / 2) + if a % 2 == 1 && b % 2 == 1 then 1 else 0
  }

  function Xor(a: nat, b: nat): nat {
    if a == 0 then b else if b == 0 then a
    else 2 * Xor(a / 2, b / 2) + if a % 2 != b % 2 then 1 else 0
  }

  /** a << s and a >> s. */
  function Shl(a: nat, s: nat): nat
    decreases s, a
  {
    if s == 0 then a else 2 * Shl(a, s - 1)
  }

  function Shr(a: nat, s: nat): nat
    decreases s, a
  {
    if s == 0 then a else Shr(a / 2, s - 1)
  }

  /** The lowest n bits: a & (2^n - 1), and what is left of a in an n-bit word. */
  function Low(a: nat, n: nat): (r: nat)
    ensures r < Pow2(n)
    decreases n, a
  {
    if n == 0 then 0 else 2 * Low(a / 2, n - 1) + a % 2
  }

  lemma {:induction false} BitZero(k: nat)
    ensures !Bit(0, k)
  {
    if k > 0 { BitZero(k - 1); }
  }

  lemma {:induction false} BitOr(a: nat, b: nat, k: nat)
    ensures Bit(Or(a, b), k) == (Bit(a, k) || Bit(b, k))
    decreases k
  {
    if a == 0 || b == 0 { BitZero(k); } else if k > 0 { BitOr(a / 2, b / 2, k - 1); }
  }

  lemma {:induction false} BitAnd(a: nat, b: nat, k: nat)
    ensures Bit(And(a, b), k) == (Bit(a, k) && Bit(b, k))
    decreases k
  {
    if a == 0 || b == 0 { BitZero(k); } else if k > 0 { BitAnd(a / 2, b / 2, k - 1); }
  }

  lemma {:induction false} BitXor(a: nat, b: nat, k: nat)
    ensures Bit(Xor(a, b), k) == (Bit(a, k) != Bit(b, k))
    decreases k
  {
    if a == 0 || b == 0 { BitZero(k); } else if k > 0 { BitXor(a / 2, b / 2, k - 1); }
  }

  // ---- extensionality ---------------------------------------------------------------

  lemma {:induction false} BitAbove(a: nat, n: nat, k: nat)
    requires a < Pow2(n) && n <= k
    ensures !Bit(a, k)
    decreases n
  {
    if n == 0 { BitZero(k); } else { BitAbove(a / 2, n - 1, k - 1); }
  }

  /** Numbers below 2^n are determined by their first n bits. */
  lemma {:induction false} Same(a: nat, b: nat, n: nat)
    requires a < Pow2(n) && b < Pow2(n)
    requires forall k: nat :: k < n ==> Bit(a, k) == Bit(b, k)
    ensures a == b
  {
    if n > 0 {
      assert Bit(a, 0) == Bit(b, 0);
      forall k: nat | k < n - 1 ensures Bit(a / 2, k) == Bit(b / 2, k) {
        assert Bit(a, k + 1) == Bit(b, k + 1);
      }
      Same(a / 2, b / 2, n - 1);
    }
  }

  lemma {:induction false} Bounded(a: nat, b: nat, n: nat)
    requires a < Pow2(n) && b < Pow2(n)
    ensures Or(a, b) < Pow2(n) && And(a, b) < Pow2(n) && Xor(a, b) < Pow2(n)
  {
    if n > 0 && a != 0 && b != 0 { Bounded(a / 2, b / 2, n - 1); }
  }

  // ---- powers -------------------------------------------------------------------------

  lemma {:induction false} Pow2Add(m: nat, n: nat)
    ensures Pow2(m + n) == Pow2(m) * Pow2(n)
  {
    if m > 0 { Pow2Add(m - 1, n); }
  }

  lemma Pow2Values()
    ensures Pow2(8) == 0x100 && Pow2(16) == 0x1_0000 && Pow2(24) == 0x100_0000 && Pow2(32) == 0x1_0000_0000
  {
    assert Pow2(4) == 16;
    Pow2Add(4, 4);
    Pow2Add(8, 8);
    Pow2Add(16, 8);
    Pow2Add(16, 16);
  }

  /** Bytes with the same bits are the same. */
  lemma SameByte(a: nat, b: nat)
    requires a < 256 && b < 256 && forall k: nat :: k < 8 ==> Bit(a, k) == Bit(b, k)
    ensures a == b
  {
    Pow2Values();
    Same(a, b, 8);
  }

  /** And so are 32-bit words. */
  lemma SameWord(a: nat, b: nat)
    requires a < 0x1_0000_0000 && b < 0x1_0000_0000 && forall k: nat :: k < 32 ==> Bit(a, k) == Bit(b, k)
    ensures a == b
  {
    Pow2Values();
    Same(a, b, 32);
  }

  // ---- shifting -------------------------------------------------------------------------

  lemma {:induction false} BitShr(a: nat, s: nat, k: nat)
    ensures Bit(Shr(a, s), k) == Bit(a, s + k)
    decreases s
  {
    if s > 0 { BitShr(a / 2, s - 1, k); }
  }

  lemma {:induction false} BitShl(a: nat, s: nat, k: nat)
    ensures Bit(Shl(a, s), k) == (k >= s && Bit(a, k - s))
    decreases s
  {
    if s > 0 && k > 0 { BitShl(a, s - 1, k - 1); }
  }

  lemma {:induction false} BitLow(a: nat, n: nat, k: nat)
    ensures Bit(Low(a, n), k) == (k < n && Bit(a, k))
    decreases n
  {
    if n == 0 { BitZero(k); } else if k > 0 { BitLow(a / 2, n - 1, k - 1); }
  }

  /** The single bit 1 << n. */
  lemma {:induction false} BitOne(n: nat, k: nat)
    ensures Bit(Shl(1, n), k) == (k == n)
  {
    BitShl(1, n, k);
    if k > n { BitAbove(1, 1, k - n); }
  }

  lemma {:induction false} ShlIsMul(a: nat, s: nat)
    ensures Shl(a, s) == a * Pow2(s)
  {
    if s > 0 { ShlIsMul(a, s - 1); }
  }

  lemma {:induction false} ShlBelow(a: nat, m: nat, s: nat)
    requires a < Pow2(m)
    ensures Shl(a, s) < Pow2(m + s)
  {
    if s > 0 { ShlBelow(a, m, s - 1); }
  }

  lemma {:induction false} ShrBelow(a: nat, n: nat, s: nat)
    requires a < Pow2(n) && s <= n
    ensures Shr(a, s) < Pow2(n - s)
    decreases s
  {
    if s > 0 { ShrBelow(a / 2, n - 1, s - 1); }
  }

  lemma {:induction false} Pow2Below(m: nat, n: nat)
    requires m <= n
    ensures Pow2(m) <= Pow2(n)
  {
    if m < n { Pow2Below(m, n - 1); }
  }

  /** Masking with 2^n - 1 keeps the lowest n bits. */
  lemma {:induction false} AndMask(a: nat, n: nat)
    ensures And(a, Pow2(n) - 1) == Low(a, n)
    decreases n
  {
    if n > 0 && a > 0 { AndMask(a / 2, n - 1); } else if a == 0 { LowZero(n); }
  }

  lemma {:induction false} LowZero(n: nat)
    ensures Low(0, n) == 0
  {
    if n > 0 { LowZero(n - 1); }
  }

  /** Testing a bit with a mask. */
  lemma {:induction false} AndOne(a: nat, k: nat)
    ensures And(a, Shl(1, k)) == if Bit(a, k) then Shl(1, k) else 0
    decreases k
  {
    if k == 0 {
      assert And(a / 2, 0) == 0;
    } else if a == 0 {
      BitZero(k);
    } else {
      AndOne(a / 2, k - 1);
    }
  }

  /** Complement within n bits. */
  function Not(a: nat, n: nat): nat
    requires a < Pow2(n)
  {
    Pow2(n) - 1 - a
  }

  lemma {:induction false} BitNot(a: nat, n: nat, k: nat)
    requires a < Pow2(n)
    ensures Bit(Not(a, n), k) == (k < n && !Bit(a, k))
    decreases n
  {
    if n == 0 {
      BitZero(k);
    } else {
      assert Not(a, n) / 2 == Not(a / 2, n - 1) && Not(a, n) % 2 == 1 - a % 2;
      if k > 0 { BitNot(a / 2, n - 1, k - 1); }
    }
  }

  // ---- masks and fields of a byte ----------------------------------------------------------------

  /** Masking with ones in places k to w - 1 clears the lowest k bits. */
  lemma {:induction false} AndHigh(a: nat, k: nat, w: nat)
    requires a < Pow2(w) && k <= w
    ensures Pow2(k) <= Pow2(w) && And(a, Pow2(w) - Pow2(k)) == Shl(Shr(a, k), k)
    decreases k
  {
    Pow2Below(k, w);
    if k == 0 {
      AndMask(a, w);
      LowAll(a, w);
    } else {
      AndHigh(a / 2, k - 1, w - 1);
      if a == 0 || Pow2(w) == Pow2(k) { AndHighZero(a, k); }
    }
  }

  lemma {:induction false} LowAll(a: nat, n: nat)
    requires a < Pow2(n)
    ensures Low(a, n) == a
  {
    if n > 0 { LowAll(a / 2, n - 1); }
  }

  lemma {:induction false} AndHighZero(a: nat, k: nat)
    ensures a < Pow2(k) ==> Shl(Shr(a, k), k) == 0
    decreases k
  {
    if k > 0 { AndHighZero(a / 2, k - 1); }
  }

  lemma {:induction false} OrCommutes(a: nat, b: nat)
    ensures Or(a, b) == Or(b, a)
  {
    if a > 0 && b > 0 { OrCommutes(a / 2, b / 2); }
  }

  /** Fields that do not overlap are joined by addition. */
  lemma {:induction false} OrAdds(x: nat, k: nat, y: nat)
    requires y < Pow2(k)
    ensures Or(Shl(x, k), y) == Shl(x, k) + y
    decreases k
  {
    if k > 0 {
      OrAdds(x, k - 1, y / 2);
      assert Shl(x, k) / 2 == Shl(x, k - 1) && Shl(x, k) % 2 == 0;
    }
  }

  lemma {:induction false} ShrNext(a: nat, n: nat)
    ensures Shr(a, n + 1) == Shr(a, n) / 2
    decreases n
  {
    if n > 0 { ShrNext(a / 2, n - 1); }
  }

  /** The fields of a byte, as quotients and remainders. */
  lemma {:induction false} SmallShifts(a: nat)
    ensures Shr(a, 1) == a / 2 && Shr(a, 2) == a / 4 && Shr(a, 3) == a / 8 && Shr(a, 4) == a / 16
    ensures Shr(a, 5) == a / 32 && Shr(a, 6) == a / 64 && Shr(a, 7) == a / 128
  {
    assert Shr(a, 0) == a;
    ShrNext(a, 0);
    ShrNext(a, 1);
    ShrNext(a, 2);
    ShrNext(a, 3);
    ShrNext(a, 4);
    ShrNext(a, 5);
    ShrNext(a, 6);
  }

  lemma {:induction false} LowIsRest(a: nat, n: nat)
    ensures Low(a, n) == a - Shl(Shr(a, n), n)
    decreases n
  {
    if n > 0 { LowIsRest(a / 2, n - 1); }
  }
}
