/** struct bitmap: a word array with the index of its top word, edited in place. */
module BitmapObject {
  import opened Ints
  import opened Bits
  import opened BitmapSpec

  /** w is word shifted left by k within 32 bits, and no bit was lost. */
  ghost predicate Shifted(w: nat, word: u32, k: nat) {
    && (forall j: nat :: j < 32 ==> Bit(w, j) == (j >= k && Bit(word, j - k)))
    && (forall j: nat :: 32 - k <= j < 32 ==> !Bit(word, j))
  }

  lemma {:induction false} ShiftBit(w: nat, j: nat)
    requires j < 32
    ensures Bit(Low(Shl(w, 1), 32), j) == (j >= 1 && Bit(w, j - 1))
  {
    BitLow(Shl(w, 1), 32, j);
    BitShl(w, 1, j);
  }

  lemma {:induction false} ShiftOn(w: nat, word: u32, k: nat)
    requires k < 32 && word != 0 && Shifted(w, word, k) && !Bit(w, 31)
    ensures k < 31 && Shifted(Low(Shl(w, 1), 32), word, k + 1)
  {
    assert Bit(w, 31) == Bit(word, 31 - k);
    if k == 31 { ZeroWord(word); }
    forall j: nat | j < 32 ensures Bit(Low(Shl(w, 1), 32), j) == (j >= k + 1 && Bit(word, j - (k + 1))) {
      ShiftBit(w, j);
    }
  }

  lemma {:induction false} TopBit(w: nat)
    ensures And(w, Shl(1, 31)) == 0 <==> !Bit(w, 31)
  {
    AndOne(w, 31);
    BitOne(31, 31);
    BitZero(31);
  }

  /** The loop of bitmap_nbits that finds the highest bit of the top word. */
  method LeadingZeros(word: u32) returns (k: nat)
    requires word != 0
    ensures k < 32 && Bit(word, 31 - k)
    ensures forall j: nat :: 32 - k <= j < 32 ==> !Bit(word, j)
  {
    var w: nat := word;
    k := 0;
    while And(w, Shl(1, 31)) == 0
      invariant k < 32 && Shifted(w, word, k)
      decreases 32 - k
    {
      TopBit(w);
      ShiftOn(w, word, k);
      w := Low(Shl(w, 1), 32);
      k := k + 1;
    }
    TopBit(w);
  }

  class Bitmap {
    var d: array<u32>
    var top: nat

    ghost predicate Valid()
      reads this, d
    {
      && top < d.Length <= BITMAP_MAX / 32 + 1
      && (forall i :: top < i < d.Length ==> d[i] == 0)
      && forall n :: n in View() ==> n <= BITMAP_MAX
    }

    ghost function View(): set<nat>
      reads this, d
    {
      SetOf(d[..])
    }

    constructor ()
      ensures Valid() && View() == {} && fresh(d)
    {
      d := new u32[1](_ => 0);
      top := 0;
      new;
      forall n: nat ensures !In(d[..], n) { BitZero(n % 32); }
    }

    /** bitmap_zero. */
    method Zero()
      requires Valid()
      modifies this`top, d
      ensures Valid() && View() == {} && d == old(d) && top == 0
      ensures forall i :: 0 <= i < d.Length ==> d[i] == 0
    {
      for i := 0 to d.Length
        invariant forall j :: 0 <= j < i ==> d[j] == 0
      {
        d[i] := 0;
      }
      top := 0;
      forall n: nat ensures !In(d[..], n) { BitZero(n % 32); }
    }

    method TestBit(n: nat) returns (r: bool)
      requires Valid()
      ensures r <==> n in View()
    {
      if n / 32 > top {
        BitZero(n % 32);
        return false;
      }
      BitShr(d[n / 32], n % 32, 0);
      r := Shr(d[n / 32], n % 32) % 2 == 1;
    }

    method Reserve(n: nat) returns (ok: bool)
      requires Valid()
      modifies this`d
      ensures Valid() && View() == old(View()) && top == old(top)
      ensures ok <==> n <= BITMAP_MAX
      ensures ok ==> n / 32 < d.Length
      ensures d == old(d) || fresh(d)
      ensures d.Length >= old(d.Length) && d[..old(d.Length)] == old(d[..])
    {
      if n > BITMAP_MAX { return false; }
      var nlen := n / 32 + 1;
      if d.Length < nlen {
        var tmp, from := new u32[nlen](_ => 0), d;
        for i := 0 to from.Length
          invariant d == from && forall j :: 0 <= j < i ==> tmp[j] == from[j]
          invariant forall j :: i <= j < nlen ==> tmp[j] == 0
        {
          tmp[i] := from[i];
        }
        assert tmp[..][..from.Length] == from[..];
        ZeroWords(from[..], tmp[..]);
        d := tmp;
      }
      ok := true;
    }

    method SetBit(n: nat) returns (ok: bool)
      requires Valid()
      modifies this, d
      ensures Valid() && (d == old(d) || fresh(d))
      ensures ok <==> n <= BITMAP_MAX
      ensures View() == if ok then old(View()) + {n} else old(View())
    {
      ok := Reserve(n);
      if !ok { return; }
      var offset := n / 32;
      if offset > top { top := offset; }
      ghost var ws := d[..];
      SetOne(ws, n);
      d[offset] := OrIn(d[offset], 1, 1, n % 32);
      assert d[..] == ws[offset := OrIn(ws[offset], 1, 1, n % 32)];
    }

    method Retop()
      requires Valid()
      modifies this`top
      ensures Valid() && (top > 0 ==> d[top] != 0)
    {
      ghost var ws := d[..];
      while top > 0 && d[top] == 0
        invariant top < |ws| && d[..] == ws && forall i :: top < i < |ws| ==> ws[i] == 0
        decreases top
      {
        assert ws[top] == 0;
        top := top - 1;
      }
      assert forall i :: 0 <= i < d.Length ==> d[i] == ws[i];
      assert View() == old(View());
    }

    method ClearBit(n: nat)
      requires Valid()
      modifies this`top, d
      ensures Valid() && d == old(d)
      ensures View() == old(View()) - {n}
    {
      if n > BITMAP_MAX || n / 32 > top {
        assert n !in View() by { BitZero(n % 32); }
        return;
      }
      var offset := n / 32;
      ghost var ws := d[..];
      ClearOne(ws, n);
      d[offset] := ClearIn(d[offset], n % 32);
      assert d[..] == ws[offset := ClearIn(ws[offset], n % 32)];
      Retop();
    }

    /** One more than the highest number in the set, or zero. */
    method Nbits() returns (bits: nat)
      requires Valid()
      modifies this`top
      ensures Valid() && View() == old(View()) && IsNbits(View(), bits)
      ensures (bits + 7) / 8 <= 4 * (top + 1)
    {
      Retop();
      if top == 0 && d[0] == 0 {
        assert IsNbits(View(), 0) by {
          forall n: nat ensures n !in View() { BitZero(n % 32); }
        }
        return 0;
      }
      bits := (top + 1) * 32;
      var lead := LeadingZeros(d[top]);
      bits := bits - lead;
      NbitsRight(d[..], top, lead);
    }

    method Nbytes() returns (bytes: nat)
      requires Valid()
      modifies this`top
      ensures Valid() && View() == old(View()) && bytes <= 4 * (top + 1)
      ensures exists bits: nat :: IsNbits(View(), bits) && bytes == (bits + 7) / 8
    {
      var bits := Nbits();
      bytes := (bits + 7) / 8;
    }

    /** The two loops of bitmap_to_string: bytes from the least significant backwards. */
    method PutBytes(p: array<u8>, need: nat)
      requires top < d.Length && need <= 4 * (top + 1) && need <= p.Length && p as object != d as object
      modifies p
      ensures forall q: nat :: q < need ==> p[need - 1 - q] == ByteOf(d[..], q)
      ensures p[need..] == old(p[need..])
    {
      var i, k := 0, 0;
      while i < top + 1
        invariant i <= top + 1 && k == Min(need, 4 * i)
        invariant forall q: nat :: q < k ==> p[need - 1 - q] == ByteOf(d[..], q)
        invariant forall q :: need <= q < p.Length ==> p[q] == old(p[q])
      {
        var j := 0;
        while j < 4
          invariant 0 <= j <= 4 && k == Min(need, 4 * i + j)
          invariant forall q: nat :: q < k ==> p[need - 1 - q] == ByteOf(d[..], q)
          invariant forall q :: need <= q < p.Length ==> p[q] == old(p[q])
        {
          if k >= need { break; }
          assert k / 4 == i && k % 4 == j && d[..][i] == d[i];
          p[need - 1 - k] := LowByte(d[i], j * 8);
          k := k + 1;
          j := j + 1;
        }
        i := i + 1;
      }
    }

    /** bitmap_to_string into a buffer of l bytes: the shortest big-endian form. */
    method ToString(p: array<u8>, l: nat) returns (ok: bool, need: nat)
      requires Valid() && l <= p.Length && p as object != d as object
      modifies this`top, p
      ensures Valid() && View() == old(View())
      ensures exists bits: nat :: IsNbits(View(), bits) && need == (bits + 7) / 8
      ensures ok <==> need <= l
      ensures ok ==> Encodes(p[..need], View()) && (need > 0 ==> p[0] != 0)
      ensures if ok then p[need..] == old(p[..])[need..] else p[..] == old(p[..])
    {
      need := Nbytes();
      if l < need { return false, need; }
      ghost var bits: nat :| IsNbits(View(), bits) && need == (bits + 7) / 8;
      ghost var ws := d[..];
      PutBytes(p, need);
      assert d[..] == ws;
      BytesEncode(ws, p[..need], bits);
      ok := true;
    }

    /** The loop of bitmap_from_string, on words that were cleared. */
    method ReadBytes(s: seq<u8>)
      requires 0 < |s| && (|s| - 1) / 4 < d.Length
      requires forall j :: 0 <= j < d.Length ==> d[j] == 0
      modifies d
      ensures forall j :: (|s| - 1) / 4 < j < d.Length ==> d[j] == 0
      ensures forall n: nat :: In(d[..], n) <==> InString(s, n)
    {
      var l := |s|;
      var offset, shift := (l + 3) / 4 - 1, ((l + 3) % 4) * 8;
      forall n: nat ensures !In(d[..], n) { BitZero(n % 32); }
      for i := 0 to l
        invariant forall j :: (l - 1) / 4 < j < d.Length ==> d[j] == 0
        invariant i < l ==> offset == (l - 1 - i) / 4 && shift == 8 * ((l - 1 - i) % 4)
        invariant forall n: nat :: In(d[..], n) <==> n / 8 >= l - i && InString(s, n)
      {
        ghost var ws := d[..];
        ReadByte(ws, s, i);
        d[offset] := OrIn(d[offset], s[i], 8, shift);
        assert d[..] == ws[offset := OrIn(ws[offset], s[i], 8, shift)];
        if shift == 0 {
          offset := offset - 1;
          shift := 24;
        } else {
          shift := shift - 8;
        }
      }
    }

    /** bitmap_from_string. */
    method FromString(s: seq<u8>) returns (ok: bool)
      requires Valid()
      modifies this, d
      ensures Valid() && (d == old(d) || fresh(d))
      ensures ok <==> |s| <= BITMAP_MAX / 8
      ensures if ok then Encodes(s, View()) else View() == old(View())
    {
      var l := |s|;
      if l > BITMAP_MAX / 8 { return false; }
      ok := Reserve(l * 8);
      Zero();
      if l == 0 { return; }
      top := (l + 3) / 4 - 1;
      ReadBytes(s);
      forall n: nat ensures n in View() <==> InString(s, n) {}
      forall n: nat | n in View() ensures n <= BITMAP_MAX { assert n / 8 < l; }
      Retop();
    }
  }

  /** (w >> sh) & 0xff. */
  function LowByte(w: u32, sh: nat): u8 {
    Pow2Values();
    Low(Shr(w, sh), 8)
  }

  /** One round of bitmap_from_string puts byte i of the string in its place. */
  lemma ReadByte(ws: seq<u32>, s: seq<u8>, i: nat)
    requires i < |s| && (|s| - 1 - i) / 4 < |ws|
    requires forall n: nat :: In(ws, n) <==> n / 8 >= |s| - i && InString(s, n)
    ensures Pow2(8) == 256
    ensures var q := |s| - 1 - i; var us := ws[q / 4 := OrIn(ws[q / 4], s[i], 8, 8 * (q % 4))];
            forall n: nat :: In(us, n) <==> n / 8 >= q && InString(s, n)
  {
    Pow2Values();
    var q := |s| - 1 - i;
    var sh := 8 * (q % 4);
    var us := ws[q / 4 := OrIn(ws[q / 4], s[i], 8, sh)];
    forall n: nat ensures In(us, n) <==> n / 8 >= q && InString(s, n) {
      assert n / 8 / 4 == n / 32;
      assert In(ws, n) <==> n / 8 >= q + 1 && InString(s, n);
      if n / 32 == q / 4 {
        assert In(us, n) <==> In(ws, n) || (n % 32 >= sh && Bit(s[i], n % 32 - sh));
        if n / 8 == q {
          assert n % 32 == sh + n % 8 && s[|s| - 1 - n / 8] == s[i];
        } else if n / 8 > q {
          assert n % 32 >= sh + 8;
          BitAbove(s[i], 8, n % 32 - sh);
        } else {
          assert n % 32 < sh;
        }
      }
    }
  }

  lemma NbitsRight(ws: seq<u32>, top: nat, k: nat)
    requires top < |ws| && k < 32 && Bit(ws[top], 31 - k)
    requires forall i :: top < i < |ws| ==> ws[i] == 0
    requires forall j: nat :: 32 - k <= j < 32 ==> !Bit(ws[top], j)
    ensures IsNbits(SetOf(ws), (top + 1) * 32 - k)
  {
    var bits := (top + 1) * 32 - k;
    forall n: nat | n in SetOf(ws) ensures n < bits {
      assert n / 32 > top ==> ws[n / 32] == 0 by { }
      BitZero(n % 32);
      assert n / 32 == top ==> n % 32 < 32 - k;
    }
    assert (bits - 1) / 32 == top && (bits - 1) % 32 == 31 - k;
    assert In(ws, bits - 1);
  }

  lemma NbitsUnique(m: set<nat>, x: nat, y: nat)
    requires IsNbits(m, x) && IsNbits(m, y)
    ensures x == y
  {
    assert (x > 0 ==> x - 1 in m) && (y > 0 ==> y - 1 in m);
  }

  /** The string of a bitmap, in a buffer of exactly its size. */
  method Export(b: Bitmap) returns (s: seq<u8>)
    requires b.Valid()
    modifies b`top
    ensures b.Valid() && b.View() == old(b.View())
    ensures Encodes(s, b.View()) && (s != [] ==> s[0] != 0)
    ensures |s| <= BITMAP_MAX / 8 <==> BITMAP_MAX !in b.View()
  {
    var l := b.Nbytes();
    ghost var x: nat :| IsNbits(b.View(), x) && l == (x + 7) / 8;
    var p := new u8[l](_ => 0);
    var fits, need := b.ToString(p, l);
    ghost var y: nat :| IsNbits(b.View(), y) && need == (y + 7) / 8;
    NbitsUnique(b.View(), x, y);
    ExportIsReadable(b.View(), y);
    s := p[..need];
  }

  /** bitmap_to_string followed by bitmap_from_string into another bitmap. */
  method Reimport(b: Bitmap) returns (c: Bitmap, ok: bool)
    requires b.Valid()
    modifies b`top
    ensures b.Valid() && b.View() == old(b.View()) && c.Valid()
    ensures ok <==> BITMAP_MAX !in b.View()
    ensures ok ==> c.View() == b.View()
  {
    var s := Export(b);
    c := new Bitmap();
    ok := c.FromString(s);
    if ok { ImportOfExport(s, b.View(), c.View()); }
  }

  /** The limit is a number like any other to the set, but a bitmap that holds it cannot be read
      back. */
  method LimitIsNotReadBack() returns (added: bool, ok: bool)
    ensures added && !ok
  {
    var b := new Bitmap();
    added := b.SetBit(BITMAP_MAX);
    var c;
    c, ok := Reimport(b);
  }

  /** The string of a single number: 1 << n, big-endian, for n up to the limit. */
  method WriteOne(n: nat) returns (ok: bool, s: seq<u8>)
    ensures ok <==> n <= 16777216
    ensures ok ==> s == PowerBytes(n)
  {
    var b := new Bitmap();
    s := [];
    ok := b.SetBit(n);
    if ok {
      assert b.View() == {n};
      s := Export(b);
      OneNumber(n, s);
    }
  }

  /** bitmap_from_string followed by bitmap_to_string: the same number without leading zeros. */
  method Canonicalise(s: seq<u8>) returns (ok: bool, t: seq<u8>)
    ensures ok <==> |s| <= BITMAP_MAX / 8
    ensures ok ==> t == StripZeros(s)
  {
    var b := new Bitmap();
    t := [];
    ok := b.FromString(s);
    if ok {
      t := Export(b);
      ExportOfImport(s, t, b.View());
    }
  }
}
