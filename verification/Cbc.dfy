/** Cipher block chaining over any invertible block cipher. */
module CbcSpec {
  import opened Ints
  import opened KeyStream

  type Block = s: seq<u8> | |s| == 16 witness seq(16, _ => 0)

  /** rijndael_encrypt and rijndael_decrypt under one key. */
  type Cipher = Block -> Block

  ghost predicate Inverse(d: Cipher, e: Cipher) { forall b: Block :: d(e(b)) == b }

  function XorBlock(a: Block, b: Block): (r: Block)
    ensures forall i :: 0 <= i < 16 ==> r[i] == Xor8(a[i], b[i])
  {
    seq(16, i requires 0 <= i < 16 => Xor8(a[i], b[i]))
  }

  lemma XorBlockTwice(a: Block, b: Block)
    ensures XorBlock(XorBlock(a, b), b) == a
  {
    forall i | 0 <= i < 16 ensures XorBlock(XorBlock(a, b), b)[i] == a[i] { XorTwice(a[i], b[i]); }
  }

  /** Each plaintext block is mixed with the ciphertext block before it. */
  function Encrypt(e: Cipher, iv: Block, ps: seq<Block>): (cs: seq<Block>)
    ensures |cs| == |ps|
    decreases |ps|
  {
    if ps == [] then [] else
      var c := e(XorBlock(ps[0], iv));
      [c] + Encrypt(e, c, ps[1..])
  }

  function Decrypt(d: Cipher, iv: Block, cs: seq<Block>): (ps: seq<Block>)
    ensures |ps| == |cs|
    decreases |cs|
  {
    if cs == [] then [] else [XorBlock(d(cs[0]), iv)] + Decrypt(d, cs[0], cs[1..])
  }

  /** The chaining value left for the next call. */
  function Last(iv: Block, cs: seq<Block>): Block { if cs == [] then iv else cs[|cs| - 1] }

  function Before(iv: Block, cs: seq<Block>, k: nat): Block
    requires k <= |cs|
  {
    if k == 0 then iv else cs[k - 1]
  }

  // ---- inversion ------------------------------------------------------------------------

  /** Decryption inverts encryption for any number of blocks. */
  lemma {:induction false} DecryptEncrypt(e: Cipher, d: Cipher, iv: Block, ps: seq<Block>)
    requires Inverse(d, e)
    ensures Decrypt(d, iv, Encrypt(e, iv, ps)) == ps
    decreases |ps|
  {
    if ps != [] {
      var c := e(XorBlock(ps[0], iv));
      var cs := Encrypt(e, iv, ps);
      assert cs[0] == c && cs[1..] == Encrypt(e, c, ps[1..]);
      DecryptEncrypt(e, d, c, ps[1..]);
      XorBlockTwice(ps[0], iv);
    }
  }

  /** And the other way round. */
  lemma {:induction false} EncryptDecrypt(e: Cipher, d: Cipher, iv: Block, cs: seq<Block>)
    requires Inverse(e, d)
    ensures Encrypt(e, iv, Decrypt(d, iv, cs)) == cs
    decreases |cs|
  {
    if cs != [] {
      var ps := Decrypt(d, iv, cs);
      assert ps[0] == XorBlock(d(cs[0]), iv) && ps[1..] == Decrypt(d, cs[0], cs[1..]);
      XorBlockTwice(d(cs[0]), iv);
      EncryptDecrypt(e, d, cs[0], cs[1..]);
    }
  }

  // ---- splitting ------------------------------------------------------------------------

  /** Encrypting in two calls, the second from the chaining value of the first. */
  lemma {:induction false} EncryptSplits(e: Cipher, iv: Block, a: seq<Block>, b: seq<Block>)
    ensures Encrypt(e, iv, a + b) == Encrypt(e, iv, a) + Encrypt(e, Last(iv, Encrypt(e, iv, a)), b)
    decreases |a|
  {
    if a == [] {
      assert a + b == b;
    } else {
      var c := e(XorBlock(a[0], iv));
      var ca := Encrypt(e, c, a[1..]);
      assert (a + b)[1..] == a[1..] + b;
      EncryptSplits(e, c, a[1..], b);
      assert Encrypt(e, iv, a) == [c] + ca && Last(iv, [c] + ca) == Last(c, ca);
    }
  }

  /** The chaining value after two calls is that after one. */
  lemma LastSplits(iv: Block, ca: seq<Block>, cb: seq<Block>)
    ensures Last(iv, ca + cb) == Last(Last(iv, ca), cb)
  {
    if cb == [] { assert ca + cb == ca; }
  }

  lemma {:induction false} DecryptSplits(d: Cipher, iv: Block, a: seq<Block>, b: seq<Block>)
    ensures Decrypt(d, iv, a + b) == Decrypt(d, iv, a) + Decrypt(d, Last(iv, a), b)
    decreases |a|
  {
    if a == [] {
      assert a + b == b;
    } else {
      assert (a + b)[1..] == a[1..] + b;
      DecryptSplits(d, a[0], a[1..], b);
      assert Last(iv, a) == Last(a[0], a[1..]);
    }
  }

  // ---- block by block -----------------------------------------------------------------------

  lemma {:induction false} EncryptAt(e: Cipher, iv: Block, ps: seq<Block>, k: nat)
    requires k < |ps|
    ensures var cs := Encrypt(e, iv, ps); cs[k] == e(XorBlock(ps[k], Before(iv, cs, k)))
    decreases k
  {
    if k > 0 {
      var c := e(XorBlock(ps[0], iv));
      EncryptAt(e, c, ps[1..], k - 1);
      assert Encrypt(e, iv, ps)[1..] == Encrypt(e, c, ps[1..]);
    }
  }

  lemma {:induction false} DecryptAt(d: Cipher, iv: Block, cs: seq<Block>, k: nat)
    requires k < |cs|
    ensures Decrypt(d, iv, cs)[k] == XorBlock(d(cs[k]), Before(iv, cs, k))
    decreases k
  {
    if k > 0 { DecryptAt(d, cs[0], cs[1..], k - 1); }
  }

  /** A string of whole blocks. */
  function Blocks(s: seq<u8>): (bs: seq<Block>)
    ensures |bs| == |s| / 16 && forall k :: 0 <= k < |bs| ==> bs[k] == s[16 * k..16 * k + 16]
  {
    seq(|s| / 16, k requires 0 <= k < |s| / 16 => s[16 * k..16 * k + 16])
  }
}

/** ssh_rijndael_cbc: forwards when encrypting, backwards when decrypting, and in place in
    both directions. */
module CbcObject {
  import opened Ints
  import opened KeyStream
  import opened CbcSpec

  /** Block k of a buffer from offset o on. */
  ghost function At(a: seq<u8>, o: nat, k: nat): Block
    requires o + 16 * k + 16 <= |a|
  {
    a[o + 16 * k..o + 16 * k + 16]
  }

  /** Only bytes lo to hi may differ. */
  ghost predicate SameOutside(a: seq<u8>, b: seq<u8>, lo: nat, hi: nat) {
    |a| == |b| && forall i :: 0 <= i < |a| && !(lo <= i < hi) ==> a[i] == b[i]
  }

  /** Store one block. */
  method PutBlock(dest: array<u8>, o: nat, b: Block)
    requires o + 16 <= dest.Length
    modifies dest
    ensures dest[o..o + 16] == b && SameOutside(old(dest[..]), dest[..], o, o + 16)
  {
    for i := 0 to 16
      invariant forall j :: 0 <= j < i ==> dest[o + j] == b[j]
      invariant forall j :: 0 <= j < dest.Length && !(o <= j < o + i) ==> dest[j] == old(dest[j])
    {
      dest[o + i] := b[i];
    }
  }

  /** for j: buf[j] = a[j] ^ b[j]. */
  method XorInto(a: Block, b: Block) returns (buf: Block)
    ensures buf == XorBlock(a, b)
  {
    buf := a;
    for j := 0 to 16
      invariant forall i :: 0 <= i < j ==> buf[i] == Xor8(a[i], b[i])
      invariant forall i :: j <= i < 16 ==> buf[i] == a[i]
    {
      buf := buf[j := Xor8(buf[j], b[j])];
    }
  }

  lemma AtKept(a: seq<u8>, b: seq<u8>, o: nat, k: nat, lo: nat, hi: nat)
    requires o + 16 * k + 16 <= |a| && SameOutside(a, b, lo, hi)
    requires o + 16 * k + 16 <= lo || hi <= o + 16 * k
    ensures At(a, o, k) == At(b, o, k)
  {
  }

  /** Blocks lo to hi - 1 of a buffer are those of bs. */
  ghost predicate Holds(a: seq<u8>, o: nat, bs: seq<Block>, lo: nat, hi: nat)
    requires hi <= |bs| && o + 16 * |bs| <= |a|
  {
    forall k: nat :: lo <= k < hi ==> At(a, o, k) == bs[k]
  }

  /** Writing block i leaves the others. */
  lemma HoldsKept(a: seq<u8>, b: seq<u8>, o: nat, bs: seq<Block>, lo: nat, hi: nat, i: nat)
    requires hi <= |bs| && o + 16 * |bs| <= |a| && (hi <= i || i < lo)
    requires SameOutside(a, b, o + 16 * i, o + 16 * i + 16) && Holds(a, o, bs, lo, hi)
    ensures Holds(b, o, bs, lo, hi)
  {
    forall k: nat | lo <= k < hi ensures At(b, o, k) == bs[k] {
      AtKept(a, b, o, k, o + 16 * i, o + 16 * i + 16);
    }
  }

  lemma HoldsStart(a: seq<u8>, o: nat, n: nat)
    requires o + 16 * n <= |a|
    ensures Holds(a, o, Blocks(a[o..o + 16 * n]), 0, n)
  {
    var s := a[o..o + 16 * n];
    forall k: nat | k < n ensures At(a, o, k) == Blocks(s)[k] { SliceOfSlice(a, o, 16 * n, 16 * k); }
  }

  lemma HoldsEnd(a: seq<u8>, o: nat, bs: seq<Block>)
    requires o + 16 * |bs| <= |a| && Holds(a, o, bs, 0, |bs|)
    ensures Blocks(a[o..o + 16 * |bs|]) == bs
  {
    var s := a[o..o + 16 * |bs|];
    forall k: nat | k < |bs| ensures Blocks(s)[k] == bs[k] {
      SliceOfSlice(a, o, 16 * |bs|, 16 * k);
      assert At(a, o, k) == bs[k];
    }
  }

  lemma SliceOfSlice(a: seq<u8>, o: nat, n: nat, i: nat)
    requires o + n <= |a| && i + 16 <= n
    ensures a[o..o + n][i..i + 16] == a[o + i..o + i + 16]
  {
    var l, r := a[o..o + n][i..i + 16], a[o + i..o + i + 16];
    assert |l| == |r| == 16 && forall j :: 0 <= j < 16 ==> l[j] == a[o + i + j] == r[j];
  }

  class CbcCtx {
    const encipher: Cipher
    const decipher: Cipher
    var iv: Block

    constructor (e: Cipher, d: Cipher, iv: Block)
      ensures encipher == e && decipher == d && this.iv == iv
    {
      encipher, decipher, this.iv := e, d, iv;
    }

    /** One round of the encryption loop. */
    method EncryptOne(dest: array<u8>, to: nat, src: array<u8>, so: nat, i: nat, cprev: Block, ghost ps: seq<Block>,
                      ghost cs: seq<Block>)
      returns (c: Block)
      requires i < |ps| && cs == Encrypt(encipher, iv, ps) && cprev == Before(iv, cs, i)
      requires so + 16 * |ps| <= src.Length && to + 16 * |ps| <= dest.Length && (src == dest ==> so == to)
      requires Holds(dest[..], to, cs, 0, i) && Holds(src[..], so, ps, i, |ps|)
      modifies dest
      ensures c == cs[i]
      ensures Holds(dest[..], to, cs, 0, i + 1) && Holds(src[..], so, ps, i + 1, |ps|)
      ensures SameOutside(old(dest[..]), dest[..], to + 16 * i, to + 16 * i + 16)
    {
      ghost var before := dest[..];
      assert src[so + 16 * i..so + 16 * i + 16] == At(src[..], so, i) == ps[i];
      var buf := XorInto(src[so + 16 * i..so + 16 * i + 16], cprev);
      c := encipher(buf);
      EncryptAt(encipher, iv, ps, i);
      PutBlock(dest, to + 16 * i, c);
      assert At(dest[..], to, i) == c;
      HoldsKept(before, dest[..], to, cs, 0, i, i);
      if src == dest { HoldsKept(before, dest[..], so, ps, i + 1, |ps|, i); }
    }

    /** The encryption loop, front to back. */
    method EncryptLoop(dest: array<u8>, to: nat, src: array<u8>, so: nat, blocks: nat, ghost ps: seq<Block>,
                       ghost cs: seq<Block>)
      returns (cprev: Block)
      requires blocks == |ps| && cs == Encrypt(encipher, iv, ps)
      requires so + 16 * blocks <= src.Length && to + 16 * blocks <= dest.Length && (src == dest ==> so == to)
      requires Holds(src[..], so, ps, 0, blocks)
      modifies dest
      ensures cprev == Before(iv, cs, blocks) && Holds(dest[..], to, cs, 0, blocks)
      ensures SameOutside(old(dest[..]), dest[..], to, to + 16 * blocks)
    {
      cprev := iv;
      for i := 0 to blocks
        invariant cprev == Before(iv, cs, i)
        invariant Holds(dest[..], to, cs, 0, i) && Holds(src[..], so, ps, i, blocks)
        invariant SameOutside(old(dest[..]), dest[..], to, to + 16 * i)
      {
        cprev := EncryptOne(dest, to, src, so, i, cprev, ps, cs);
      }
    }

    /** ssh_rijndael_cbc when it encrypts whole blocks. */
    method EncryptBlocks(dest: array<u8>, to: nat, src: array<u8>, so: nat, blocks: nat)
      requires so + 16 * blocks <= src.Length && to + 16 * blocks <= dest.Length && (src == dest ==> so == to)
      modifies this`iv, dest
      ensures var cs := Encrypt(encipher, old(iv), Blocks(old(src[so..so + 16 * blocks])));
              Blocks(dest[to..to + 16 * blocks]) == cs && iv == Last(old(iv), cs)
      ensures SameOutside(old(dest[..]), dest[..], to, to + 16 * blocks)
    {
      ghost var ps := Blocks(src[so..so + 16 * blocks]);
      ghost var cs := Encrypt(encipher, iv, ps);
      HoldsStart(src[..], so, blocks);
      assert src[..][so..so + 16 * blocks] == src[so..so + 16 * blocks];
      var cprev := EncryptLoop(dest, to, src, so, blocks, ps, cs);
      HoldsEnd(dest[..], to, cs);
      assert dest[..][to..to + 16 * blocks] == dest[to..to + 16 * blocks];
      iv := cprev;
    }

    /** One round of the decryption loop: block i, from the ciphertext before it. */
    method DecryptOne(dest: array<u8>, to: nat, src: array<u8>, so: nat, i: nat, ghost cs: seq<Block>,
                      ghost ps: seq<Block>)
      requires i < |cs| && ps == Decrypt(decipher, iv, cs)
      requires so + 16 * |cs| <= src.Length && to + 16 * |cs| <= dest.Length && (src == dest ==> so == to)
      requires Holds(src[..], so, cs, 0, i + 1) && Holds(dest[..], to, ps, i + 1, |cs|)
      modifies dest
      ensures Holds(src[..], so, cs, 0, i) && Holds(dest[..], to, ps, i, |cs|)
      ensures SameOutside(old(dest[..]), dest[..], to + 16 * i, to + 16 * i + 16)
    {
      ghost var before := dest[..];
      assert src[so + 16 * i..so + 16 * i + 16] == At(src[..], so, i) == cs[i];
      var plain := decipher(src[so + 16 * i..so + 16 * i + 16]);
      var ivp := iv;
      if i > 0 {
        ivp := src[so + 16 * (i - 1)..so + 16 * i];
        assert ivp == At(src[..], so, i - 1) == cs[i - 1];
      }
      plain := XorInto(plain, ivp);
      DecryptAt(decipher, iv, cs, i);
      PutBlock(dest, to + 16 * i, plain);
      assert At(dest[..], to, i) == plain;
      HoldsKept(before, dest[..], to, ps, i + 1, |cs|, i);
      if src == dest { HoldsKept(before, dest[..], so, cs, 0, i, i); }
    }

    /** The decryption loop, back to front. */
    method DecryptLoop(dest: array<u8>, to: nat, src: array<u8>, so: nat, blocks: nat, ghost cs: seq<Block>,
                       ghost ps: seq<Block>)
      requires blocks == |cs| && ps == Decrypt(decipher, iv, cs)
      requires so + 16 * blocks <= src.Length && to + 16 * blocks <= dest.Length && (src == dest ==> so == to)
      requires Holds(src[..], so, cs, 0, blocks)
      modifies dest
      ensures Holds(dest[..], to, ps, 0, blocks)
      ensures SameOutside(old(dest[..]), dest[..], to, to + 16 * blocks)
    {
      var i := blocks;
      while i > 0
        invariant 0 <= i <= blocks
        invariant Holds(src[..], so, cs, 0, i) && Holds(dest[..], to, ps, i, blocks)
        invariant SameOutside(old(dest[..]), dest[..], to + 16 * i, to + 16 * blocks)
      {
        DecryptOne(dest, to, src, so, i - 1, cs, ps);
        i := i - 1;
      }
    }

    /** ssh_rijndael_cbc when it decrypts whole blocks. */
    method DecryptBlocks(dest: array<u8>, to: nat, src: array<u8>, so: nat, blocks: nat)
      requires blocks > 0
      requires so + 16 * blocks <= src.Length && to + 16 * blocks <= dest.Length && (src == dest ==> so == to)
      modifies this`iv, dest
      ensures var cs := Blocks(old(src[so..so + 16 * blocks]));
              Blocks(dest[to..to + 16 * blocks]) == Decrypt(decipher, old(iv), cs) && iv == Last(old(iv), cs)
      ensures SameOutside(old(dest[..]), dest[..], to, to + 16 * blocks)
    {
      ghost var cs := Blocks(src[so..so + 16 * blocks]);
      ghost var ps := Decrypt(decipher, iv, cs);
      HoldsStart(src[..], so, blocks);
      assert src[..][so..so + 16 * blocks] == src[so..so + 16 * blocks];
      var buf := src[so + 16 * (blocks - 1)..so + 16 * blocks];
      assert buf == At(src[..], so, blocks - 1) == cs[blocks - 1];
      DecryptLoop(dest, to, src, so, blocks, cs, ps);
      HoldsEnd(dest[..], to, ps);
      assert dest[..][to..to + 16 * blocks] == dest[to..to + 16 * blocks];
      iv := buf;
    }

    /** ssh_rijndael_cbc; the false result is the source's fatal() on a partial block. */
    method Cbc(dest: array<u8>, to: nat, src: array<u8>, so: nat, len: nat, encrypt: bool) returns (ok: bool)
      requires so + len <= src.Length && to + len <= dest.Length && (src == dest ==> so == to)
      modifies this`iv, dest
      ensures ok <==> len % 16 == 0
      ensures !ok ==> iv == old(iv) && dest[..] == old(dest[..])
      ensures ok ==>
                var s, t := Blocks(old(src[so..so + len])), Blocks(dest[to..to + len]);
                && t == (if encrypt then Encrypt(encipher, old(iv), s) else Decrypt(decipher, old(iv), s))
                && iv == Last(old(iv), if encrypt then t else s)
      ensures SameOutside(old(dest[..]), dest[..], to, to + len)
    {
      if len == 0 {
        assert src[so..so + len] == [] && dest[to..to + len] == [];
        return true;
      }
      if len % 16 != 0 { return false; }
      var blocks := len / 16;
      assert 16 * blocks == len;
      if encrypt {
        EncryptBlocks(dest, to, src, so, blocks);
      } else {
        DecryptBlocks(dest, to, src, so, blocks);
      }
      ok := true;
    }
  }

  lemma BlocksAppend(a: seq<u8>, b: seq<u8>)
    requires |a| % 16 == 0
    ensures Blocks(a + b) == Blocks(a) + Blocks(b)
  {
    var n := |a| / 16;
    assert |a| == 16 * n;
    forall k: nat | k < |Blocks(a + b)| ensures Blocks(a + b)[k] == (Blocks(a) + Blocks(b))[k] {
      if k < n {
        assert (a + b)[16 * k..16 * k + 16] == a[16 * k..16 * k + 16];
      } else {
        var m := k - n;
        assert 16 * k == |a| + 16 * m;
        assert (a + b)[|a| + 16 * m..|a| + 16 * m + 16] == b[16 * m..16 * m + 16];
      }
    }
  }

  lemma BlocksInjective(a: seq<u8>, b: seq<u8>)
    requires |a| == |b| && |a| % 16 == 0 && Blocks(a) == Blocks(b)
    ensures a == b
  {
    forall i: nat | i < |a| ensures a[i] == b[i] {
      var k := i / 16;
      assert a[i] == Blocks(a)[k][i % 16] && b[i] == Blocks(b)[k][i % 16];
    }
  }

  function CryptBlocks(ctx: CbcCtx, encrypt: bool, iv: Block, s: seq<Block>): seq<Block> {
    if encrypt then Encrypt(ctx.encipher, iv, s) else Decrypt(ctx.decipher, iv, s)
  }

  /** Two calls, the second from where the first left off, are one. */
  lemma TwoCalls(ctx: CbcCtx, encrypt: bool, iv: Block, a: seq<Block>, b: seq<Block>)
    ensures var ca := CryptBlocks(ctx, encrypt, iv, a); var mid := Last(iv, if encrypt then ca else a);
            && CryptBlocks(ctx, encrypt, iv, a + b) == ca + CryptBlocks(ctx, encrypt, mid, b)
            && Last(iv, if encrypt then ca + CryptBlocks(ctx, encrypt, mid, b) else a + b)
               == Last(mid, if encrypt then CryptBlocks(ctx, encrypt, mid, b) else b)
  {
    var ca := CryptBlocks(ctx, encrypt, iv, a);
    if encrypt {
      EncryptSplits(ctx.encipher, iv, a, b);
      LastSplits(iv, ca, CryptBlocks(ctx, encrypt, Last(iv, ca), b));
    } else {
      DecryptSplits(ctx.decipher, iv, a, b);
      LastSplits(iv, a, b);
    }
  }

  /** What a call did to s, from iv to iv'. */
  ghost predicate Did(ctx: CbcCtx, encrypt: bool, iv: Block, s: seq<u8>, iv': Block, t: seq<u8>) {
    && Blocks(t) == CryptBlocks(ctx, encrypt, iv, Blocks(s))
    && iv' == Last(iv, if encrypt then Blocks(t) else Blocks(s))
  }

  lemma DidBoth(ctx: CbcCtx, encrypt: bool, iv: Block, mid: Block, iv': Block, s: seq<u8>, s': seq<u8>,
                t: seq<u8>, t': seq<u8>)
    requires Did(ctx, encrypt, iv, s, mid, t) && Did(ctx, encrypt, mid, s', iv', t') && |s| % 16 == |t| % 16 == 0
    ensures Did(ctx, encrypt, iv, s + s', iv', t + t')
  {
    BlocksAppend(s, s');
    BlocksAppend(t, t');
    TwoCalls(ctx, encrypt, iv, Blocks(s), Blocks(s'));
  }

  /** The first call leaves the rest of the buffer, and the second what the first has done. */
  lemma Halves(x: seq<u8>, y: seq<u8>, z: seq<u8>, cut: nat)
    requires cut <= |x| && SameOutside(x, y, 0, cut) && SameOutside(y, z, cut, |x|)
    ensures |x| == |y| == |z| && y[cut..] == x[cut..] && z[..cut] == y[..cut]
    ensures x == x[..cut] + x[cut..] && z == z[..cut] + z[cut..]
  {
  }

  /** One call on part of a buffer, in place. */
  method CbcPart(ctx: CbcCtx, buf: array<u8>, lo: nat, hi: nat, encrypt: bool)
    requires lo <= hi <= buf.Length && (hi - lo) % 16 == 0
    modifies ctx`iv, buf
    ensures SameOutside(old(buf[..]), buf[..], lo, hi)
    ensures Did(ctx, encrypt, old(ctx.iv), old(buf[..])[lo..hi], ctx.iv, buf[..][lo..hi])
  {
    assert buf[..][lo..hi] == buf[lo..lo + (hi - lo)];
    var ok := ctx.Cbc(buf, lo, buf, lo, hi - lo, encrypt);
    assert buf[..][lo..hi] == buf[lo..lo + (hi - lo)];
  }

  /** A buffer treated in two calls. */
  method CbcTwice(ctx: CbcCtx, buf: array<u8>, cut: nat, encrypt: bool)
    requires buf.Length % 16 == 0 && cut % 16 == 0 && cut <= buf.Length
    modifies ctx`iv, buf
    ensures Did(ctx, encrypt, old(ctx.iv), old(buf[..]), ctx.iv, buf[..])
  {
    ghost var x, iv := buf[..], ctx.iv;
    CbcPart(ctx, buf, 0, cut, encrypt);
    ghost var y, mid := buf[..], ctx.iv;
    CbcPart(ctx, buf, cut, buf.Length, encrypt);
    ghost var z := buf[..];
    DidHalves(ctx, encrypt, iv, mid, ctx.iv, x, y, z, cut);
  }

  lemma DidHalves(ctx: CbcCtx, encrypt: bool, iv: Block, mid: Block, iv': Block, x: seq<u8>, y: seq<u8>,
                  z: seq<u8>, cut: nat)
    requires cut <= |x| && cut % 16 == 0 && SameOutside(x, y, 0, cut) && SameOutside(y, z, cut, |x|)
    requires Did(ctx, encrypt, iv, x[0..cut], mid, y[0..cut]) && Did(ctx, encrypt, mid, y[cut..|x|], iv', z[cut..|x|])
    ensures Did(ctx, encrypt, iv, x, iv', z)
  {
    Halves(x, y, z, cut);
    assert x[0..cut] == x[..cut] && y[0..cut] == y[..cut] && y[cut..|x|] == y[cut..] && z[cut..|x|] == z[cut..];
    DidBoth(ctx, encrypt, iv, mid, iv', x[..cut], x[cut..], z[..cut], z[cut..]);
  }

  /** One end encrypts a message in two calls, the other decrypts it in two calls of other sizes,
      both from the same initial block: the message arrives. */
  method Recover(e: Cipher, d: Cipher, iv: Block, msg: seq<u8>, cut: nat, cut': nat)
    returns (cipher: seq<u8>, plain: seq<u8>)
    requires Inverse(d, e) && |msg| % 16 == 0
    requires cut % 16 == 0 && cut <= |msg| && cut' % 16 == 0 && cut' <= |msg|
    ensures Blocks(cipher) == Encrypt(e, iv, Blocks(msg)) && plain == msg
  {
    var buf := new u8[|msg|](i requires 0 <= i < |msg| => msg[i]);
    assert buf[..] == msg;
    var ctx := new CbcCtx(e, d, iv);
    CbcTwice(ctx, buf, cut, true);
    cipher := buf[..];
    var peer := new CbcCtx(e, d, iv);
    CbcTwice(peer, buf, cut', false);
    plain := buf[..];
    DecryptEncrypt(e, d, iv, Blocks(msg));
    BlocksInjective(plain, msg);
  }
}
