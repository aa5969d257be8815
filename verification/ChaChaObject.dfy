/** struct chacha_ctx and the code that encrypts with it, in place if asked to. */
module ChaChaObject {
  import opened Ints
  import opened KeyStream
  import opened ChaChaSpec
  import opened ChaChaRounds
  import opened ChaChaKnown

  /** The words each of the eight lines of the loop body names. */
  const LINES: seq<Quartet> :=
    [Quartet(0, 4, 8, 12), Quartet(1, 5, 9, 13), Quartet(2, 6, 10, 14), Quartet(3, 7, 11, 15),
     Quartet(0, 5, 10, 15), Quartet(1, 6, 11, 12), Quartet(2, 7, 8, 13), Quartet(3, 4, 9, 14)]

  lemma LinesAreDoubleRound()
    ensures LINES == DoubleRound()
  {
  }

  method NextLine(ghost mix: Mixer, ghost y: State, n: nat, x0: State) returns (x: State)
    requires Real(mix) && n < 8 && x0 == Quarters(mix, y, DoubleRound(), n)
    ensures x == Quarters(mix, y, DoubleRound(), n + 1)
  {
    LinesAreDoubleRound();
    var q := LINES[n];
    x := QuarterLines(mix, x0, q.a, q.b, q.c, q.d);
  }

  /** The body of the round loop: columns, then diagonals. */
  method RunDoubleRound(ghost mix: Mixer, y: State) returns (x: State)
    requires Real(mix)
    ensures x == Quarters(mix, y, DoubleRound(), 8)
  {
    x := y;
    for n := 0 to 8
      invariant x == Quarters(mix, y, DoubleRound(), n)
    {
      x := NextLine(mix, y, n, x);
    }
  }

  method NextRound(ghost mix: Mixer, ghost j: State, ghost n: nat, x0: State) returns (x: State)
    requires Real(mix) && x0 == Rounds(mix, j, n)
    ensures x == Rounds(mix, j, n + 1)
  {
    x := RunDoubleRound(mix, x0);
  }

  /** The round loop. */
  method TwentyRounds(ghost mix: Mixer, j: State) returns (x: State)
    requires Real(mix)
    ensures x == Rounds(mix, j, 10)
  {
    x := j;
    var i := 20;
    ghost var r := 0;
    while i > 0
      invariant 0 <= r <= 10 && i == 20 - 2 * r && x == Rounds(mix, j, r)
      decreases i
    {
      x := NextRound(mix, j, r, x);
      i := i - 2;
      r := r + 1;
    }
  }

  /** The rounds and the final addition. */
  method ComputeBlock(ghost mix: Mixer, j: State) returns (x: State)
    requires Real(mix)
    ensures x == Block(mix, j)
  {
    x := TwentyRounds(mix, j);
    var r := x;
    for k := 0 to 16
      invariant forall n :: 0 <= n < k ==> x[n] == Add32(r[n], j[n])
      invariant forall n :: k <= n < 16 ==> x[n] == r[n]
    {
      x := x[k := Add32(x[k], j[k])];
    }
  }

  /** XOR the sixteen words with the message, four bytes at a time. */
  method XorWords(b: State, m: array<u8>, mo: nat) returns (x: State)
    requires mo + 64 <= m.Length
    ensures Xored(b, m[mo..mo + 64], x)
  {
    x := b;
    ghost var s := m[mo..mo + 64];
    for k := 0 to 16
      invariant forall n: nat :: n < k ==> x[n] == Xor32(b[n], Le32(Quarter(s, n)))
      invariant forall n: nat :: k <= n < 16 ==> x[n] == b[n]
    {
      QuarterSlice(m[..], mo, k);
      assert m[mo + 4 * k..mo + 4 * k + 4] == m[..][mo + 4 * k..mo + 4 * k + 4] && m[..][mo..mo + 64] == s;
      x := x[k := Xor32(x[k], Le32(m[mo + 4 * k..mo + 4 * k + 4]))];
    }
  }

  function Quarter(s: seq<u8>, n: nat): seq<u8>
    requires |s| == 64 && n < 16
  {
    s[4 * n..4 * n + 4]
  }

  lemma QuarterSlice(a: seq<u8>, mo: nat, k: nat)
    requires mo + 64 <= |a| && k < 16
    ensures a[mo + 4 * k..mo + 4 * k + 4] == Quarter(a[mo..mo + 64], k)
  {
    var s := a[mo..mo + 64];
    var i := 4 * k;
    assert s[i] == a[mo + i] && s[i + 1] == a[mo + i + 1] && s[i + 2] == a[mo + i + 2] && s[i + 3] == a[mo + i + 3];
    assert s[i..i + 4] == [s[i], s[i + 1], s[i + 2], s[i + 3]];
    assert a[mo + i..mo + i + 4] == [a[mo + i], a[mo + i + 1], a[mo + i + 2], a[mo + i + 3]];
  }

  ghost predicate Xored(b: State, s: seq<u8>, x: State)
    requires |s| == 64
  {
    forall n: nat :: n < 16 ==> x[n] == Xor32(b[n], Le32(Quarter(s, n)))
  }

  lemma XoredByte(b: State, s: seq<u8>, x: State, i: nat)
    requires |s| == 64 && i < 64 && Xored(b, s, x)
    ensures Byte(x[i / 4], i % 4) == Xor8(s[i], Byte(b[i / 4], i % 4))
  {
    var n := i / 4;
    XorBytes(b[n], Quarter(s, n), i % 4);
    assert Quarter(s, n)[i % 4] == s[i];
  }

  /** One whole block: XOR the words with the message, then store the bytes.  Source and
      destination may be the same place. */
  method EncryptBlock(ghost mix: Mixer, j: State, m: array<u8>, mo: nat, c: array<u8>, co: nat)
    requires Real(mix)
    requires mo + 64 <= m.Length && co + 64 <= c.Length && (m == c ==> mo == co)
    modifies c
    ensures forall i :: 0 <= i < 64 ==> c[co + i] == Xor8(old(m[mo + i]), BlockBytes(mix, j)[i])
    ensures forall i :: 0 <= i < c.Length && !(co <= i < co + 64) ==> c[i] == old(c[i])
  {
    var b := ComputeBlock(mix, j);
    ghost var s := m[mo..mo + 64];
    var x := XorWords(b, m, mo);
    StoreBytes(x, c, co);
    forall i: nat | i < 64 ensures c[co + i] == Xor8(s[i], BlockBytes(mix, j)[i]) { XoredByte(b, s, x, i); }
  }

  /** U32TO8_LITTLE for the sixteen words. */
  method StoreBytes(x: State, c: array<u8>, co: nat)
    requires co + 64 <= c.Length
    modifies c
    ensures forall i :: 0 <= i < 64 ==> c[co + i] == Byte(x[i / 4], i % 4)
    ensures forall i :: 0 <= i < c.Length && !(co <= i < co + 64) ==> c[i] == old(c[i])
  {
    for k := 0 to 16
      invariant forall i :: 0 <= i < 4 * k ==> c[co + i] == Byte(x[i / 4], i % 4)
      invariant forall i :: 0 <= i < c.Length && !(co <= i < co + 4 * k) ==> c[i] == old(c[i])
    {
      c[co + 4 * k] := Byte(x[k], 0);
      c[co + 4 * k + 1] := Byte(x[k], 1);
      c[co + 4 * k + 2] := Byte(x[k], 2);
      c[co + 4 * k + 3] := Byte(x[k], 3);
    }
  }

  /** PLUSONE on word 12, with the carry into word 13. */
  method Increment(ghost x0: State, j: State, ghost n: nat) returns (r: State)
    requires j == WithCounter(x0, Counter(x0) + n)
    ensures r == WithCounter(x0, Counter(x0) + n + 1)
  {
    r := j[12 := Add32(j[12], 1)];
    if r[12] == 0 {
      r := r[13 := Add32(r[13], 1)];
    }
    Carry(Counter(x0) + n);
  }

  lemma Carry(c: nat)
    ensures Lo(c + 1) == Add32(Lo(c), 1)
    ensures Hi(c + 1) == if Lo(c + 1) == 0 then Add32(Hi(c), 1) else Hi(c)
  {
    var q := c / 0x1_0000_0000;
    if Lo(c) == 0xffff_ffff {
      assert c + 1 == 0x1_0000_0000 * (q + 1);
      var r := q / 0x1_0000_0000;
      assert q == 0x1_0000_0000 * r + Hi(c);
    }
  }

  /** Byte i of the block after `done` bytes is that byte of the key stream. */
  lemma BlockIsStream(mix: Mixer, x0: State, k: nat, i: nat)
    requires i < 64
    ensures Stream(Cipher(mix), x0, 64 * k + i) == BlockBytes(mix, WithCounter(x0, Counter(x0) + k))[i]
  {
    assert (64 * k + i) / 64 == k && (64 * k + i) % 64 == i;
  }

  /** Copies the message into a temporary block. */
  method CopyIn(m: array<u8>, mo: nat, left: nat) returns (tmp: array<u8>)
    requires left < 64 && mo + left <= m.Length
    ensures fresh(tmp) && tmp.Length == 64 && forall i :: 0 <= i < left ==> tmp[i] == m[mo + i]
  {
    tmp := new u8[64];
    for i := 0 to left
      invariant forall n :: 0 <= n < i ==> tmp[n] == m[mo + n]
    {
      tmp[i] := m[mo + i];
    }
  }

  /** Copies the ciphertext out of it. */
  method CopyOut(tmp: array<u8>, c: array<u8>, co: nat, left: nat)
    requires tmp != c && left < 64 == tmp.Length && co + left <= c.Length
    modifies c
    ensures forall i :: 0 <= i < left ==> c[co + i] == tmp[i]
    ensures forall i :: 0 <= i < c.Length && !(co <= i < co + left) ==> c[i] == old(c[i])
  {
    for i := 0 to left
      invariant forall n :: 0 <= n < i ==> c[co + n] == tmp[n]
      invariant forall n :: 0 <= n < c.Length && !(co <= n < co + i) ==> c[n] == old(c[n])
    {
      c[co + i] := tmp[i];
    }
  }

  /** The last, partial block goes through a temporary buffer. */
  method EncryptTail(ghost mix: Mixer, j: State, m: array<u8>, mo: nat, c: array<u8>, co: nat, left: nat)
    requires Real(mix)
    requires left < 64 && mo + left <= m.Length && co + left <= c.Length && (m == c ==> mo == co)
    modifies c
    ensures forall i :: 0 <= i < left ==> c[co + i] == Xor8(old(m[mo + i]), BlockBytes(mix, j)[i])
    ensures forall i :: 0 <= i < c.Length && !(co <= i < co + left) ==> c[i] == old(c[i])
  {
    var tmp := CopyIn(m, mo, left);
    EncryptBlock(mix, j, tmp, 0, tmp, 0);
    CopyOut(tmp, c, co, left);
  }

  /** A message of at most a block, encrypted with one. */
  function Mask(s: seq<u8>, key: Bytes64): (r: seq<u8>)
    requires |s| <= 64
    ensures |r| == |s|
  {
    seq(|s|, i requires 0 <= i < |s| => Xor8(s[i], key[i]))
  }

  lemma MaskAt(s: seq<u8>, key: Bytes64, n: nat, k: nat, i: nat)
    requires n + k <= |s| && k <= 64 && i < k
    ensures Mask(s[n..n + k], key)[i] == Xor8(s[n + i], key[i])
  {
  }

  lemma CryptAt(f: BlockFn, x: State, s: seq<u8>, n: nat, k: nat, i: nat)
    requires n + k <= |s| && i < k
    ensures Crypt(f, x, s)[n..n + k][i] == Xor8(s[n + i], Stream(f, x, n + i))
  {
  }

  /** Block number `blk` of a ciphertext is that block of the message, masked. */
  lemma BlockOfCrypt(mix: Mixer, x0: State, from: seq<u8>, blk: nat, k: nat)
    requires k <= 64 && 64 * blk + k <= |from|
    ensures Mask(from[64 * blk..64 * blk + k], BlockBytes(mix, WithCounter(x0, Counter(x0) + blk)))
            == Crypt(Cipher(mix), x0, from)[64 * blk..64 * blk + k]
  {
    BlockKeys(mix, x0, blk, 64 * blk, k);
    PartOfCrypt(Cipher(mix), x0, from, 64 * blk, k, BlockBytes(mix, WithCounter(x0, Counter(x0) + blk)));
  }

  predicate KeyByte(f: BlockFn, x: State, n: nat, key: Bytes64, i: nat)
    requires i < 64
  {
    Stream(f, x, n + i) == key[i]
  }

  /** The key stream from position n on starts with the first k bytes of `key`. */
  predicate Keys(f: BlockFn, x: State, n: nat, key: Bytes64, k: nat)
    requires k <= 64
  {
    forall i: nat :: i < k ==> KeyByte(f, x, n, key, i)
  }

  lemma BlockKeys(mix: Mixer, x0: State, blk: nat, n: nat, k: nat)
    requires k <= 64 && n == 64 * blk
    ensures Keys(Cipher(mix), x0, n, BlockBytes(mix, WithCounter(x0, Counter(x0) + blk)), k)
  {
    var key := BlockBytes(mix, WithCounter(x0, Counter(x0) + blk));
    forall i: nat | i < k ensures KeyByte(Cipher(mix), x0, n, key, i) { BlockIsStream(mix, x0, blk, i); }
  }

  /** A stretch of the ciphertext whose key stream is the start of `key`. */
  lemma PartOfCrypt(f: BlockFn, x0: State, from: seq<u8>, n: nat, k: nat, key: Bytes64)
    requires k <= 64 && n + k <= |from| && Keys(f, x0, n, key, k)
    ensures Mask(from[n..n + k], key) == Crypt(f, x0, from)[n..n + k]
  {
    var l, r := Mask(from[n..n + k], key), Crypt(f, x0, from)[n..n + k];
    forall i: nat | i < k ensures l[i] == r[i] {
      MaskAt(from, key, n, k, i);
      CryptAt(f, x0, from, n, k, i);
      assert KeyByte(f, x0, n, key, i);
    }
    SameBytes(l, r, k);
  }

  lemma SameBytes(l: seq<u8>, r: seq<u8>, k: nat)
    requires |l| == |r| == k && forall i: nat :: i < k ==> l[i] == r[i]
    ensures l == r
  {
  }

  /** The destination `to` with the first `done` bytes of `want` written at co. */
  function Done(to: seq<u8>, want: seq<u8>, co: nat, done: nat): (r: seq<u8>)
    requires done <= |want| && co + |want| <= |to|
    ensures |r| == |to|
  {
    to[..co] + want[..done] + to[co + done..]
  }

  /** The next piece of `want` is written; what lies behind it is as it was. */
  lemma DoneMore(to: seq<u8>, want: seq<u8>, co: nat, n: nat, k: nat, before: seq<u8>, after: seq<u8>)
    requires n + k <= |want| && co + |want| <= |to| && before == Done(to, want, co, n)
    requires after == before[..co + n] + want[n..n + k] + before[co + n + k..]
    ensures after == Done(to, want, co, n + k)
    ensures after[co + n + k..co + |want|] == before[co + n + k..co + |want|]
  {
    assert before[..co + n] == to[..co] + want[..n];
    assert before[co + n + k..] == to[co + n + k..];
    assert want[..n] + want[n..n + k] == want[..n + k];
  }

  /** A whole or a partial block. */
  method EncryptPart(ghost mix: Mixer, j: State, m: array<u8>, mo: nat, c: array<u8>, co: nat, k: nat, ghost s: seq<u8>)
    requires Real(mix)
    requires k <= 64 && mo + k <= m.Length && co + k <= c.Length && (m == c ==> mo == co) && s == m[mo..mo + k]
    modifies c
    ensures c[..] == old(c[..])[..co] + Mask(s, BlockBytes(mix, j)) + old(c[..])[co + k..]
  {
    ghost var t, key := c[..], BlockBytes(mix, j);
    if k < 64 { EncryptTail(mix, j, m, mo, c, co, k); } else { EncryptBlock(mix, j, m, mo, c, co); }
    assert c[co..co + k] == Mask(s, key);
    assert c[..co] == t[..co] && c[co + k..] == t[co + k..];
    assert c[..] == c[..co] + c[co..co + k] + c[co + k..];
  }

  /** n bytes of `want` are written, and the rest of the message is still there. */
  ghost predicate Progress(ms: seq<u8>, cs: seq<u8>, mo: nat, co: nat, from: seq<u8>, to: seq<u8>, want: seq<u8>,
                           n: nat)
  {
    && n <= |from| == |want| && mo + |from| <= |ms| && co + |from| <= |to|
    && cs == Done(to, want, co, n) && ms[mo + n..mo + |from|] == from[n..]
  }

  lemma ProgressMore(ms: seq<u8>, cs: seq<u8>, ms': seq<u8>, cs': seq<u8>, mo: nat, co: nat, from: seq<u8>, to: seq<u8>,
                     want: seq<u8>, n: nat, k: nat)
    requires Progress(ms, cs, mo, co, from, to, want, n) && n + k <= |from|
    requires cs' == cs[..co + n] + want[n..n + k] + cs[co + n + k..]
    requires ms' == ms || (mo == co && ms == cs && ms' == cs')
    ensures Progress(ms', cs', mo, co, from, to, want, n + k)
  {
    NextSlice(ms, from, mo, n, k);
    DoneMore(to, want, co, n, k, cs, cs');
  }

  /** Block number `blk` of want, or its first k bytes. */
  predicate BlockAt(mix: Mixer, x0: State, from: seq<u8>, want: seq<u8>, blk: nat, k: nat)
    requires k <= 64 && 64 * blk + k <= |from| == |want|
  {
    Mask(from[64 * blk..64 * blk + k], BlockBytes(mix, WithCounter(x0, Counter(x0) + blk)))
    == want[64 * blk..64 * blk + k]
  }

  ghost predicate IsCrypt(mix: Mixer, x0: State, from: seq<u8>, want: seq<u8>) {
    && |from| == |want|
    && forall blk: nat, k: nat :: k <= 64 && 64 * blk + k <= |from| ==> BlockAt(mix, x0, from, want, blk, k)
  }

  lemma CryptIs(mix: Mixer, x0: State, from: seq<u8>)
    ensures IsCrypt(mix, x0, from, Crypt(Cipher(mix), x0, from))
  {
    var want := Crypt(Cipher(mix), x0, from);
    forall blk: nat, k: nat | k <= 64 && 64 * blk + k <= |from| ensures BlockAt(mix, x0, from, want, blk, k) {
      BlockOfCrypt(mix, x0, from, blk, k);
    }
  }

  /** The next k bytes, at position n of the message. */
  method EncryptNext(ghost mix: Mixer, j: State, m: array<u8>, mo: nat, c: array<u8>, co: nat, n: nat, k: nat,
                     ghost from: seq<u8>, ghost to: seq<u8>, ghost want: seq<u8>)
    requires Real(mix) && k <= 64 && n + k <= |from| && (m == c ==> mo == co)
    requires Progress(m[..], c[..], mo, co, from, to, want, n)
    requires Mask(from[n..n + k], BlockBytes(mix, j)) == want[n..n + k]
    modifies c
    ensures Progress(m[..], c[..], mo, co, from, to, want, n + k)
  {
    ghost var ms, cs := m[..], c[..];
    assert m[mo + n..mo + n + k] == from[n..n + k] by {
      NextSlice(ms, from, mo, n, k);
      assert m[mo + n..mo + n + k] == ms[mo + n..mo + n + k];
    }
    EncryptPart(mix, j, m, mo + n, c, co + n, k, from[n..n + k]);
    ProgressMore(ms, cs, m[..], c[..], mo, co, from, to, want, n, k);
  }

  /** One round of the loop: the next block and the counter. */
  method EncryptRound(ghost mix: Mixer, ghost x0: State, ghost blk: nat, j: State, m: array<u8>, mo: nat,
                      c: array<u8>, co: nat,
                      n: nat, k: nat, ghost from: seq<u8>, ghost to: seq<u8>, ghost want: seq<u8>)
    returns (j': State)
    requires Real(mix) && n == 64 * blk && k <= 64 && n + k <= |from| && (m == c ==> mo == co)
    requires j == WithCounter(x0, Counter(x0) + blk) && IsCrypt(mix, x0, from, want)
    requires Progress(m[..], c[..], mo, co, from, to, want, n)
    modifies c
    ensures j' == WithCounter(x0, Counter(x0) + blk + 1)
    ensures Progress(m[..], c[..], mo, co, from, to, want, n + k)
  {
    assert BlockAt(mix, x0, from, want, blk, k);
    EncryptNext(mix, j, m, mo, c, co, n, k, from, to, want);
    j' := Increment(x0, j, blk);
  }

  /** The block loop. */
  method EncryptRounds(ghost mix: Mixer, x0: State, m: array<u8>, mo: nat, c: array<u8>, co: nat, bytes: nat,
                       ghost from: seq<u8>, ghost to: seq<u8>, ghost want: seq<u8>)
    returns (j: State)
    requires Real(mix) && 0 < bytes == |from| && (m == c ==> mo == co) && IsCrypt(mix, x0, from, want)
    requires Progress(m[..], c[..], mo, co, from, to, want, 0)
    modifies c
    ensures j == After(x0, bytes)
    ensures Progress(m[..], c[..], mo, co, from, to, want, bytes)
  {
    SameCounter(x0);
    j := x0;
    var n, left := 0, bytes;
    ghost var blk := 0;
    while left > 64
      invariant n == 64 * blk && n + left == bytes && 0 < left && j == WithCounter(x0, Counter(x0) + blk)
      invariant Progress(m[..], c[..], mo, co, from, to, want, n)
    {
      j := EncryptRound(mix, x0, blk, j, m, mo, c, co, n, 64, from, to, want);
      left, n, blk := left - 64, n + 64, blk + 1;
    }
    j := EncryptRound(mix, x0, blk, j, m, mo, c, co, n, left, from, to, want);
    assert (bytes + 63) / 64 == blk + 1;
  }

  method EncryptLoop(ghost mix: Mixer, x0: State, m: array<u8>, mo: nat, c: array<u8>, co: nat, bytes: nat)
    returns (j: State)
    requires Real(mix)
    requires bytes > 0 && mo + bytes <= m.Length && co + bytes <= c.Length && (m == c ==> mo == co)
    modifies c
    ensures j == After(x0, bytes)
    ensures c[..] == old(c[..])[..co] + Crypt(Cipher(mix), x0, old(m[mo..mo + bytes])) + old(c[..])[co + bytes..]
  {
    ghost var from, to := m[mo..mo + bytes], c[..];
    ghost var want := Crypt(Cipher(mix), x0, from);
    CryptIs(mix, x0, from);
    assert m[..][mo + 0..mo + bytes] == from == from[0..];
    assert to == Done(to, want, co, 0);
    j := EncryptRounds(mix, x0, m, mo, c, co, bytes, from, to, want);
    assert want[..bytes] == want;
  }

  lemma NextSlice(a: seq<u8>, from: seq<u8>, mo: nat, n: nat, k: nat)
    requires n + k <= |from| && mo + |from| <= |a| && a[mo + n..mo + |from|] == from[n..]
    ensures a[mo + n..mo + n + k] == from[n..n + k]
    ensures a[mo + n + k..mo + |from|] == from[n + k..]
  {
    assert a[mo + n..mo + n + k] == a[mo + n..mo + |from|][..k] == from[n..][..k];
    assert a[mo + n + k..mo + |from|] == a[mo + n..mo + |from|][k..] == from[n..][k..];
  }

  /** struct chacha_ctx; `mix` names the quarter round. */
  class ChachaCtx {
    ghost const mix: Mixer
    const input: array<u32>

    ghost predicate Valid() { input.Length == 16 && Real(mix) }

    ghost function View(): State
      requires Valid()
      reads input
    {
      input[..]
    }

    constructor (ghost mix: Mixer)
      requires Real(mix)
      ensures Valid() && this.mix == mix && fresh(input)
    {
      this.mix := mix;
      input := new u32[16](_ => 0);
    }

    method PutWords(at: nat, s: seq<u8>)
      requires Valid() && |s| % 4 == 0 && at + |s| / 4 <= 16
      modifies input
      ensures View() == old(View())[..at] + Words(s) + old(View())[at + |s| / 4..]
    {
      for i := 0 to |s| / 4
        invariant forall k :: 0 <= k < 16 ==>
          input[k] == if at <= k < at + i then Words(s)[k - at] else old(input[k])
      {
        input[at + i] := WordAt(s, i);
      }
    }

    /** chacha_keysetup. */
    method KeySetup(k: seq<u8>, kbits: nat)
      requires Valid() && |k| >= if kbits == 256 then 32 else 16
      modifies input
      ensures View() == KeyWords(k, kbits == 256) + old(View())[12..]
    {
      ghost var v := View();
      var second := if kbits == 256 then k[16..32] else k[..16];
      var constants := if kbits == 256 then SIGMA else TAU;
      PutWords(4, k[..16]);
      ghost var v1 := View();
      PutWords(8, second);
      ghost var v2 := View();
      PutWords(0, constants);
      ThreePuts(v, v1, v2, View(), Words(constants), Words(k[..16]), Words(second));
      KeyParts(k, kbits == 256);
    }

    /** chacha_ivsetup; the counter is zero if none is given. */
    method IvSetup(iv: seq<u8>, counter: seq<u8>)
      requires Valid() && |iv| == 8 && |counter| == 8
      modifies input
      ensures View() == old(View())[..12] + IvWords(counter, iv)
    {
      PutWords(12, counter);
      PutWords(14, iv);
    }

    /** chacha_encrypt_bytes, from m at mo to c at co, which may be the same place. */
    method EncryptBytes(m: array<u8>, mo: nat, c: array<u8>, co: nat, bytes: nat)
      requires Valid() && mo + bytes <= m.Length && co + bytes <= c.Length && (m == c ==> mo == co)
      requires input as object != c as object
      modifies input, c
      ensures View() == After(old(View()), bytes)
      ensures c[..] == old(c[..])[..co] + Crypt(Cipher(mix), old(View()), old(m[mo..mo + bytes]))
                       + old(c[..])[co + bytes..]
    {
      ghost var x0, from, to := View(), m[mo..mo + bytes], c[..];
      if bytes == 0 {
        SameCounter(x0);
        assert c[..] == to[..co] + [] + to[co..];
        return;
      }
      var j := EncryptLoop(mix, input[..], m, mo, c, co, bytes);
      input[12] := j[12];
      input[13] := j[13];
    }
  }

  /** Words 4 to 7, then 8 to 11, then 0 to 3. */
  lemma ThreePuts(v: seq<u32>, v1: seq<u32>, v2: seq<u32>, v3: seq<u32>, a: seq<u32>, b: seq<u32>, c: seq<u32>)
    requires |v| == |v1| == |v2| == 16 && |a| == |b| == |c| == 4
    requires v1 == v[..4] + b + v[8..] && v2 == v1[..8] + c + v1[12..] && v3 == v2[..0] + a + v2[4..]
    ensures v3 == a + b + c + v[12..]
  {
  }

  /** A context primed with a key, a nonce and a block counter. */
  method Prime20(key: seq<u8>, kbits: nat, iv: seq<u8>, counter: seq<u8>) returns (ctx: ChachaCtx)
    requires |key| >= (if kbits == 256 then 32 else 16) && |iv| == 8 && |counter| == 8
    ensures fresh(ctx) && fresh(ctx.input) && ctx.Valid() && Cipher(ctx.mix) == ChaCha20()
    ensures ctx.View() == KeyWords(key, kbits == 256) + IvWords(counter, iv)
  {
    QuarterRoundIsReal();
    ctx := new ChachaCtx(QuarterRound);
    ctx.KeySetup(key, kbits);
    ctx.IvSetup(iv, counter);
  }

  /** Encrypts a copy of a message. */
  method EncryptCopy(ctx: ChachaCtx, m: seq<u8>) returns (c: seq<u8>)
    requires ctx.Valid()
    modifies ctx.input
    ensures c == Crypt(Cipher(ctx.mix), old(ctx.View()), m)
  {
    ghost var x, f := ctx.View(), Cipher(ctx.mix);
    var buf := new u8[|m|](i requires 0 <= i < |m| => m[i]);
    assert buf[..] == m && buf[0..0 + |m|] == m;
    ctx.EncryptBytes(buf, 0, buf, 0, |m|);
    c := buf[..];
    NothingAround(c, m, Crypt(f, x, m));
  }

  lemma NothingAround(c: seq<u8>, to: seq<u8>, s: seq<u8>)
    requires |to| == |s| && c == to[..0] + s + to[0 + |s|..]
    ensures c == s
  {
  }

  /** ChaCha20 of a message, from a key, a nonce and a block counter. */
  method Encrypt20(key: seq<u8>, kbits: nat, iv: seq<u8>, counter: seq<u8>, m: seq<u8>) returns (c: seq<u8>)
    requires |key| >= (if kbits == 256 then 32 else 16) && |iv| == 8 && |counter| == 8
    ensures c == Crypt(ChaCha20(), KeyWords(key, kbits == 256) + IvWords(counter, iv), m)
    ensures |c| == |m| && forall i: nat :: i < |m| ==>
              c[i] == Xor8(m[i], ChaCha20()(Primed(kbits == 256, key, Little64(counter) + i / 64, iv))[i % 64])
  {
    var ctx := Prime20(key, kbits, iv, counter);
    c := EncryptCopy(ctx, m);
    StreamIs(ChaCha20(), kbits == 256, key, counter, iv, m);
  }
}
