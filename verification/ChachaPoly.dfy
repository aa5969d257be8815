/** chacha20-poly1305@openssh.com: the packet length is encrypted under a key of its own,
    and both ciphertexts are authenticated under a key taken from the cipher's block 0. */
module ChachaPolySpec {
  import opened Ints
  import opened Bits
  import opened KeyStream
  import opened ChaChaSpec
  import opened ChaChaKnown
  import opened Wrappers

  type Tag = s: seq<u8> | |s| == 16 witness seq(16, _ => 0)

  /** poly1305_auth: the tag of a message under a key. */
  type Mac = (seq<u8>, seq<u8>) -> Tag

  /** POKE_U64 of a 32-bit sequence number. */
  function PokeU64(n: u32): (s: seq<u8>)
    ensures |s| == 8
  {
    [0, 0, 0, 0, n / 0x100_0000, n / 0x1_0000 % 0x100, n / 0x100 % 0x100, n % 0x100]
  }

  const ZERO: seq<u8> := [0, 0, 0, 0, 0, 0, 0, 0]
  const ONE: seq<u8> := [1, 0, 0, 0, 0, 0, 0, 0]

  type Half = s: seq<u32> | |s| == 12 witness seq(12, _ => 0)

  /** The two keys, expanded, and the primitives. */
  datatype Keys = Keys(f: BlockFn, mac: Mac, main: Half, header: Half)

  function HeaderState(k: Keys, n: u32): State { k.header + IvWords(ZERO, PokeU64(n)) }
  function KeyState(k: Keys, n: u32): State { k.main + IvWords(ZERO, PokeU64(n)) }
  function PayloadState(k: Keys, n: u32): State { k.main + IvWords(ONE, PokeU64(n)) }

  function Zeros(n: nat): seq<u8> { seq(n, _ => 0) }

  function PolyKey(k: Keys, n: u32): seq<u8> { Crypt(k.f, KeyState(k, n), Zeros(32)) }

  /** Header and payload, each under its own key stream. */
  function Both(k: Keys, n: u32, aad: seq<u8>, payload: seq<u8>): seq<u8> {
    Crypt(k.f, HeaderState(k, n), aad) + Crypt(k.f, PayloadState(k, n), payload)
  }

  function Seal(k: Keys, n: u32, aad: seq<u8>, payload: seq<u8>): seq<u8> {
    var body := Both(k, n, aad, payload);
    body + k.mac(body, PolyKey(k, n))
  }

  /** The reverse, for a packet that ends in a tag. */
  function Open(k: Keys, n: u32, packet: seq<u8>, aadlen: nat): Option<seq<u8>>
    requires |packet| >= aadlen + 16
  {
    var e := |packet| - 16;
    if k.mac(packet[..e], PolyKey(k, n)) != packet[e..] then None
    else Some(Both(k, n, packet[..aadlen], packet[aadlen..e]))
  }

  function GetLength(k: Keys, n: u32, packet: seq<u8>): u32
    requires |packet| >= 4
  {
    PeekU32(Crypt(k.f, HeaderState(k, n), packet[..4]))
  }

  lemma BothTwice(k: Keys, n: u32, a: seq<u8>, b: seq<u8>)
    ensures var body := Both(k, n, a, b);
            && |body| == |a| + |b|
            && Both(k, n, body[..|a|], body[|a|..]) == a + b
  {
    var body := Both(k, n, a, b);
    assert body[..|a|] == Crypt(k.f, HeaderState(k, n), a);
    assert body[|a|..] == Crypt(k.f, PayloadState(k, n), b);
    SelfInverse(k.f, HeaderState(k, n), a);
    SelfInverse(k.f, PayloadState(k, n), b);
  }

  /** Decrypting what was encrypted gives back header and payload, for every key, sequence
      number and length. */
  lemma OpenOfSeal(k: Keys, n: u32, aad: seq<u8>, payload: seq<u8>)
    ensures |Seal(k, n, aad, payload)| == |aad| + |payload| + 16
    ensures Open(k, n, Seal(k, n, aad, payload), |aad|) == Some(aad + payload)
  {
    var body := Both(k, n, aad, payload);
    var packet := Seal(k, n, aad, payload);
    BothTwice(k, n, aad, payload);
    assert packet[..|packet| - 16] == body;
    assert packet[..|aad|] == body[..|aad|] && packet[|aad|..|packet| - 16] == body[|aad|..];
  }

  /** And nothing else is accepted: a packet that opens is the seal of what it opens to. */
  lemma SealOfOpen(k: Keys, n: u32, packet: seq<u8>, aadlen: nat)
    requires |packet| >= aadlen + 16 && Open(k, n, packet, aadlen).Some?
    ensures var p := Open(k, n, packet, aadlen).value;
            |p| == |packet| - 16 && Seal(k, n, p[..aadlen], p[aadlen..]) == packet
  {
    var e := |packet| - 16;
    var p := Both(k, n, packet[..aadlen], packet[aadlen..e]);
    BothTwice(k, n, packet[..aadlen], packet[aadlen..e]);
    assert Both(k, n, p[..aadlen], p[aadlen..]) == packet[..e] by {
      assert packet[..aadlen] + packet[aadlen..e] == packet[..e];
    }
    assert packet[..e] + packet[e..] == packet;
  }

  /** The length read ahead of the packet is the length that was sealed. */
  lemma LengthOfSeal(k: Keys, n: u32, aad: seq<u8>, payload: seq<u8>)
    requires |aad| >= 4
    ensures GetLength(k, n, Seal(k, n, aad, payload)) == PeekU32(aad)
  {
    var x := HeaderState(k, n);
    var c := Seal(k, n, aad, payload)[..4];
    assert c == Crypt(k.f, x, aad)[..4] == Crypt(k.f, x, aad[..4]);
    SelfInverse(k.f, x, aad[..4]);
  }

  // ---- the packet, byte by byte ------------------------------------------------------------

  lemma ZeroByte(f: BlockFn, x: State, i: nat)
    requires i < 32
    ensures Crypt(f, x, Zeros(32))[i] == f(x)[i]
  {
    SameCounter(x);
    assert StateAt(x, i) == x;
  }

  lemma ZerosGiveBlock(f: BlockFn, x: State)
    ensures Crypt(f, x, Zeros(32)) == f(x)[..32]
  {
    var c, b := Crypt(f, x, Zeros(32)), f(x);
    forall i: nat | i < 32 ensures c[i] == b[i] { ZeroByte(f, x, i); }
  }

  /** Encrypting zeros yields the key stream: the tag is keyed by the first half of block 0. */
  lemma PolyKeyIsBlock(k: Keys, n: u32)
    ensures PolyKey(k, n) == k.f(KeyState(k, n))[..32]
  {
    ZerosGiveBlock(k.f, KeyState(k, n));
  }

  /** The state of ChaCha20 for block b of packet n, under one half of the key. */
  function PacketState(key: seq<u8>, b: nat, n: u32): State
    requires |key| == 32
  {
    Primed(true, key, b, [0, 0, 0, 0] + PokeU32(n))
  }

  /** c is m, byte by byte against ChaCha20 from block b of packet n on. */
  predicate Ciphered(f: BlockFn, key: seq<u8>, b: nat, n: u32, m: seq<u8>, c: seq<u8>)
    requires |key| == 32
  {
    |c| == |m| && forall i: nat :: i < |m| ==> c[i] == Xor8(m[i], f(PacketState(key, b + i / 64, n))[i % 64])
  }

  /** The packet that carries a header and a payload: the header under the second half of the
      key from block 0 on, the payload under the first half from block 1 on, and the tag of
      both under the first 32 bytes of block 0. */
  predicate Sealed(f: BlockFn, mac: Mac, key: seq<u8>, n: u32, aad: seq<u8>, payload: seq<u8>, packet: seq<u8>)
    requires |key| == 64
  {
    var a, e := |aad|, |aad| + |payload|;
    && |packet| == e + 16
    && Ciphered(f, key[32..], 0, n, aad, packet[..a])
    && Ciphered(f, key[..32], 1, n, payload, packet[a..e])
    && packet[e..] == mac(packet[..e], f(PacketState(key[..32], 0, n))[..32])
  }

  /** The expanded keys of a 64-byte key. */
  function Expanded(f: BlockFn, mac: Mac, key: seq<u8>): Keys
    requires |key| == 64
  {
    Keys(f, mac, KeyWords(key[..32], true), KeyWords(key[32..], true))
  }

  lemma BlockNumbers()
    ensures Little64(ZERO) == 0 && Little64(ONE) == 1
  {
  }

  lemma NonceIs(n: u32)
    ensures PokeU64(n) == [0, 0, 0, 0] + PokeU32(n)
  {
  }

  lemma KeyStateIs(f: BlockFn, mac: Mac, key: seq<u8>, n: u32)
    requires |key| == 64
    ensures KeyState(Expanded(f, mac, key), n) == PacketState(key[..32], 0, n)
  {
    BlockNumbers();
    NonceIs(n);
    PrimedFirst(true, key[..32], ZERO, PokeU64(n));
  }

  lemma HeaderIs(f: BlockFn, mac: Mac, key: seq<u8>, n: u32, aad: seq<u8>)
    requires |key| == 64
    ensures Ciphered(f, key[32..], 0, n, aad, Crypt(f, HeaderState(Expanded(f, mac, key), n), aad))
  {
    BlockNumbers();
    NonceIs(n);
    StreamIs(f, true, key[32..], ZERO, PokeU64(n), aad);
  }

  lemma PayloadIs(f: BlockFn, mac: Mac, key: seq<u8>, n: u32, payload: seq<u8>)
    requires |key| == 64
    ensures Ciphered(f, key[..32], 1, n, payload, Crypt(f, PayloadState(Expanded(f, mac, key), n), payload))
  {
    BlockNumbers();
    NonceIs(n);
    StreamIs(f, true, key[..32], ONE, PokeU64(n), payload);
  }

  lemma Assembled(f: BlockFn, mac: Mac, key: seq<u8>, n: u32, aad: seq<u8>, payload: seq<u8>, h: seq<u8>, p: seq<u8>)
    requires |key| == 64 && |h| == |aad| && |p| == |payload|
    requires Ciphered(f, key[32..], 0, n, aad, h) && Ciphered(f, key[..32], 1, n, payload, p)
    ensures var t := mac(h + p, f(PacketState(key[..32], 0, n))[..32]);
            Sealed(f, mac, key, n, aad, payload, h + p + t)
  {
    var t: seq<u8> := mac(h + p, f(PacketState(key[..32], 0, n))[..32]);
    var packet, a, e := h + p + t, |h|, |h| + |p|;
    assert packet[..a] == h && packet[a..e] == p && packet[..e] == h + p && packet[e..] == t;
  }

  /** Every sealed packet has that layout. */
  lemma SealIsSealed(f: BlockFn, mac: Mac, key: seq<u8>, n: u32, aad: seq<u8>, payload: seq<u8>)
    requires |key| == 64
    ensures Sealed(f, mac, key, n, aad, payload, Seal(Expanded(f, mac, key), n, aad, payload))
  {
    var k := Expanded(f, mac, key);
    PolyKeyIsBlock(k, n);
    KeyStateIs(f, mac, key, n);
    HeaderIs(f, mac, key, n, aad);
    PayloadIs(f, mac, key, n, payload);
    Assembled(f, mac, key, n, aad, payload,
              Crypt(f, HeaderState(k, n), aad), Crypt(f, PayloadState(k, n), payload));
  }

  // ---- the block that keys the tag ---------------------------------------------------------

  lemma {:induction false} ShlZero(s: nat)
    ensures Shl(0, s) == 0
  {
    if s > 0 { ShlZero(s - 1); }
  }

  lemma SmallWord(b: u8)
    ensures Le32([b, 0, 0, 0]) == b
  {
    ShlZero(8);
    ShlZero(16);
    ShlZero(24);
  }

  lemma CounterWords(s: seq<u8>, b: u8)
    requires s == [b, 0, 0, 0, 0, 0, 0, 0]
    ensures WordAt(s, 0) == b && WordAt(s, 1) == 0
  {
    SmallWord(b);
    SmallWord(0);
    assert s[0..4] == [b, 0, 0, 0] && s[4..8] == [0, 0, 0, 0];
  }

  lemma StartCounter(key: Half, nonce: seq<u8>, s: seq<u8>, b: u8)
    requires |nonce| == 8 && s == [b, 0, 0, 0, 0, 0, 0, 0]
    ensures Counter(key + IvWords(s, nonce)) == b
  {
    CounterWords(s, b);
    var x: State := key + IvWords(s, nonce);
    assert x[12] == Words(s)[0] && x[13] == Words(s)[1];
  }

  lemma WrappedCounter(x: State, c: nat)
    ensures Counter(WithCounter(x, c)) == c % 0x1_0000_0000_0000_0000
  {
    TwoWords(c);
    var r: nat :| c == 0x1_0000_0000_0000_0000 * r + 0x1_0000_0000 * Hi(c) + Lo(c);
  }

  lemma StartsAt(k: Keys, n: u32)
    ensures Counter(KeyState(k, n)) == 0 && Counter(PayloadState(k, n)) == 1
  {
    StartCounter(k.main, PokeU64(n), ZERO, 0);
    StartCounter(k.main, PokeU64(n), ONE, 1);
  }

  /** The block that yields the Poly1305 key is used for payload byte i exactly when the
      block counter has wrapped around to it. */
  lemma KeyBlockReused(k: Keys, n: u32, i: nat)
    ensures Counter(StateAt(PayloadState(k, n), i)) == Counter(KeyState(k, n)) <==>
              (1 + i / 64) % 0x1_0000_0000_0000_0000 == 0
  {
    var x, c := PayloadState(k, n), 1 + i / 64;
    StartsAt(k, n);
    assert StateAt(x, i) == WithCounter(x, c);
    WrappedCounter(x, c);
  }

  /** So with a 32-bit length it never is. */
  lemma KeyBlockIsFresh(k: Keys, n: u32, len: u32, i: nat)
    requires i < len
    ensures StateAt(PayloadState(k, n), i) != KeyState(k, n)
  {
    KeyBlockReused(k, n, i);
  }
}
