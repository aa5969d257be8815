/** struct chachapoly_ctx: two cipher contexts that every call re-primes and runs. */
module ChachaPolyObject {
  import opened Ints
  import opened KeyStream
  import opened ChaChaSpec
  import opened ChaChaRounds
  import opened ChaChaObject
  import opened ChachaPolySpec
  import opened Wrappers

  lemma AfterKeepsKey(x: State, n: nat)
    ensures After(x, n)[..12] == x[..12]
  {
  }

  /** chacha_ivsetup and then chacha_encrypt_bytes. */
  method Run(ctx: ChachaCtx, iv: seq<u8>, counter: seq<u8>, m: array<u8>, mo: nat, c: array<u8>, co: nat, bytes: nat)
    requires ctx.Valid() && |iv| == 8 && |counter| == 8
    requires mo + bytes <= m.Length && co + bytes <= c.Length && (m == c ==> mo == co)
    requires ctx.input as object != c as object && ctx.input as object != m as object
    modifies ctx.input, c
    ensures ctx.View()[..12] == old(ctx.View())[..12]
    ensures c[..] == old(c[..])[..co]
                     + Crypt(Cipher(ctx.mix), old(ctx.View())[..12] + IvWords(counter, iv), old(m[mo..mo + bytes]))
                     + old(c[..])[co + bytes..]
  {
    ghost var k, s, t := ctx.View()[..12], m[mo..mo + bytes], c[..];
    ctx.IvSetup(iv, counter);
    ghost var x := ctx.View();
    assert x[..12] == k && m[mo..mo + bytes] == s && c[..] == t;
    ctx.EncryptBytes(m, mo, c, co, bytes);
    AfterKeepsKey(x, bytes);
  }

  class ChachapolyCtx {
    const main: ChachaCtx
    const header: ChachaCtx
    const mac: Mac

    ghost predicate Valid() {
      main.Valid() && header.Valid() && main.input != header.input && main.mix == header.mix
    }

    /** The expanded keys: everything but the counter and the nonce. */
    ghost function View(): Keys
      requires Valid()
      reads main.input, header.input
    {
      Keys(Cipher(main.mix), mac, main.View()[..12], header.View()[..12])
    }

    /** chachapoly_new, for a key of the right length. */
    constructor (ghost mix: Mixer, mac: Mac, key: seq<u8>)
      requires |key| == 64 && Real(mix)
      ensures Valid() && fresh(main.input) && fresh(header.input)
      ensures View() == Keys(Cipher(mix), mac, KeyWords(key[..32], true), KeyWords(key[32..], true))
    {
      this.mac := mac;
      var m := new ChachaCtx(mix);
      m.KeySetup(key, 256);
      var h := new ChachaCtx(mix);
      h.KeySetup(key[32..], 256);
      assert key[..32] == key[..32][..32] && key[32..] == key[32..][..32];
      main, header := m, h;
    }

    /** The first part of chachapoly_crypt: run the cipher once on zeros. */
    method DerivePolyKey(seqnr: u32) returns (polyKey: seq<u8>)
      requires Valid()
      modifies main.input
      ensures View() == old(View()) && polyKey == PolyKey(View(), seqnr)
      ensures polyKey == View().f(KeyState(View(), seqnr))[..32]
    {
      var buf := new u8[32](_ => 0);
      assert buf[0..0 + 32] == Zeros(32);
      Run(main, PokeU64(seqnr), ZERO, buf, 0, buf, 0, 32);
      polyKey := buf[..];
      PolyKeyIsBlock(View(), seqnr);
    }

    /** The middle part: header, then payload from block 1 on. */
    method CryptBoth(seqnr: u32, dest: array<u8>, src: array<u8>, len: nat, aadlen: nat)
      requires Valid() && aadlen + len <= src.Length && aadlen + len <= dest.Length
      requires main.input as object != dest as object && header.input as object != dest as object
      requires main.input as object != src as object && header.input as object != src as object
      modifies main.input, header.input, dest
      ensures View() == old(View())
      ensures dest[..] == Both(View(), seqnr, old(src[..aadlen]), old(src[aadlen..aadlen + len]))
                          + old(dest[..])[aadlen + len..]
    {
      ghost var k, aad, payload, to := View(), src[..aadlen], src[aadlen..aadlen + len], dest[..];
      ghost var hdr := Crypt(k.f, HeaderState(k, seqnr), aad);
      if aadlen > 0 {
        assert src[0..0 + aadlen] == src[..aadlen];
        Run(header, PokeU64(seqnr), ZERO, src, 0, dest, 0, aadlen);
      }
      assert dest[..] == hdr + to[aadlen..];
      assert src[aadlen..aadlen + len] == payload;
      Run(main, PokeU64(seqnr), ONE, src, aadlen, dest, aadlen, len);
      assert (hdr + to[aadlen..])[..aadlen] == hdr && (hdr + to[aadlen..])[aadlen + len..] == to[aadlen + len..];
    }

    /** poly1305_auth writes the tag after the ciphertext. */
    method PutTag(dest: array<u8>, e: nat, tag: seq<u8>)
      requires |tag| == 16 && e + 16 <= dest.Length
      modifies dest
      ensures dest[..] == old(dest[..e]) + tag + old(dest[e + 16..])
    {
      forall i | 0 <= i < 16 { dest[e + i] := tag[i]; }
    }

    /** chachapoly_crypt when encrypting: the tag of both ciphertexts is appended. */
    method Encrypt(seqnr: u32, dest: array<u8>, src: array<u8>, len: nat, aadlen: nat)
      requires Valid() && aadlen + len <= src.Length && aadlen + len + 16 <= dest.Length
      requires main.input as object != dest as object && header.input as object != dest as object
      requires main.input as object != src as object && header.input as object != src as object
      modifies main.input, header.input, dest
      ensures View() == old(View())
      ensures dest[..] == Seal(View(), seqnr, old(src[..aadlen]), old(src[aadlen..aadlen + len]))
                          + old(dest[..])[aadlen + len + 16..]
    {
      var e := aadlen + len;
      ghost var to := dest[..];
      ghost var body := Both(View(), seqnr, src[..aadlen], src[aadlen..e]);
      var polyKey := DerivePolyKey(seqnr);
      CryptBoth(seqnr, dest, src, len, aadlen);
      assert dest[..e] == body;
      var tag := mac(dest[..e], polyKey);
      PutTag(dest, e, tag);
      assert body + to[e..] == dest[..e] + to[e..];
    }

    /** chachapoly_crypt when decrypting: the tag is checked before anything else. */
    method Decrypt(seqnr: u32, dest: array<u8>, src: array<u8>, len: nat, aadlen: nat) returns (ok: bool)
      requires Valid() && aadlen + len + 16 <= src.Length && aadlen + len <= dest.Length
      requires main.input as object != dest as object && header.input as object != dest as object
      requires main.input as object != src as object && header.input as object != src as object
      modifies main.input, header.input, dest
      ensures View() == old(View())
      ensures ok <==> Open(View(), seqnr, old(src[..aadlen + len + 16]), aadlen).Some?
      ensures ok ==> dest[..] == Open(View(), seqnr, old(src[..aadlen + len + 16]), aadlen).value
                                 + old(dest[..])[aadlen + len..]
      ensures !ok ==> dest[..] == old(dest[..])
    {
      var e := aadlen + len;
      ghost var packet := src[..e + 16];
      assert packet[..e] == src[..e] && packet[e..] == src[e..e + 16];
      assert packet[..aadlen] == src[..aadlen] && packet[aadlen..e] == src[aadlen..e];
      var polyKey := DerivePolyKey(seqnr);
      var expected := mac(src[..e], polyKey);
      if expected != src[e..e + 16] { return false; }
      CryptBoth(seqnr, dest, src, len, aadlen);
      ok := true;
    }

    /** chachapoly_get_length. */
    method PacketLength(seqnr: u32, cp: array<u8>, len: nat) returns (ok: bool, plen: u32)
      requires Valid() && len <= cp.Length && header.input as object != cp as object
      modifies header.input
      ensures View() == old(View())
      ensures ok <==> len >= 4
      ensures ok ==> plen == GetLength(View(), seqnr, cp[..len])
    {
      if len < 4 { return false, 0; }
      var buf := new u8[4](_ => 0);
      assert cp[0..0 + 4] == cp[..len][..4];
      Run(header, PokeU64(seqnr), ZERO, cp, 0, buf, 0, 4);
      return true, PeekU32(buf[..]);
    }
  }

  /** chachapoly_new refuses any other key length. */
  method NewChachapoly(mac: Mac, key: seq<u8>) returns (ctx: ChachapolyCtx?)
    ensures ctx != null <==> |key| == 64
    ensures ctx != null ==> ctx.Valid()
    ensures ctx != null ==>
              ctx.View() == Keys20(mac, key) && fresh(ctx) && fresh(ctx.main.input) && fresh(ctx.header.input)
  {
    if |key| != 64 { return null; }
    QuarterRoundIsReal();
    ctx := new ChachapolyCtx(QuarterRound, mac, key);
  }

  /** The expanded keys of a 64-byte key, for ChaCha20. */
  function Keys20(mac: Mac, key: seq<u8>): Keys
    requires |key| == 64
  {
    Expanded(ChaCha20(), mac, key)
  }

  method SealCopy(mac: Mac, key: seq<u8>, seqnr: u32, aad: seq<u8>, payload: seq<u8>) returns (packet: seq<u8>)
    requires |key| == 64
    ensures packet == Seal(Keys20(mac, key), seqnr, aad, payload)
  {
    var ctx := NewChachapoly(mac, key);
    var a, n := |aad|, |payload|;
    var s := aad + payload;
    var src := new u8[a + n](i requires 0 <= i < a + n => s[i]);
    assert src[..] == s && src[..a] == aad && src[a..a + n] == payload;
    var dest := new u8[a + n + 16](_ => 0);
    ctx.Encrypt(seqnr, dest, src, n, a);
    packet := dest[..];
  }

  /** One end seals a packet. */
  method SealPacket(mac: Mac, key: seq<u8>, seqnr: u32, aad: seq<u8>, payload: seq<u8>) returns (packet: seq<u8>)
    requires |key| == 64
    ensures packet == Seal(Keys20(mac, key), seqnr, aad, payload)
    ensures Sealed(ChaCha20(), mac, key, seqnr, aad, payload, packet)
  {
    packet := SealCopy(mac, key, seqnr, aad, payload);
    SealIsSealed(ChaCha20(), mac, key, seqnr, aad, payload);
  }

  method OpenCopy(mac: Mac, key: seq<u8>, seqnr: u32, packet: seq<u8>, aadlen: nat) returns (r: Option<seq<u8>>)
    requires |key| == 64 && |packet| >= aadlen + 16
    ensures r == Open(Keys20(mac, key), seqnr, packet, aadlen)
  {
    var ctx := NewChachapoly(mac, key);
    var n := |packet| - 16 - aadlen;
    var src := new u8[|packet|](i requires 0 <= i < |packet| => packet[i]);
    assert src[..] == packet && src[..aadlen + n + 16] == packet;
    var dest := new u8[aadlen + n](_ => 0);
    ghost var rest := dest[..][aadlen + n..];
    var ok := ctx.Decrypt(seqnr, dest, src, n, aadlen);
    ghost var want := Open(Keys20(mac, key), seqnr, packet, aadlen);
    assert ctx.View() == Keys20(mac, key) && ok == want.Some?;
    assert ok ==> dest[..] == want.value + rest == want.value;
    r := if ok then Some(dest[..]) else None;
  }

  /** The other end opens one, exactly if it ends in the tag of what comes before. */
  method OpenPacket(mac: Mac, key: seq<u8>, seqnr: u32, packet: seq<u8>, aadlen: nat) returns (r: Option<seq<u8>>)
    requires |key| == 64 && |packet| >= aadlen + 16
    ensures r == Open(Keys20(mac, key), seqnr, packet, aadlen)
    ensures var e := |packet| - 16;
            r.Some? <==> packet[e..] == mac(packet[..e], ChaCha20()(PacketState(key[..32], 0, seqnr))[..32])
  {
    r := OpenCopy(mac, key, seqnr, packet, aadlen);
    PolyKeyIsBlock(Keys20(mac, key), seqnr);
    KeyStateIs(ChaCha20(), mac, key, seqnr);
  }

  /** A packet from one end to the other: with the same key and sequence number what was
      sealed is what is opened, and whatever else is opened is the seal of what it opens to. */
  method Transport(mac: Mac, key: seq<u8>, seqnr: u32, aad: seq<u8>, payload: seq<u8>, altered: seq<u8>)
    returns (genuine: Option<seq<u8>>, other: Option<seq<u8>>)
    requires |key| == 64 && |altered| == |aad| + |payload| + 16
    ensures genuine == Some(aad + payload)
    ensures other.Some? ==>
              && |other.value| == |aad| + |payload|
              && altered == Seal(Keys20(mac, key), seqnr, other.value[..|aad|], other.value[|aad|..])
  {
    var packet := SealPacket(mac, key, seqnr, aad, payload);
    OpenOfSeal(Keys20(mac, key), seqnr, aad, payload);
    genuine := OpenPacket(mac, key, seqnr, packet, |aad|);
    other := OpenPacket(mac, key, seqnr, altered, |aad|);
    if other.Some? { SealOfOpen(Keys20(mac, key), seqnr, altered, |aad|); }
  }
}
