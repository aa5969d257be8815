/** Addresses, masks and networks. An address is kept as four 32-bit words, each read most
    significant byte first; an IPv4 address occupies the first word. */
module AddrSpec {
  import opened Ints
  import opened Bits
  import opened Wrappers

  datatype Family = Inet | Inet6 | Unspec

  datatype XAddr = XAddr(af: Family, words: seq<u32>, scope: u32)

  predicate Wf(a: XAddr) { |a.words| == 4 }

  function Width(af: Family): nat { match af case Inet => 32 case Inet6 => 128 case Unspec => 0 }

  predicate MasklenValid(af: Family, l: nat) { af != Unspec && l <= Width(af) }

  /** Bit b of an address, counted from its front. */
  predicate AddrBit(words: seq<u32>, b: nat)
    requires |words| == 4 && b < 128
  {
    Bit(words[b / 32], 31 - b % 32)
  }

  /** (0xffffffff << (32 - l)) & 0xffffffff, and 0 for l == 0. */
  function MaskWord(l: nat): (w: u32)
    requires l <= 32
  {
    Pow2Values();
    if l == 0 then 0 else Low(Shl(0xffff_ffff, 32 - l), 32)
  }

  /** The share of word i in a mask of l bits. */
  function Share(l: nat, i: nat): (k: nat)
    ensures k <= 32
  {
    if l <= 32 * i then 0 else if l >= 32 * i + 32 then 32 else l - 32 * i
  }

  function Netmask(af: Family, l: nat): Option<XAddr> {
    if !MasklenValid(af, l) then None
    else Some(XAddr(af, seq(4, i requires 0 <= i < 4 => MaskWord(Share(l, i))), 0))
  }

  function AndWord(a: u32, b: u32): u32 {
    Pow2Values();
    Bounded(a, b, 32);
    And(a, b)
  }

  function NotWord(a: u32): u32 { 0xffff_ffff - a }

  /** The words an operation on a family touches. */
  function Words(af: Family): nat { match af case Inet => 1 case Inet6 => 4 case Unspec => 0 }

  function AndAddr(a: XAddr, b: XAddr): Option<XAddr>
    requires Wf(a) && Wf(b)
  {
    if a.af != b.af || a.af == Unspec then None
    else Some(a.(words := seq(4, i requires 0 <= i < 4 =>
      if i < Words(a.af) then AndWord(a.words[i], b.words[i]) else a.words[i])))
  }

  function Invert(a: XAddr): Option<XAddr>
    requires Wf(a)
  {
    if a.af == Unspec then None
    else Some(a.(words := seq(4, i requires 0 <= i < 4 =>
      if i < Words(a.af) then NotWord(a.words[i]) else a.words[i])))
  }

  predicate IsAll0s(a: XAddr)
    requires Wf(a)
  {
    a.af != Unspec && forall i :: 0 <= i < Words(a.af) ==> a.words[i] == 0
  }

  /** No bit of a is set after the first l. */
  predicate HostIsAll0s(a: XAddr, l: nat)
    requires Wf(a)
  {
    if Netmask(a.af, l).None? then false
    else
      var mask := Invert(Netmask(a.af, l).value);
      if mask.None? || AndAddr(a, mask.value).None? then false else IsAll0s(AndAddr(a, mask.value).value)
  }

  function Bytes(words: seq<u32>): (s: seq<u8>)
    ensures |s| == 4 * |words|
  {
    if words == [] then [] else PokeU32(words[0]) + Bytes(words[1..])
  }

  function CmpInt(x: int, y: int): int { if x == y then 0 else if x > y then 1 else -1 }

  /** The first byte that differs decides. */
  function CmpBytes(s: seq<u8>, t: seq<u8>): int
    requires |s| == |t|
  {
    if s == [] then 0 else if s[0] != t[0] then CmpInt(s[0], t[0]) else CmpBytes(s[1..], t[1..])
  }

  function Cmp(a: XAddr, b: XAddr): int
    requires Wf(a) && Wf(b)
  {
    if a.af != b.af then (if a.af == Inet6 then 1 else -1)
    else
      match a.af
      case Inet => CmpInt(a.words[0], b.words[0])
      case Inet6 =>
        var r := CmpBytes(Bytes(a.words), Bytes(b.words));
        if r != 0 then r else CmpInt(a.scope, b.scope)
      case Unspec => -1
  }

  function Netmatch(host: XAddr, net: XAddr, l: nat): int
    requires Wf(host) && Wf(net)
  {
    if host.af != net.af || Netmask(host.af, l).None? then -1
    else
      var r := AndAddr(host, Netmask(host.af, l).value);
      if r.None? then -1 else Cmp(r.value, net)
  }
}

module AddrTheorems {
  import opened Ints
  import opened Bits
  import opened AddrSpec

  // ---- one word --------------------------------------------------------------------------

  lemma {:induction false} MaskBit(l: nat, k: nat)
    requires l <= 32 && k < 32
    ensures Bit(MaskWord(l), k) <==> k >= 32 - l
  {
    if l == 0 {
      BitZero(k);
    } else {
      BitLow(Shl(0xffff_ffff, 32 - l), 32, k);
      BitShl(0xffff_ffff, 32 - l, k);
      if k >= 32 - l { OnesBit(k - (32 - l)); }
    }
  }

  lemma {:induction false} OnesBit(k: nat)
    requires k < 32
    ensures Bit(0xffff_ffff, k)
  {
    Pow2Values();
    BitNot(0, 32, k);
    BitZero(k);
  }

  /** The first k bits of two words agree; the bits of a word after its first k are clear. */
  ghost predicate TopAgree(h: u32, n: u32, k: nat) {
    forall j: nat :: 32 - k <= j < 32 ==> Bit(h, j) == Bit(n, j)
  }

  ghost predicate LowClear(n: u32, k: nat) {
    forall j: nat :: j < 32 - k ==> !Bit(n, j)
  }

  lemma {:induction false} MaskedBit(h: u32, k: nat, j: nat)
    requires k <= 32 && j < 32
    ensures Bit(AndWord(h, MaskWord(k)), j) == (Bit(h, j) && j >= 32 - k)
    ensures Bit(AndWord(h, NotWord(MaskWord(k))), j) == (Bit(h, j) && j < 32 - k)
  {
    Pow2Values();
    MaskBit(k, j);
    BitAnd(h, MaskWord(k), j);
    BitNot(MaskWord(k), 32, j);
    BitAnd(h, NotWord(MaskWord(k)), j);
  }

  /** The host part of a word is zero exactly when its last bits are. */
  lemma WordHostClear(n: u32, k: nat)
    requires k <= 32
    ensures AndWord(n, NotWord(MaskWord(k))) == 0 <==> LowClear(n, k)
  {
    var w := AndWord(n, NotWord(MaskWord(k)));
    forall j: nat | j < 32 ensures Bit(w, j) == (Bit(n, j) && j < 32 - k) { MaskedBit(n, k, j); }
    if w == 0 {
      forall j: nat | j < 32 - k ensures !Bit(n, j) { BitZero(j); assert Bit(w, j) == Bit(n, j); }
    }
    if LowClear(n, k) {
      forall j: nat | j < 32 ensures Bit(w, j) == Bit(0, j) { BitZero(j); }
      SameWord(w, 0);
    }
  }

  /** Masking a word gives a network word exactly when their first bits agree. */
  lemma WordMatches(h: u32, n: u32, k: nat)
    requires k <= 32 && LowClear(n, k)
    ensures AndWord(h, MaskWord(k)) == n <==> TopAgree(h, n, k)
  {
    var w := AndWord(h, MaskWord(k));
    forall j: nat | j < 32 ensures Bit(w, j) == (Bit(h, j) && j >= 32 - k) { MaskedBit(h, k, j); }
    if w == n {
      assert TopAgree(h, n, k);
    }
    if TopAgree(h, n, k) {
      forall j: nat | j < 32 ensures Bit(w, j) == Bit(n, j) {
        if j < 32 - k { assert !Bit(n, j); } else { assert Bit(h, j) == Bit(n, j); }
      }
      SameWord(w, n);
    }
  }

  // ---- whole addresses ----------------------------------------------------------------------

  ghost predicate FirstBitsAgree(h: seq<u32>, n: seq<u32>, l: nat)
    requires |h| == |n| == 4 && l <= 128
  {
    forall b: nat :: b < l ==> AddrBit(h, b) == AddrBit(n, b)
  }

  lemma FirstBitsByWord(h: seq<u32>, n: seq<u32>, l: nat)
    requires |h| == |n| == 4 && l <= 128
    ensures FirstBitsAgree(h, n, l) <==> forall i :: 0 <= i < 4 ==> TopAgree(h[i], n[i], Share(l, i))
  {
    if FirstBitsAgree(h, n, l) {
      forall i | 0 <= i < 4 ensures TopAgree(h[i], n[i], Share(l, i)) {
        forall j: nat | 32 - Share(l, i) <= j < 32 ensures Bit(h[i], j) == Bit(n[i], j) {
          var b := 32 * i + (31 - j);
          assert b < l && b / 32 == i && 31 - b % 32 == j;
          assert AddrBit(h, b) == AddrBit(n, b);
        }
      }
    }
    if forall i :: 0 <= i < 4 ==> TopAgree(h[i], n[i], Share(l, i)) {
      forall b: nat | b < l ensures AddrBit(h, b) == AddrBit(n, b) {
        var i := b / 32;
        assert TopAgree(h[i], n[i], Share(l, i));
        assert 32 - Share(l, i) <= 31 - b % 32;
      }
    }
  }

  lemma MaskIs(af: Family, l: nat)
    requires MasklenValid(af, l)
    ensures var m := Netmask(af, l).value;
            && Wf(m) && m.af == af
            && forall i :: 0 <= i < 4 ==> m.words[i] == MaskWord(Share(l, i))
  {
  }

  /** The check made on a network before it is used, bit by bit. */
  lemma HostIsAll0sExactly(a: XAddr, l: nat)
    requires Wf(a)
    ensures HostIsAll0s(a, l) <==>
              MasklenValid(a.af, l) && forall i :: 0 <= i < Words(a.af) ==> LowClear(a.words[i], Share(l, i))
  {
    if MasklenValid(a.af, l) {
      MaskIs(a.af, l);
      forall i | 0 <= i < 4
        ensures AndWord(a.words[i], NotWord(MaskWord(Share(l, i)))) == 0 <==> LowClear(a.words[i], Share(l, i))
      {
        WordHostClear(a.words[i], Share(l, i));
      }
      var r := AndAddr(a, Invert(Netmask(a.af, l).value).value).value;
      assert forall i :: 0 <= i < Words(a.af) ==> r.words[i] == AndWord(a.words[i], NotWord(MaskWord(Share(l, i))));
    }
  }

  // ---- comparison ------------------------------------------------------------------------------

  lemma {:induction false} CmpSnoc(s: seq<u8>, t: seq<u8>, x: u8, y: u8)
    requires |s| == |t|
    ensures CmpBytes(s + [x], t + [y]) == if CmpBytes(s, t) != 0 then CmpBytes(s, t) else CmpInt(x, y)
    decreases |s|
  {
    if s == [] {
      assert CmpBytes([x], [y]) == CmpInt(x, y);
      assert s + [x] == [x] && t + [y] == [y];
    } else {
      CmpSnoc(s[1..], t[1..], x, y);
      assert (s + [x])[1..] == s[1..] + [x] && (t + [y])[1..] == t[1..] + [y];
    }
  }

  /** The number that bytes stand for, most significant first. */
  function Num(s: seq<u8>): nat
    decreases |s|
  {
    if s == [] then 0 else 256 * Num(s[..|s| - 1]) + s[|s| - 1]
  }

  /** Comparing byte by byte compares the numbers. */
  lemma {:induction false} CmpIsNumeric(s: seq<u8>, t: seq<u8>)
    requires |s| == |t|
    ensures CmpBytes(s, t) == CmpInt(Num(s), Num(t))
    decreases |s|
  {
    if s != [] {
      var n := |s| - 1;
      CmpIsNumeric(s[..n], t[..n]);
      CmpSnoc(s[..n], t[..n], s[n], t[n]);
      assert s == s[..n] + [s[n]] && t == t[..n] + [t[n]];
    }
  }

  lemma {:induction false} CmpZero(s: seq<u8>, t: seq<u8>)
    requires |s| == |t|
    ensures CmpBytes(s, t) == 0 <==> s == t
    decreases |s|
  {
    if s != [] {
      CmpZero(s[1..], t[1..]);
      assert s == [s[0]] + s[1..] && t == [t[0]] + t[1..];
    }
  }

  lemma PokeInjective(v: u32, w: u32)
    requires PokeU32(v) == PokeU32(w)
    ensures v == w
  {
    PeekOfPoke(v, []);
    PeekOfPoke(w, []);
    assert PokeU32(v) + [] == PokeU32(w) + [];
  }

  lemma {:induction false} BytesInjective(v: seq<u32>, w: seq<u32>)
    requires |v| == |w| && Bytes(v) == Bytes(w)
    ensures v == w
  {
    if v != [] {
      assert Bytes(v)[..4] == PokeU32(v[0]) && Bytes(w)[..4] == PokeU32(w[0]);
      assert Bytes(v)[4..] == Bytes(v[1..]) && Bytes(w)[4..] == Bytes(w[1..]);
      PokeInjective(v[0], w[0]);
      BytesInjective(v[1..], w[1..]);
      assert v == [v[0]] + v[1..] && w == [w[0]] + w[1..];
    }
  }

  /** The order behind the comparison of two IPv6 addresses: by value, then by scope. */
  function Key(a: XAddr): nat
    requires Wf(a)
  {
    0x1_0000_0000 * Num(Bytes(a.words)) + a.scope
  }

  lemma CmpIsOrder(a: XAddr, b: XAddr)
    requires Wf(a) && Wf(b) && a.af == b.af == Inet6
    ensures Cmp(a, b) == CmpInt(Key(a), Key(b))
  {
    CmpIsNumeric(Bytes(a.words), Bytes(b.words));
  }

  /** Equality of addresses, as far as their family uses them. */
  lemma CmpEqual(a: XAddr, b: XAddr)
    requires Wf(a) && Wf(b)
    ensures Cmp(a, b) == 0 <==> && a.af == b.af && a.af != Unspec
                                && (forall i :: 0 <= i < Words(a.af) ==> a.words[i] == b.words[i])
                                && (a.af == Inet6 ==> a.scope == b.scope)
  {
    if a.af == b.af == Inet6 {
      CmpZero(Bytes(a.words), Bytes(b.words));
      if Bytes(a.words) == Bytes(b.words) { BytesInjective(a.words, b.words); }
      if forall i :: 0 <= i < 4 ==> a.words[i] == b.words[i] { assert a.words == b.words; }
    }
  }

  /** A host is in a network that passed the check exactly when the families agree, the first
      bits of the addresses agree, and for IPv6 the scopes do. */
  lemma NetmatchExactly(host: XAddr, net: XAddr, l: nat)
    requires Wf(host) && Wf(net) && HostIsAll0s(net, l)
    ensures MasklenValid(net.af, l)
    ensures Netmatch(host, net, l) == 0 <==> && host.af == net.af
                                             && FirstBitsAgree(host.words, net.words, l)
                                             && (net.af == Inet6 ==> host.scope == net.scope)
  {
    HostIsAll0sExactly(net, l);
    if host.af == net.af {
      MaskIs(net.af, l);
      var r := AndAddr(host, Netmask(net.af, l).value).value;
      CmpEqual(r, net);
      FirstBitsByWord(host.words, net.words, l);
      forall i | 0 <= i < Words(net.af)
        ensures r.words[i] == net.words[i] <==> TopAgree(host.words[i], net.words[i], Share(l, i))
      {
        WordMatches(host.words[i], net.words[i], Share(l, i));
      }
      assert forall i :: Words(net.af) <= i < 4 ==> TopAgree(host.words[i], net.words[i], Share(l, i));
    }
  }
}
