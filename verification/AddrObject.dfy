/** The address operations on structures that are filled and changed in place. */
module AddrObject {
  import opened Ints
  import opened Bits
  import opened Wrappers
  import opened Lists
  import opened AddrSpec
  import opened AddrTheorems
  import opened AddrListSpec

  class Xaddr {
    var af: Family
    const addr32: array<u32>
    var scope: u32

    constructor (x: XAddr)
      requires Wf(x)
      ensures Wide() && View() == x && fresh(addr32)
    {
      af, scope := x.af, x.scope;
      addr32 := new u32[4](i requires 0 <= i < 4 => x.words[i]);
      new;
      assert addr32[..] == x.words;
    }

    predicate Wide() { addr32.Length == 4 }

    function View(): XAddr
      requires Wide()
      reads this, addr32
    {
      XAddr(af, addr32[..], scope)
    }

    /** memset and memcpy of the whole structure. */
    method Assign(x: XAddr)
      requires Wide() && Wf(x)
      modifies this, addr32
      ensures View() == x
    {
      af, scope := x.af, x.scope;
      forall i | 0 <= i < 4 { addr32[i] := x.words[i]; }
      assert addr32[..] == x.words;
    }
  }

  lemma FullMask()
    ensures MaskWord(32) == 0xffff_ffff && MaskWord(0) == 0
  {
    forall k: nat | k < 32 ensures Bit(MaskWord(32), k) == Bit(0xffff_ffff, k) {
      MaskBit(32, k);
      OnesBit(k);
    }
    SameWord(MaskWord(32), 0xffff_ffff);
  }

  /** The words of an IPv6 mask, in a structure that was cleared. */
  method Netmask6(l0: nat, n: Xaddr)
    requires n.Wide() && l0 <= 128 && forall j :: 0 <= j < 4 ==> n.addr32[j] == 0
    modifies n.addr32
    ensures forall j :: 0 <= j < 4 ==> n.addr32[j] == MaskWord(Share(l0, j))
  {
    FullMask();
    var l, i := l0, 0;
    while i < 4 && l >= 32
      invariant 0 <= i <= 4 && l == l0 - 32 * i && l >= 0
      invariant forall j :: 0 <= j < i ==> n.addr32[j] == MaskWord(Share(l0, j))
      invariant forall j :: i <= j < 4 ==> n.addr32[j] == 0
    {
      n.addr32[i] := 0xffff_ffff;
      i, l := i + 1, l - 32;
    }
    if i < 4 && l != 0 { n.addr32[i] := MaskWord(l); }
  }

  method Netmask4(l: nat, n: Xaddr)
    requires n.Wide() && l <= 32 && forall j :: 0 <= j < 4 ==> n.addr32[j] == 0
    modifies n.addr32
    ensures forall j :: 0 <= j < 4 ==> n.addr32[j] == MaskWord(Share(l, j))
  {
    FullMask();
    if l != 0 { n.addr32[0] := MaskWord(l); }
  }

  /** addr_netmask. */
  method AddrNetmask(af: Family, l: nat, n: Xaddr) returns (ret: int)
    requires n.Wide()
    modifies n, n.addr32
    ensures ret == (if MasklenValid(af, l) then 0 else -1)
    ensures ret == 0 ==> Some(n.View()) == Netmask(af, l)
  {
    if !MasklenValid(af, l) { return -1; }
    n.Assign(XAddr(Unspec, [0, 0, 0, 0], 0));
    assert forall j :: 0 <= j < 4 ==> n.addr32[j] == n.View().words[j] == 0;
    n.af := af;
    ret := 0;
    if af == Inet {
      Netmask4(l, n);
    } else {
      Netmask6(l, n);
    }
    assert n.addr32[..] == Netmask(af, l).value.words;
  }

  /** addr_and. */
  method AddrAnd(dst: Xaddr, a: Xaddr, b: Xaddr) returns (ret: int)
    requires dst.Wide() && a.Wide() && b.Wide() && dst != b && dst.addr32 != b.addr32
    modifies dst, dst.addr32
    ensures ret == (if AndAddr(old(a.View()), b.View()).Some? then 0 else -1)
    ensures ret == 0 ==> Some(dst.View()) == AndAddr(old(a.View()), b.View())
  {
    if a.af != b.af { return -1; }
    ghost var x := a.View();
    dst.Assign(a.View());
    if dst.af == Inet {
      dst.addr32[0] := AndWord(dst.addr32[0], b.addr32[0]);
    } else if dst.af == Inet6 {
      var i := 0;
      while i < 4
        invariant 0 <= i <= 4 && dst.af == x.af && dst.scope == x.scope
        invariant forall j :: 0 <= j < i ==> dst.addr32[j] == AndWord(x.words[j], b.addr32[j])
        invariant forall j :: i <= j < 4 ==> dst.addr32[j] == x.words[j]
      {
        dst.addr32[i] := AndWord(dst.addr32[i], b.addr32[i]);
        i := i + 1;
      }
    } else {
      return -1;
    }
    assert dst.addr32[..] == AndAddr(x, b.View()).value.words;
    ret := 0;
  }

  /** addr_invert. */
  method AddrInvert(n: Xaddr) returns (ret: int)
    requires n.Wide()
    modifies n.addr32
    ensures ret == (if n.af == Unspec then -1 else 0)
    ensures ret == 0 ==> Some(n.View()) == Invert(old(n.View()))
  {
    ghost var x := n.View();
    if n.af == Unspec { return -1; }
    if n.af == Inet {
      n.addr32[0] := NotWord(n.addr32[0]);
    } else {
      var i := 0;
      while i < 4
        invariant 0 <= i <= 4
        invariant forall j :: 0 <= j < i ==> n.addr32[j] == NotWord(x.words[j])
        invariant forall j :: i <= j < 4 ==> n.addr32[j] == x.words[j]
      {
        n.addr32[i] := NotWord(n.addr32[i]);
        i := i + 1;
      }
    }
    assert n.addr32[..] == Invert(x).value.words;
    ret := 0;
  }

  /** addr_is_all0s. */
  method AddrIsAll0s(a: Xaddr) returns (ret: int)
    requires a.Wide()
    ensures ret == if IsAll0s(a.View()) then 0 else -1
  {
    if a.af == Unspec { return -1; }
    if a.af == Inet { return if a.addr32[0] == 0 then 0 else -1; }
    var i := 0;
    while i < 4
      invariant 0 <= i <= 4 && forall j :: 0 <= j < i ==> a.addr32[j] == 0
    {
      if a.addr32[i] != 0 { return -1; }
      i := i + 1;
    }
    ret := 0;
  }

  /** addr_host_is_all0s, with the host mask computed by inverting the network mask. */
  method AddrHostIsAll0s(a: Xaddr, masklen: nat) returns (ret: int)
    requires a.Wide()
    ensures ret == if HostIsAll0s(a.View(), masklen) then 0 else -1
  {
    var mask := new Xaddr(XAddr(Unspec, [0, 0, 0, 0], 0));
    var result := new Xaddr(XAddr(Unspec, [0, 0, 0, 0], 0));
    ret := AddrNetmask(a.af, masklen, mask);
    if ret == -1 { return; }
    ret := AddrInvert(mask);
    if ret == -1 { return; }
    ret := AddrAnd(result, a, mask);
    if ret == -1 { return; }
    ret := AddrIsAll0s(result);
  }

  /** Byte i of the address: addr8[i]. */
  function Addr8(words: seq<u32>, i: nat): u8
    requires |words| == 4 && i < 16
  {
    PokeU32(words[i / 4])[i % 4]
  }

  lemma {:induction false} BytesAt(words: seq<u32>, i: nat)
    requires i < 4 * |words|
    ensures Bytes(words)[i] == PokeU32(words[i / 4])[i % 4]
    decreases |words|
  {
    if i >= 4 { BytesAt(words[1..], i - 4); }
  }

  /** addr_cmp. */
  method AddrCmp(a: Xaddr, b: Xaddr) returns (ret: int)
    requires a.Wide() && b.Wide()
    ensures ret == Cmp(a.View(), b.View())
  {
    if a.af != b.af { return if a.af == Inet6 then 1 else -1; }
    if a.af == Unspec { return -1; }
    if a.af == Inet {
      if a.addr32[0] == b.addr32[0] { return 0; }
      return if a.addr32[0] > b.addr32[0] then 1 else -1;
    }
    var v, w := a.addr32[..], b.addr32[..];
    ghost var s, t := Bytes(v), Bytes(w);
    var i := 0;
    while i < 16
      invariant 0 <= i <= 16 && CmpBytes(s, t) == CmpBytes(s[i..], t[i..])
    {
      BytesAt(v, i);
      BytesAt(w, i);
      if Addr8(v, i) != Addr8(w, i) {
        return if Addr8(v, i) > Addr8(w, i) then 1 else -1;
      }
      i := i + 1;
    }
    if a.scope == b.scope { return 0; }
    ret := if a.scope > b.scope then 1 else -1;
  }

  /** addr_netmatch. */
  method AddrNetmatch(host: Xaddr, net: Xaddr, masklen: nat) returns (ret: int)
    requires host.Wide() && net.Wide()
    ensures ret == Netmatch(host.View(), net.View(), masklen)
  {
    var mask := new Xaddr(XAddr(Unspec, [0, 0, 0, 0], 0));
    var result := new Xaddr(XAddr(Unspec, [0, 0, 0, 0], 0));
    if host.af != net.af { return -1; }
    ret := AddrNetmask(host.af, masklen, mask);
    if ret == -1 { return; }
    ret := AddrAnd(result, host, mask);
    if ret == -1 { return; }
    ret := AddrCmp(result, net);
  }

  // ---- lists -------------------------------------------------------------------------------------

  method StrChr(p: string) returns (n: nat)
    ensures n == Slash(p)
  {
    n := 0;
    while n < |p| && p[n] != '/'
      invariant n <= |p| && Slash(p) == n + Slash(p[n..])
    {
      assert p[n..][1..] == p[n + 1..];
      n := n + 1;
    }
  }

  /** addr_pton_cidr. */
  method AddrPtonCidr(env: Env, p: string) returns (r: Cidr)
    requires WfEnv(env)
    ensures r == PtonCidr(env, p)
  {
    if |p| >= 64 { return NotCidr; }
    var n := StrChr(p);
    var masklen := 999;
    if n < |p| {
      var mp := p[n + 1..];
      var (value, read) := env.strtoul(mp);
      masklen := value;
      if mp == "" || read < |mp| || masklen > 128 { return NotCidr; }
    }
    assert n == |p| ==> p[..n] == p;
    var tmp := env.pton(p[..n]);
    if tmp.None? { return NotCidr; }
    if n == |p| { masklen := Width(tmp.value.af); }
    if !MasklenValid(tmp.value.af, masklen) { return Inconsistent; }
    var cell := new Xaddr(tmp.value);
    var all0s := AddrHostIsAll0s(cell, masklen);
    if all0s != 0 { return Inconsistent; }
    r := Net(tmp.value, masklen);
  }

  /** Whether the address matches one pattern; `bad` when its mask is inconsistent. */
  method MatchEntry(env: Env, addr: Option<string>, cp: string) returns (bad: bool, found: bool)
    requires WfEnv(env) && (addr.Some? ==> env.pton(addr.value).Some?)
    ensures bad == PtonCidr(env, cp).Inconsistent? && found == Matches(env, addr, cp)
  {
    var r := AddrPtonCidr(env, cp);
    bad, found := false, false;
    match r
    case Inconsistent => bad := true;
    case Net(net, masklen) =>
      if addr.Some? {
        var host := new Xaddr(env.pton(addr.value).value);
        var network := new Xaddr(net);
        var m := AddrNetmatch(host, network, masklen);
        found := m == 0;
      }
    case NotCidr => found := addr.Some? && env.matchPattern(addr.value, cp);
  }

  /** One entry of a list. */
  method JudgeEntry(env: Env, addr: Option<string>, entry: string) returns (v: Verdict)
    requires WfEnv(env) && (addr.Some? ==> env.pton(addr.value).Some?)
    ensures v == Judge(env, addr, entry)
  {
    var neg := entry != "" && entry[0] == '!';
    var cp := if neg then entry[1..] else entry;
    if cp == "" { return Invalid; }
    var bad, found := MatchEntry(env, addr, cp);
    if bad { return Invalid; }
    v := if !found then Miss else if neg then NegatedHit else Hit;
  }

  /** The scan of what is left of a list. */
  ghost function ScanList(env: Env, addr: Option<string>, rest: Option<string>, ret: int): int
    requires WfEnv(env)
  {
    if rest.None? then ret else Scan(Verdicts(env, addr, Split(rest.value)), ret)
  }

  /** What strsep leaves. */
  function Rest(s: string): Option<string> {
    if HeadLen(s) == |s| then None else Some(s[HeadLen(s) + 1..])
  }

  lemma ScanStep(env: Env, addr: Option<string>, s: string, ret: int)
    requires WfEnv(env)
    ensures ScanList(env, addr, Some(s), ret)
            == match Judge(env, addr, Head(s))
               case Invalid => -2
               case NegatedHit => -1
               case Hit => ScanList(env, addr, Rest(s), 1)
               case Miss => ScanList(env, addr, Rest(s), ret)
  {
    var vs := Verdicts(env, addr, Split(s));
    assert vs[0] == Judge(env, addr, Head(s));
    if HeadLen(s) < |s| {
      SplitTail(s);
      assert vs[1..] == Verdicts(env, addr, Split(s[HeadLen(s) + 1..]));
    } else {
      assert Split(s) == [s] && vs[1..] == [];
      assert Scan([], ret) == ret && Scan([], 1) == 1;
    }
  }

  /** addr_match_list. */
  method AddrMatchList(env: Env, addr: Option<string>, list: string) returns (ret: int)
    requires WfEnv(env)
    ensures ret == MatchList(env, addr, list)
  {
    if addr.Some? && env.pton(addr.value).None? { return 0; }
    ret := 0;
    var rest := Some(list);
    while rest.Some?
      invariant MatchList(env, addr, list) == ScanList(env, addr, rest, ret)
      decreases if rest.None? then 0 else 1 + |rest.value|
    {
      var s := rest.value;
      ScanStep(env, addr, s, ret);
      var v := JudgeEntry(env, addr, Head(s));
      rest := Rest(s);
      match v
      case Invalid => return -2;
      case NegatedHit => return -1;
      case Hit => ret := 1;
      case Miss =>
    }
  }
}
