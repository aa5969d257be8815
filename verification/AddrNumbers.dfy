/** Addresses as numbers, and list entries as they are written: a network of l bits holds the
    addresses with the same quotient by 2^(width - l). */
module AddrNumbers {
  import opened Ints
  import opened Bits
  import opened Wrappers
  import opened Lists
  import opened AddrSpec
  import opened AddrTheorems
  import opened AddrListSpec

  // ---- quotients and bits ---------------------------------------------------------------------

  lemma NoRoom(p: int, d: int)
    requires p > 0 && -p < p * d < p
    ensures d == 0
  {
  }

  lemma QuotientIs(a: nat, p: nat, q: nat, r: nat)
    requires p > 0 && a == p * q + r && r < p
    ensures a / p == q && a % p == r
  {
    var d := a / p - q;
    assert a == p * (a / p) + a % p;
    assert p * d == r - a % p;
    NoRoom(p, d);
  }

  lemma DivTwice(a: nat, p: nat)
    requires p > 0
    ensures a / 2 / p == a / (2 * p)
  {
    var h, q := a / 2, a / 2 / p;
    assert h == p * q + h % p && a == 2 * h + a % 2;
    assert a == (2 * p) * q + (2 * (h % p) + a % 2);
    QuotientIs(a, 2 * p, q, 2 * (h % p) + a % 2);
  }

  lemma {:induction false} ShrIsDiv(a: nat, n: nat)
    ensures Shr(a, n) == a / Pow2(n)
    decreases n
  {
    if n > 0 {
      ShrIsDiv(a / 2, n - 1);
      DivTwice(a, Pow2(n - 1));
    }
  }

  lemma LowIsMod(a: nat, n: nat)
    ensures Low(a, n) == a % Pow2(n)
  {
    LowIsRest(a, n);
    ShlIsMul(Shr(a, n), n);
    ShrIsDiv(a, n);
  }

  ghost predicate SameFrom(a: nat, b: nat, m: nat, n: nat) { forall j: nat :: m <= j < n ==> Bit(a, j) == Bit(b, j) }

  ghost predicate ClearBelow(a: nat, m: nat) { forall j: nat :: j < m ==> !Bit(a, j) }

  /** Two numbers have the same quotient exactly if their bits from m on agree. */
  lemma SameQuotient(a: nat, b: nat, n: nat, m: nat)
    requires a < Pow2(n) && b < Pow2(n) && m <= n
    ensures a / Pow2(m) == b / Pow2(m) <==> SameFrom(a, b, m, n)
  {
    ShrIsDiv(a, m);
    ShrIsDiv(b, m);
    if a / Pow2(m) == b / Pow2(m) {
      forall j: nat | m <= j < n ensures Bit(a, j) == Bit(b, j) {
        BitShr(a, m, j - m);
        BitShr(b, m, j - m);
      }
    }
    if SameFrom(a, b, m, n) {
      ShrBelow(a, n, m);
      ShrBelow(b, n, m);
      forall k: nat | k < n - m ensures Bit(Shr(a, m), k) == Bit(Shr(b, m), k) {
        BitShr(a, m, k);
        BitShr(b, m, k);
      }
      Same(Shr(a, m), Shr(b, m), n - m);
    }
  }

  lemma NoRemainder(a: nat, m: nat)
    ensures a % Pow2(m) == 0 <==> ClearBelow(a, m)
  {
    LowIsMod(a, m);
    if Low(a, m) == 0 {
      forall j: nat | j < m ensures !Bit(a, j) {
        BitLow(a, m, j);
        BitZero(j);
      }
    }
    if ClearBelow(a, m) {
      forall k: nat | k < m ensures Bit(Low(a, m), k) == Bit(0, k) {
        BitLow(a, m, k);
        BitZero(k);
      }
      Same(Low(a, m), 0, m);
    }
  }

  // ---- the number of an address -----------------------------------------------------------------

  /** Words as one number, the first word most significant. */
  function Big(ws: seq<u32>): nat {
    if ws == [] then 0 else 0x1_0000_0000 * Big(ws[..|ws| - 1]) + ws[|ws| - 1]
  }

  lemma WordOnTop(h: nat, w: u32, k: nat)
    ensures Bit(0x1_0000_0000 * h + w, k) == if k < 32 then Bit(w, k) else Bit(h, k - 32)
  {
    Pow2Values();
    ShlIsMul(h, 32);
    OrAdds(h, 32, w);
    BitOr(Shl(h, 32), w, k);
    BitShl(h, 32, k);
    if k >= 32 { BitAbove(w, 32, k); }
  }

  lemma {:induction false} BigBit(ws: seq<u32>, i: nat, j: nat, k: nat)
    requires i < |ws| && j < 32 && k == 32 * (|ws| - 1 - i) + j
    ensures Bit(Big(ws), k) == Bit(ws[i], j)
  {
    var n := |ws| - 1;
    WordOnTop(Big(ws[..n]), ws[n], k);
    if i < n { BigBit(ws[..n], i, j, k - 32); }
  }

  lemma {:induction false} BigBelow(ws: seq<u32>)
    ensures Big(ws) < Pow2(32 * |ws|)
  {
    if ws != [] {
      var n := |ws| - 1;
      BigBelow(ws[..n]);
      Pow2Values();
      Pow2Add(32, 32 * n);
      assert Big(ws) < 0x1_0000_0000 * (Big(ws[..n]) + 1) <= 0x1_0000_0000 * Pow2(32 * n);
    }
  }

  /** The number of bits of an address, and the number they make. */
  function Size(af: Family): nat { if af == Inet then 32 else 128 }

  function Number(a: XAddr): nat
    requires Wf(a)
  {
    if a.af == Inet then a.words[0] else Big(a.words)
  }

  lemma NumberBit(a: XAddr, b: nat)
    requires Wf(a) && b < Size(a.af)
    ensures Bit(Number(a), Size(a.af) - 1 - b) == AddrBit(a.words, b)
  {
    if a.af != Inet { BigBit(a.words, b / 32, 31 - b % 32, 127 - b); }
  }

  lemma NumberBelow(a: XAddr)
    requires Wf(a)
    ensures Number(a) < Pow2(Size(a.af))
  {
    Pow2Values();
    BigBelow(a.words);
  }

  lemma AgreeIsSame(h: XAddr, n: XAddr, l: nat)
    requires Wf(h) && Wf(n) && h.af == n.af && l <= Size(n.af)
    ensures SameFrom(Number(h), Number(n), Size(n.af) - l, Size(n.af)) <==> FirstBitsAgree(h.words, n.words, l)
  {
    var w, x, y := Size(n.af), Number(h), Number(n);
    forall b: nat | b < l
      ensures AddrBit(h.words, b) == AddrBit(n.words, b) <==> Bit(x, w - 1 - b) == Bit(y, w - 1 - b)
    {
      NumberBit(h, b);
      NumberBit(n, b);
    }
    if FirstBitsAgree(h.words, n.words, l) {
      forall j: nat | w - l <= j < w ensures Bit(x, j) == Bit(y, j) {
        assert w - 1 - (w - 1 - j) == j && AddrBit(h.words, w - 1 - j) == AddrBit(n.words, w - 1 - j);
      }
    }
  }

  lemma SameNetwork(h: XAddr, n: XAddr, l: nat)
    requires Wf(h) && Wf(n) && h.af == n.af && l <= Size(n.af)
    ensures var m := Pow2(Size(n.af) - l);
            Number(h) / m == Number(n) / m <==> FirstBitsAgree(h.words, n.words, l)
  {
    NumberBelow(h);
    NumberBelow(n);
    SameQuotient(Number(h), Number(n), Size(n.af), Size(n.af) - l);
    AgreeIsSame(h, n, l);
  }

  lemma HostPart(a: XAddr, l: nat)
    requires Wf(a) && a.af != Unspec && l <= Size(a.af)
    ensures Number(a) % Pow2(Size(a.af) - l) == 0 <==>
              forall i :: 0 <= i < Words(a.af) ==> LowClear(a.words[i], Share(l, i))
  {
    var w := Size(a.af);
    NoRemainder(Number(a), w - l);
    if ClearBelow(Number(a), w - l) {
      forall i | 0 <= i < Words(a.af) ensures LowClear(a.words[i], Share(l, i)) {
        forall j: nat | j < 32 - Share(l, i) ensures !Bit(a.words[i], j) {
          var b := 32 * i + (31 - j);
          assert b / 32 == i && b % 32 == 31 - j && b >= l;
          NumberBit(a, b);
          assert !Bit(Number(a), w - 1 - b);
        }
      }
    }
    if forall i :: 0 <= i < Words(a.af) ==> LowClear(a.words[i], Share(l, i)) {
      forall j: nat | j < w - l ensures !Bit(Number(a), j) {
        var b := w - 1 - j;
        NumberBit(a, b);
        assert LowClear(a.words[b / 32], Share(l, b / 32));
      }
    }
  }

  /** The check on a network: the mask is not too long and the host part of the number is 0. */
  lemma NetworkIsValid(net: XAddr, l: nat)
    requires Wf(net)
    ensures HostIsAll0s(net, l) <==>
              net.af != Unspec && l <= Size(net.af) && Number(net) % Pow2(Size(net.af) - l) == 0
  {
    HostIsAll0sExactly(net, l);
    if net.af != Unspec && l <= Size(net.af) { HostPart(net, l); }
  }

  /** An address is in a network that passed the check exactly if the families agree, the
      numbers have the same quotient, and for IPv6 the scopes agree. */
  lemma InNetwork(host: XAddr, net: XAddr, l: nat)
    requires Wf(host) && Wf(net) && HostIsAll0s(net, l)
    ensures l <= Size(net.af)
    ensures var m := Pow2(Size(net.af) - l);
            Netmatch(host, net, l) == 0 <==> && host.af == net.af && Number(host) / m == Number(net) / m
                                             && (net.af == Inet6 ==> host.scope == net.scope)
  {
    NetmatchExactly(host, net, l);
    if host.af == net.af { SameNetwork(host, net, l); }
  }

  // ---- entries as they are written ---------------------------------------------------------------

  lemma {:induction false} SlashIs(p: string, n: nat)
    requires n <= |p| && '/' !in p[..n] && (n < |p| ==> p[n] == '/')
    ensures Slash(p) == n
  {
    if n > 0 {
      assert p[0] in p[..n];
      assert p[1..][..n - 1] == p[..n][1..];
      SlashIs(p[1..], n - 1);
    }
  }

  /** The network an address and a mask length stand for. */
  function Network(net: XAddr, l: nat): Cidr
    requires Wf(net)
  {
    if net.af != Unspec && l <= Size(net.af) && Number(net) % Pow2(Size(net.af) - l) == 0 then Net(net, l)
    else Inconsistent
  }

  /** "base/mask", at most 63 characters: a network if the base is an address and the mask a
      number up to 128, otherwise no network at all. */
  lemma MaskedText(env: Env, base: string, mask: string)
    requires WfEnv(env) && '/' !in base && |base| + 1 + |mask| < 64
    ensures var (l, read) := env.strtoul(mask);
            PtonCidr(env, base + "/" + mask)
            == if mask == "" || read < |mask| || l > 128 || env.pton(base).None? then NotCidr
               else Network(env.pton(base).value, l)
  {
    var p, n := base + "/" + mask, |base|;
    assert p[..n] == base && p[n] == '/' && p[n + 1..] == mask;
    SlashIs(p, n);
    if env.pton(base).Some? { NetworkIsValid(env.pton(base).value, env.strtoul(mask).0); }
  }

  /** Text without a slash, at most 63 characters: the single address it stands for. */
  lemma PlainText(env: Env, base: string)
    requires WfEnv(env) && '/' !in base && |base| < 64
    ensures PtonCidr(env, base) == if env.pton(base).None? then NotCidr
                                   else Net(env.pton(base).value, Size(env.pton(base).value.af))
  {
    assert base[..|base|] == base;
    SlashIs(base, |base|);
    var a := env.pton(base);
    if a.Some? {
      NetworkIsValid(a.value, Size(a.value.af));
      assert Pow2(0) == 1;
    }
  }

  lemma LongText(env: Env, p: string)
    requires WfEnv(env) && |p| >= 64
    ensures PtonCidr(env, p) == NotCidr
  {
  }

  /** The answer for a list of one entry: 0 without a match, 1 with one, -1 with a negated one. */
  function Answer(matched: bool, neg: bool): int { if !matched then 0 else if neg then -1 else 1 }

  lemma OneEntry(env: Env, addr: string, p: string, neg: bool)
    requires WfEnv(env) && env.pton(addr).Some? && p != "" && NoComma(p) && (!neg ==> p[0] != '!')
    ensures MatchList(env, Some(addr), if neg then "!" + p else p)
            == if PtonCidr(env, p).Inconsistent? then -2 else Answer(Matches(env, Some(addr), p), neg)
  {
    var list := if neg then "!" + p else p;
    assert list[..|list|] == list;
    HeadLenIs(list, |list|);
    assert Split(list) == [list];
    assert neg ==> list[1..] == p;
    var vs := Verdicts(env, Some(addr), Split(list));
    assert vs == [Judge(env, Some(addr), list)];
    assert Scan([], 0) == 0 && Scan([], 1) == 1;
    assert vs[1..] == [];
  }

  /** An address in a network, by numbers. */
  predicate Inside(host: XAddr, net: XAddr, l: nat)
    requires Wf(host) && Wf(net) && l <= Size(net.af)
  {
    var m := Pow2(Size(net.af) - l);
    host.af == net.af && Number(host) / m == Number(net) / m && (net.af == Inet6 ==> host.scope == net.scope)
  }

  lemma NetworkList(env: Env, addr: string, p: string, net: XAddr, l: nat, neg: bool)
    requires WfEnv(env) && env.pton(addr).Some? && p != "" && NoComma(p) && (!neg ==> p[0] != '!')
    requires Wf(net) && net.af != Unspec && PtonCidr(env, p) == Network(net, l)
    ensures MatchList(env, Some(addr), if neg then "!" + p else p)
            == if l <= Size(net.af) && Number(net) % Pow2(Size(net.af) - l) == 0
               then Answer(Inside(env.pton(addr).value, net, l), neg) else -2
  {
    OneEntry(env, addr, p, neg);
    if PtonCidr(env, p).Net? {
      NetworkIsValid(net, l);
      InNetwork(env.pton(addr).value, net, l);
    }
  }

  /** The list "base/mask" or "!base/mask", for a mask that is a number: -2 unless the mask fits
      the family and leaves no host bits; else by whether the address is in the network. */
  lemma MaskedList(env: Env, addr: string, base: string, mask: string, neg: bool)
    requires WfEnv(env) && env.pton(addr).Some? && env.pton(base).Some? && '/' !in base && base != ""
    requires |base| + 1 + |mask| < 64 && NoComma(base + "/" + mask) && (!neg ==> base[0] != '!')
    requires mask != "" && env.strtoul(mask).1 == |mask| && env.strtoul(mask).0 <= 128
    ensures var (host, net, l) := (env.pton(addr).value, env.pton(base).value, env.strtoul(mask).0);
            MatchList(env, Some(addr), if neg then "!" + (base + "/" + mask) else base + "/" + mask)
            == if l <= Size(net.af) && Number(net) % Pow2(Size(net.af) - l) == 0
               then Answer(Inside(host, net, l), neg) else -2
  {
    MaskedText(env, base, mask);
    NetworkList(env, addr, base + "/" + mask, env.pton(base).value, env.strtoul(mask).0, neg);
  }

  /** The list "base" or "!base" without a mask: an address matches itself alone; what is no
      address is a wildcard pattern for the text of the address. */
  lemma PlainList(env: Env, addr: string, base: string, neg: bool)
    requires WfEnv(env) && env.pton(addr).Some? && '/' !in base && base != "" && |base| < 64
    requires NoComma(base) && (!neg ==> base[0] != '!')
    ensures var matched := if env.pton(base).None? then env.matchPattern(addr, base)
                           else Inside(env.pton(addr).value, env.pton(base).value, Size(env.pton(base).value.af));
            MatchList(env, Some(addr), if neg then "!" + base else base) == Answer(matched, neg)
  {
    PlainText(env, base);
    OneEntry(env, addr, base, neg);
    if env.pton(base).Some? {
      var net := env.pton(base).value;
      NetworkIsValid(net, Size(net.af));
      assert Pow2(0) == 1;
      InNetwork(env.pton(addr).value, net, Size(net.af));
    }
  }

  /** No list says anything about what is no address; an empty entry, negated or not, is
      refused. */
  lemma NothingToMatch(env: Env, addr: string, list: string)
    requires WfEnv(env)
    ensures env.pton(addr).None? ==> MatchList(env, Some(addr), list) == 0
    ensures env.pton(addr).Some? && list in ["", "!"] ==> MatchList(env, Some(addr), list) == -2
  {
    if list in ["", "!"] {
      assert list[..|list|] == list;
      HeadLenIs(list, |list|);
      assert Split(list) == [list] && Pattern(list) == "";
      var vs := Verdicts(env, Some(addr), Split(list));
      assert vs[0] == Judge(env, Some(addr), list);
    }
  }
}
