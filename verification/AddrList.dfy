/** Lists of network and wildcard patterns, with negation. */
module AddrListSpec {
  import opened Wrappers
  import opened Lists
  import opened AddrSpec
  import opened AddrTheorems

  /** The resolver for numeric addresses, strtoul (its value and how many characters it read)
      and the wildcard matcher. */
  datatype Env = Env(
    pton: string -> Option<XAddr>,
    strtoul: string -> (nat, nat),
    matchPattern: (string, string) -> bool)

  /** What the resolver returns is an address of one of the two families. */
  ghost predicate WfEnv(env: Env) {
    forall s :: env.pton(s).Some? ==> Wf(env.pton(s).value) && env.pton(s).value.af != Unspec
  }

  datatype Cidr = NotCidr | Inconsistent | Net(addr: XAddr, masklen: nat)

  /** Index of the first slash, or the length. */
  function Slash(p: string): (n: nat)
    ensures n <= |p| && (n < |p| ==> p[n] == '/')
  {
    if p == "" || p[0] == '/' then 0 else 1 + Slash(p[1..])
  }

  function Masked(a: Option<XAddr>, masklen: nat): Cidr
    requires a.Some? ==> Wf(a.value)
  {
    if a.None? then NotCidr
    else if !MasklenValid(a.value.af, masklen) || !HostIsAll0s(a.value, masklen) then Inconsistent
    else Net(a.value, masklen)
  }

  /** addr_pton_cidr. */
  ghost function PtonCidr(env: Env, p: string): Cidr
    requires WfEnv(env)
  {
    var n := Slash(p);
    if |p| >= 64 then NotCidr
    else if n == |p| then
      var a := env.pton(p);
      Masked(a, if a.None? then 0 else Width(a.value.af))
    else
      var mp := p[n + 1..];
      var (masklen, read) := env.strtoul(mp);
      if mp == "" || read < |mp| || masklen > 128 then NotCidr else Masked(env.pton(p[..n]), masklen)
  }

  /** What one entry says about an address. */
  datatype Verdict = Invalid | Miss | Hit | NegatedHit

  function Negated(entry: string): bool { entry != "" && entry[0] == '!' }

  function Pattern(entry: string): string { if Negated(entry) then entry[1..] else entry }

  /** Whether an address, given as text and as parsed, matches a pattern; without an address
      nothing does. */
  ghost predicate Matches(env: Env, addr: Option<string>, pattern: string)
    requires WfEnv(env)
  {
    && addr.Some? && env.pton(addr.value).Some?
    && match PtonCidr(env, pattern)
       case Net(net, l) => Netmatch(env.pton(addr.value).value, net, l) == 0
       case Inconsistent => false
       case NotCidr => env.matchPattern(addr.value, pattern)
  }

  ghost function Judge(env: Env, addr: Option<string>, entry: string): Verdict
    requires WfEnv(env)
  {
    if Pattern(entry) == "" || PtonCidr(env, Pattern(entry)).Inconsistent? then Invalid
    else if !Matches(env, addr, Pattern(entry)) then Miss
    else if Negated(entry) then NegatedHit
    else Hit
  }

  ghost function Verdicts(env: Env, addr: Option<string>, entries: seq<string>): seq<Verdict>
    requires WfEnv(env)
  {
    seq(|entries|, i requires 0 <= i < |entries| => Judge(env, addr, entries[i]))
  }

  /** The loop over the entries: it stops at the first that is invalid or negated and hit. */
  function Scan(vs: seq<Verdict>, ret: int): int {
    if vs == [] then ret
    else
      match vs[0]
      case Invalid => -2
      case NegatedHit => -1
      case Hit => Scan(vs[1..], 1)
      case Miss => Scan(vs[1..], ret)
  }

  /** addr_match_list. */
  ghost function MatchList(env: Env, addr: Option<string>, list: string): int
    requires WfEnv(env)
  {
    if addr.Some? && env.pton(addr.value).None? then 0 else Scan(Verdicts(env, addr, Split(list)), 0)
  }

  // ---- what the result means ---------------------------------------------------------------------

  predicate Decides(v: Verdict) { v == Invalid || v == NegatedHit }

  /** The first entry that is invalid or negated and hit decides. */
  lemma {:induction false} ScanStopsAt(vs: seq<Verdict>, ret: int, i: nat)
    requires i < |vs| && Decides(vs[i]) && forall v :: v in vs[..i] ==> !Decides(v)
    ensures Scan(vs, ret) == if vs[i] == Invalid then -2 else -1
    decreases i
  {
    if i > 0 {
      assert vs[0] in vs[..i] && !Decides(vs[0]);
      assert forall v :: v in vs[1..][..i - 1] ==> v in vs[..i];
      ScanStopsAt(vs[1..], if vs[0] == Hit then 1 else ret, i - 1);
    }
  }

  lemma {:induction false} ScanToEnd(vs: seq<Verdict>, ret: int)
    requires forall v :: v in vs ==> !Decides(v)
    ensures Scan(vs, ret) == if Hit in vs then 1 else ret
  {
    if vs != [] {
      assert vs == [vs[0]] + vs[1..] && !Decides(vs[0]);
      ScanToEnd(vs[1..], if vs[0] == Hit then 1 else ret);
    }
  }

  lemma {:induction false} FirstDecider(vs: seq<Verdict>, v: Verdict) returns (i: nat)
    requires v in vs && Decides(v)
    ensures i < |vs| && Decides(vs[i]) && forall w :: w in vs[..i] ==> !Decides(w)
  {
    if Decides(vs[0]) {
      i := 0;
    } else {
      var j := FirstDecider(vs[1..], v);
      i := j + 1;
      assert vs[..i] == [vs[0]] + vs[1..][..j];
    }
  }

  /** Unless a list has both an invalid entry and a negated hit, order and repetition do not
      matter: invalid lists are refused, then a negated hit wins, then a hit, then nothing. */
  lemma {:induction false} ListMeaning(vs: seq<Verdict>)
    requires Invalid !in vs || NegatedHit !in vs
    ensures Scan(vs, 0) == if Invalid in vs then -2 else if NegatedHit in vs then -1 else if Hit in vs then 1 else 0
  {
    if Invalid in vs || NegatedHit in vs {
      var i := FirstDecider(vs, if Invalid in vs then Invalid else NegatedHit);
      ScanStopsAt(vs, 0, i);
      assert vs[i] in vs;
    } else {
      ScanToEnd(vs, 0);
    }
  }

  lemma VerdictOf(env: Env, addr: Option<string>, entries: seq<string>, v: Verdict)
    requires WfEnv(env)
    ensures v in Verdicts(env, addr, entries) <==> exists e :: e in entries && Judge(env, addr, e) == v
  {
    var vs := Verdicts(env, addr, entries);
    if v in vs {
      var i :| 0 <= i < |vs| && vs[i] == v;
      assert entries[i] in entries && Judge(env, addr, entries[i]) == v;
    }
    if e :| e in entries && Judge(env, addr, e) == v {
      var i :| 0 <= i < |entries| && entries[i] == e;
      assert vs[i] == v;
    }
  }

  /** Two lists with the same entries, in any order and with any repetition, give the same
      answer for every address, unless they hold both an invalid entry and a negated match. */
  lemma {:induction false} OrderIrrelevant(env: Env, addr: Option<string>, p: string, q: string)
    requires WfEnv(env)
    requires forall e :: e in Split(p) <==> e in Split(q)
    requires (forall e :: e in Split(p) ==> !Judge(env, addr, e).Invalid?)
             || (forall e :: e in Split(p) ==> !Judge(env, addr, e).NegatedHit?)
    ensures MatchList(env, addr, p) == MatchList(env, addr, q)
  {
    var vs, ws := Verdicts(env, addr, Split(p)), Verdicts(env, addr, Split(q));
    forall v ensures v in vs <==> v in ws {
      VerdictOf(env, addr, Split(p), v);
      VerdictOf(env, addr, Split(q), v);
    }
    VerdictOf(env, addr, Split(p), Invalid);
    VerdictOf(env, addr, Split(p), NegatedHit);
    ListMeaning(vs);
    ListMeaning(ws);
  }

  /** A negated match refuses an address, a plain one admits it if no negated one does. */
  lemma {:induction false} MatchListMeaning(env: Env, addr: string, list: string)
    requires WfEnv(env) && env.pton(addr).Some?
    requires forall e :: e in Split(list) ==> !Judge(env, Some(addr), e).Invalid?
    ensures var hit := (neg: bool) =>
              exists e :: e in Split(list) && Negated(e) == neg && Matches(env, Some(addr), Pattern(e));
            MatchList(env, Some(addr), list) == if hit(true) then -1 else if hit(false) then 1 else 0
  {
    var vs := Verdicts(env, Some(addr), Split(list));
    VerdictOf(env, Some(addr), Split(list), Invalid);
    VerdictOf(env, Some(addr), Split(list), NegatedHit);
    VerdictOf(env, Some(addr), Split(list), Hit);
    ListMeaning(vs);
  }

  lemma {:induction false} SplitFront(e: string, p: string)
    requires NoComma(e)
    ensures Split(e + "," + p) == [e] + Split(p)
  {
    var s := e + "," + p;
    assert s[..|e|] == e && s[|e| + 1..] == p;
    HeadLenIs(s, |e|);
  }

  lemma FirstDecides(env: Env, addr: Option<string>, e: string, p: string)
    requires WfEnv(env) && NoComma(e) && (addr.Some? ==> env.pton(addr.value).Some?) && Decides(Judge(env, addr, e))
    ensures MatchList(env, addr, e + "," + p) == if Judge(env, addr, e) == Invalid then -2 else -1
  {
    SplitFront(e, p);
    var vs := Verdicts(env, addr, Split(e + "," + p));
    assert vs[0] == Judge(env, addr, e);
    ScanStopsAt(vs, 0, 0);
  }

  /** The exception is real for every list: put an entry that is invalid and one that is
      negated and matches in front of it, and the answer depends on which comes first. */
  lemma OrderMatters(env: Env, addr: Option<string>, e: string, f: string, p: string)
    requires WfEnv(env) && NoComma(e) && NoComma(f) && (addr.Some? ==> env.pton(addr.value).Some?)
    requires Judge(env, addr, e).Invalid? && Judge(env, addr, f).NegatedHit?
    ensures var l, r := e + "," + (f + "," + p), f + "," + (e + "," + p);
            && (forall x :: x in Split(l) <==> x in Split(r))
            && MatchList(env, addr, l) == -2 && MatchList(env, addr, r) == -1
  {
    SplitFront(e, f + "," + p);
    SplitFront(f, p);
    SplitFront(f, e + "," + p);
    SplitFront(e, p);
    FirstDecides(env, addr, e, f + "," + p);
    FirstDecides(env, addr, f, e + "," + p);
  }

  lemma {:induction false} FrontTwice(p: string, e: string, f: string)
    requires e in Split(p) && f in Split(p) && NoComma(e) && NoComma(f)
    ensures SameEntries(p, e + "," + (f + "," + p))
  {
    SplitFront(e, f + "," + p);
    SplitFront(f, p);
    assert Split(e + "," + (f + "," + p)) == [e] + ([f] + Split(p));
  }

  lemma {:induction false} OrderDecides(env: Env, addr: Option<string>, p: string, e: string, f: string)
    returns (q: string)
    requires WfEnv(env) && (addr.Some? ==> env.pton(addr.value).Some?) && e in Split(p) && f in Split(p)
    requires Judge(env, addr, e).Invalid? && Judge(env, addr, f).NegatedHit?
    ensures SameEntries(p, q) && MatchList(env, addr, q) != MatchList(env, addr, p)
  {
    SplitHasNoCommas(p, e);
    SplitHasNoCommas(p, f);
    if MatchList(env, addr, p) == -2 {
      q := f + "," + (e + "," + p);
      FirstDecides(env, addr, f, e + "," + p);
      FrontTwice(p, f, e);
    } else {
      q := e + "," + (f + "," + p);
      FirstDecides(env, addr, e, f + "," + p);
      FrontTwice(p, e, f);
    }
  }

  /** So for every list and address: the answer does not depend on order and repetition exactly if
      the address cannot be parsed, or the list does not hold both an invalid entry and a negated
      match. */
  lemma {:induction false} OrderIrrelevantExactly(env: Env, addr: Option<string>, p: string)
    requires WfEnv(env)
    ensures (forall q :: SameEntries(p, q) ==> MatchList(env, addr, q) == MatchList(env, addr, p)) <==>
              || (addr.Some? && env.pton(addr.value).None?)
              || (forall e :: e in Split(p) ==> !Judge(env, addr, e).Invalid?)
              || (forall e :: e in Split(p) ==> !Judge(env, addr, e).NegatedHit?)
  {
    if addr.Some? && env.pton(addr.value).None? { return; }
    if e, f :| e in Split(p) && f in Split(p) && Judge(env, addr, e).Invalid? && Judge(env, addr, f).NegatedHit? {
      var q := OrderDecides(env, addr, p, e, f);
    } else {
      forall q | SameEntries(p, q) ensures MatchList(env, addr, q) == MatchList(env, addr, p) {
        OrderIrrelevant(env, addr, p, q);
      }
    }
  }

  ghost predicate SameEntries(p: string, q: string) { forall e :: e in Split(p) <==> e in Split(q) }

  lemma {:induction false} SplitHasNoCommas(p: string, e: string)
    requires e in Split(p)
    ensures NoComma(e)
    decreases |p|
  {
    HeadLenStops(p);
    if HeadLen(p) < |p| && e != Head(p) {
      SplitTail(p);
      SplitHasNoCommas(p[HeadLen(p) + 1..], e);
    }
  }

  /** A network entry matches exactly the hosts of its family whose first bits are its own. */
  lemma NetworkEntry(env: Env, addr: string, pattern: string)
    requires WfEnv(env) && env.pton(addr).Some? && PtonCidr(env, pattern).Net?
    ensures var host, net, l := env.pton(addr).value, PtonCidr(env, pattern).addr, PtonCidr(env, pattern).masklen;
            && Wf(host) && Wf(net) && MasklenValid(net.af, l)
            && (Matches(env, Some(addr), pattern) <==>
                && host.af == net.af && FirstBitsAgree(host.words, net.words, l)
                && (net.af == Inet6 ==> host.scope == net.scope))
  {
    NetmatchExactly(env.pton(addr).value, PtonCidr(env, pattern).addr, PtonCidr(env, pattern).masklen);
  }
}
