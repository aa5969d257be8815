/** Key options as they travel between the monitor and its child: the wire types of section 5
    of RFC 4251, and the layout of an options record. */
module AuthOptSpec {
  import opened Ints
  import opened Wrappers

  const SSHBUF_SIZE_MAX: int := 0x800_0000

  datatype Error = MessageIncomplete | StringTooLarge | InvalidFormat | NoBufferSpace | InternalError

  datatype Parse<T> = Bad(err: Error) | Got(value: T, rest: seq<u8>)

  type u64 = x: int | 0 <= x < 0x1_0000_0000_0000_0000

  datatype Flags = Flags(
    permitPortForwarding: int,
    permitAgentForwarding: int,
    permitX11Forwarding: int,
    permitPty: int,
    permitUserRc: int,
    restricted: int,
    certAuthority: int)

  /** A string that may be absent is a C pointer that may be NULL. */
  datatype Strings = Strings(
    certPrincipals: Option<seq<u8>>,
    forceCommand: Option<seq<u8>>,
    requiredFromHostCert: Option<seq<u8>>,
    requiredFromHostKeys: Option<seq<u8>>)

  datatype Arrays = Arrays(env: seq<seq<u8>>, permitopen: seq<seq<u8>>, permitlisten: seq<seq<u8>>)

  datatype Head = Head(flags: Flags, validBefore: u64, tunDevice: int)

  datatype Opts = Opts(head: Head, strings: Strings, arrays: Arrays)

  /** C strings hold no NUL, and the tunnel number is a C int. */
  predicate CStr(s: seq<u8>) { 0 !in s }

  predicate CStrOpt(s: Option<seq<u8>>) { s.Some? ==> CStr(s.value) }

  predicate CStrs(ss: seq<seq<u8>>) { forall i :: 0 <= i < |ss| ==> CStr(ss[i]) }

  predicate Wf(o: Opts) {
    && -INT_MAX - 1 <= o.head.tunDevice <= INT_MAX
    && CStrOpt(o.strings.certPrincipals) && CStrOpt(o.strings.forceCommand)
    && CStrOpt(o.strings.requiredFromHostCert) && CStrOpt(o.strings.requiredFromHostKeys)
    && CStrs(o.arrays.env) && CStrs(o.arrays.permitopen) && CStrs(o.arrays.permitlisten)
  }

  // ---- writing -----------------------------------------------------------------------------

  function PutU64(x: u64): (s: seq<u8>)
    ensures |s| == 8
  {
    var v: int := x;
    PokeU32(v / 0x1_0000_0000) + PokeU32(v % 0x1_0000_0000)
  }

  /** A length and the bytes; longer strings are refused before this is reached. */
  function PutString(s: seq<u8>): (r: seq<u8>)
    ensures |r| == 4 + |s|
  {
    PokeU32(ToU32(|s|)) + s
  }

  function PutNullable(s: Option<seq<u8>>): seq<u8> {
    if s.None? then [1] + PutString([]) else [0] + PutString(s.value)
  }

  function PutStrings(ss: seq<seq<u8>>): (r: seq<u8>)
    ensures |r| >= 4 * |ss|
  {
    if ss == [] then [] else PutString(ss[0]) + PutStrings(ss[1..])
  }

  function PutArray(ss: seq<seq<u8>>): seq<u8> {
    PokeU32(ToU32(|ss|)) + PutString(PutStrings(ss))
  }

  /** An int stored in one byte. */
  function Byte(x: int): u8 { x % 256 }

  function PutFlags(f: Flags): (s: seq<u8>)
    ensures |s| == 7
  {
    [Byte(f.permitPortForwarding), Byte(f.permitAgentForwarding), Byte(f.permitX11Forwarding), Byte(f.permitPty),
     Byte(f.permitUserRc), Byte(f.restricted), Byte(f.certAuthority)]
  }

  function TunWord(t: int): u32 { if t < 0 then 0 else ToU32(t) }

  function PutHead(h: Head): seq<u8> {
    PutFlags(h.flags) + (PutU64(h.validBefore) + ([if h.tunDevice == -1 then 1 else 0] + PokeU32(TunWord(h.tunDevice))))
  }

  function PutStringOpts(s: Strings): seq<u8> {
    PutNullable(s.certPrincipals) + (PutNullable(s.forceCommand)
    + (PutNullable(s.requiredFromHostCert) + PutNullable(s.requiredFromHostKeys)))
  }

  function PutArrays(a: Arrays): seq<u8> {
    PutArray(a.env) + (PutArray(a.permitopen) + PutArray(a.permitlisten))
  }

  /** What is sent for options that must not be revealed. */
  function Masked(o: Opts): Opts {
    o.(strings := Strings(Some([121, 101, 115]), Some([116, 114, 117, 101]), None, None), arrays := Arrays([], [], []))
  }

  function Shown(o: Opts, untrusted: bool): Opts { if untrusted then Masked(o) else o }

  /** sshauthopt_serialise, where everything fits. */
  function Put(o: Opts): seq<u8> {
    PutHead(o.head) + (PutStringOpts(o.strings) + PutArrays(o.arrays))
  }

  // ---- reading -----------------------------------------------------------------------------

  function GetU8(s: seq<u8>): Parse<u8> {
    if |s| < 1 then Bad(MessageIncomplete) else Got(s[0], s[1..])
  }

  function GetU32(s: seq<u8>): Parse<u32> {
    if |s| < 4 then Bad(MessageIncomplete) else Got(PeekU32(s), s[4..])
  }

  function GetU64(s: seq<u8>): Parse<u64> {
    if |s| < 8 then Bad(MessageIncomplete)
    else
      var hi: int, lo: int := PeekU32(s), PeekU32(s[4..]);
      Got(0x1_0000_0000 * hi + lo, s[8..])
  }

  function GetString(s: seq<u8>): Parse<seq<u8>> {
    if |s| < 4 then Bad(MessageIncomplete)
    else
      var n := PeekU32(s);
      if n > SSHBUF_SIZE_MAX - 4 then Bad(StringTooLarge)
      else if |s| - 4 < n then Bad(MessageIncomplete)
      else Got(s[4..4 + n], s[4 + n..])
  }

  /** A NUL is tolerated as the last byte, and then ends the string. */
  function GetCString(s: seq<u8>): Parse<seq<u8>> {
    var r := GetString(s);
    if r.Bad? then r
    else
      var v := r.value;
      if v == [] then r
      else if 0 in v[..|v| - 1] then Bad(InvalidFormat)
      else if v[|v| - 1] == 0 then Got(v[..|v| - 1], r.rest)
      else r
  }

  function GetNullable(s: seq<u8>): Parse<Option<seq<u8>>> {
    var f := GetU8(s);
    if f.Bad? then Bad(f.err)
    else
      var r := GetCString(f.rest);
      if r.Bad? then Bad(r.err) else Got(if f.value != 0 then None else Some(r.value), r.rest)
  }

  function GetStrings(b: seq<u8>, n: nat): Parse<seq<seq<u8>>>
    decreases n, b
  {
    if n == 0 then Got([], b)
    else
      var r := GetCString(b);
      if r.Bad? then Bad(r.err)
      else
        var t := GetStrings(r.rest, n - 1);
        if t.Bad? then t else Got([r.value] + t.value, t.rest)
  }

  /** Bytes of the blob after the announced strings are ignored. */
  function GetArray(s: seq<u8>): Parse<seq<seq<u8>>> {
    var c := GetU32(s);
    if c.Bad? then Bad(c.err)
    else
      var b := GetString(c.rest);
      if b.Bad? then Bad(b.err)
      else if c.value > INT_MAX then Bad(InvalidFormat)
      else
        var a := GetStrings(b.value, c.value);
        if a.Bad? then a else Got(a.value, b.rest)
  }

  function GetFlags(s: seq<u8>): Parse<Flags> {
    if |s| < 7 then Bad(MessageIncomplete)
    else Got(Flags(s[0], s[1], s[2], s[3], s[4], s[5], s[6]), s[7..])
  }

  /** A u_int read as an int. */
  function Signed(w: u32): int { if w <= INT_MAX then w else w - 0x1_0000_0000 }

  function GetTun(s: seq<u8>): Parse<int> {
    var f := GetU8(s);
    if f.Bad? then Bad(f.err)
    else
      var w := GetU32(f.rest);
      if w.Bad? then Bad(w.err) else Got(if f.value != 0 then -1 else Signed(w.value), w.rest)
  }

  function GetHead(s: seq<u8>): Parse<Head> {
    var f := GetFlags(s);
    if f.Bad? then Bad(f.err)
    else
      var v := GetU64(f.rest);
      if v.Bad? then Bad(v.err)
      else
        var t := GetTun(v.rest);
        if t.Bad? then Bad(t.err) else Got(Head(f.value, v.value, t.value), t.rest)
  }

  function GetStringOpts(s: seq<u8>): Parse<Strings> {
    var p := GetNullable(s);
    if p.Bad? then Bad(p.err)
    else
      var c := GetNullable(p.rest);
      if c.Bad? then Bad(c.err)
      else
        var hc := GetNullable(c.rest);
        if hc.Bad? then Bad(hc.err)
        else
          var hk := GetNullable(hc.rest);
          if hk.Bad? then Bad(hk.err) else Got(Strings(p.value, c.value, hc.value, hk.value), hk.rest)
  }

  function GetArrays(s: seq<u8>): Parse<Arrays> {
    var e := GetArray(s);
    if e.Bad? then Bad(e.err)
    else
      var o := GetArray(e.rest);
      if o.Bad? then Bad(o.err)
      else
        var l := GetArray(o.rest);
        if l.Bad? then Bad(l.err) else Got(Arrays(e.value, o.value, l.value), l.rest)
  }

  /** sshauthopt_deserialise. */
  function Get(s: seq<u8>): Parse<Opts> {
    var h := GetHead(s);
    if h.Bad? then Bad(h.err)
    else
      var t := GetStringOpts(h.rest);
      if t.Bad? then Bad(t.err)
      else
        var a := GetArrays(t.rest);
        if a.Bad? then Bad(a.err) else Got(Opts(h.value, t.value, a.value), a.rest)
  }
}

module AuthOptTheorems {
  import opened Ints
  import opened Wrappers
  import opened AuthOptSpec

  lemma Tail(a: seq<u8>, b: seq<u8>, rest: seq<u8>)
    ensures (a + b) + rest == a + (b + rest)
    ensures (a + b)[|a|..] == b
  {
  }

  lemma U32RoundTrip(w: u32, rest: seq<u8>)
    ensures GetU32(PokeU32(w) + rest) == Got(w, rest)
  {
    PeekOfPoke(w, rest);
    Tail(PokeU32(w), rest, []);
  }

  lemma U64RoundTrip(x: u64, rest: seq<u8>)
    ensures GetU64(PutU64(x) + rest) == Got(x, rest)
  {
    var v: int := x;
    var hi, lo := PokeU32(v / 0x1_0000_0000), PokeU32(v % 0x1_0000_0000);
    var s := PutU64(x) + rest;
    Tail(hi, lo, rest);
    PeekOfPoke(v / 0x1_0000_0000, lo + rest);
    assert s[4..] == lo + rest;
    PeekOfPoke(v % 0x1_0000_0000, rest);
    assert s[8..] == rest;
  }

  lemma StringAt(s: seq<u8>, v: seq<u8>, rest: seq<u8>)
    requires |v| <= SSHBUF_SIZE_MAX - 4 && |s| >= 4 && PeekU32(s) == |v| && s[4..] == v + rest
    ensures GetString(s) == Got(v, rest)
  {
    assert s[4..4 + |v|] == s[4..][..|v|] == v;
    assert s[4 + |v|..] == s[4..][|v|..] == rest;
  }

  lemma StringRoundTrip(v: seq<u8>, rest: seq<u8>)
    requires |v| <= SSHBUF_SIZE_MAX - 4
    ensures GetString(PutString(v) + rest) == Got(v, rest)
  {
    Tail(PokeU32(|v|), v, rest);
    PeekOfPoke(|v|, v + rest);
    StringAt(PutString(v) + rest, v, rest);
  }

  lemma CStringRoundTrip(v: seq<u8>, rest: seq<u8>)
    requires |v| <= SSHBUF_SIZE_MAX - 4 && CStr(v)
    ensures GetCString(PutString(v) + rest) == Got(v, rest)
  {
    StringRoundTrip(v, rest);
  }

  /** NULL and the empty string stay apart. */
  lemma NullableRoundTrip(s: Option<seq<u8>>, rest: seq<u8>)
    requires |PutNullable(s)| <= SSHBUF_SIZE_MAX && CStrOpt(s)
    ensures GetNullable(PutNullable(s) + rest) == Got(s, rest)
  {
    var flag := if s.None? then [1] else [0];
    var v := if s.None? then [] else s.value;
    Tail(flag, PutString(v), rest);
    assert (PutNullable(s) + rest)[1..] == PutString(v) + rest;
    CStringRoundTrip(v, rest);
  }

  lemma {:induction false} StringsRoundTrip(ss: seq<seq<u8>>, rest: seq<u8>)
    requires CStrs(ss) && |PutStrings(ss)| <= SSHBUF_SIZE_MAX
    ensures GetStrings(PutStrings(ss) + rest, |ss|) == Got(ss, rest)
    decreases |ss|
  {
    if ss != [] {
      Tail(PutString(ss[0]), PutStrings(ss[1..]), rest);
      CStringRoundTrip(ss[0], PutStrings(ss[1..]) + rest);
      StringsRoundTrip(ss[1..], rest);
      StringsCons(PutStrings(ss) + rest, ss[0], PutStrings(ss[1..]) + rest, ss[1..], rest);
      assert ss == [ss[0]] + ss[1..];
    }
  }

  lemma {:induction false} StringsCons(b: seq<u8>, v: seq<u8>, b': seq<u8>, vs: seq<seq<u8>>, rest: seq<u8>)
    requires GetCString(b) == Got(v, b') && GetStrings(b', |vs|) == Got(vs, rest)
    ensures GetStrings(b, |vs| + 1) == Got([v] + vs, rest)
  {
  }

  lemma {:induction false} ArrayParts(n: nat, b: seq<u8>, ss: seq<seq<u8>>, rest: seq<u8>)
    requires n <= INT_MAX && |b| <= SSHBUF_SIZE_MAX - 4 && GetStrings(b, n) == Got(ss, [])
    ensures GetArray(PokeU32(n) + (PutString(b) + rest)) == Got(ss, rest)
  {
    U32RoundTrip(n, PutString(b) + rest);
    StringRoundTrip(b, rest);
  }

  lemma {:induction false} ArrayShape(ss: seq<seq<u8>>)
    requires |PutArray(ss)| <= SSHBUF_SIZE_MAX
    ensures |ss| <= INT_MAX && |PutStrings(ss)| <= SSHBUF_SIZE_MAX - 8
    ensures PutArray(ss) == PokeU32(|ss|) + PutString(PutStrings(ss))
  {
    assert |PutArray(ss)| == 4 + |PutString(PutStrings(ss))|;
  }

  lemma ArrayRoundTrip(ss: seq<seq<u8>>, rest: seq<u8>)
    requires CStrs(ss) && |PutArray(ss)| <= SSHBUF_SIZE_MAX
    ensures GetArray(PutArray(ss) + rest) == Got(ss, rest)
  {
    ArrayShape(ss);
    var n, b := |ss|, PutStrings(ss);
    assert GetStrings(b, n) == Got(ss, []) by {
      StringsRoundTrip(ss, []);
      assert b + [] == b;
    }
    ArrayParts(n, b, ss, rest);
    Tail(PokeU32(n), PutString(b), rest);
  }

  // ---- the record ------------------------------------------------------------------------------

  function ReadFlags(f: Flags): Flags {
    Flags(Byte(f.permitPortForwarding), Byte(f.permitAgentForwarding), Byte(f.permitX11Forwarding), Byte(f.permitPty),
          Byte(f.permitUserRc), Byte(f.restricted), Byte(f.certAuthority))
  }

  /** What the reader sees: flags reduced to a byte, and 0 for a tunnel number below -1. */
  function ReadHead(h: Head): Head {
    Head(ReadFlags(h.flags), h.validBefore, if h.tunDevice < -1 then 0 else h.tunDevice)
  }

  lemma FlagsRoundTrip(f: Flags, rest: seq<u8>)
    ensures GetFlags(PutFlags(f) + rest) == Got(ReadFlags(f), rest)
  {
    Tail(PutFlags(f), rest, []);
  }

  lemma TunRoundTrip(t: int, rest: seq<u8>)
    requires -INT_MAX - 1 <= t <= INT_MAX
    ensures GetTun([if t == -1 then 1 else 0] + PokeU32(TunWord(t)) + rest) == Got(if t < -1 then 0 else t, rest)
  {
    var flag: seq<u8> := [if t == -1 then 1 else 0];
    Tail(flag, PokeU32(TunWord(t)), rest);
    assert (flag + (PokeU32(TunWord(t)) + rest))[1..] == PokeU32(TunWord(t)) + rest;
    U32RoundTrip(TunWord(t), rest);
  }

  lemma HeadRoundTrip(h: Head, rest: seq<u8>)
    requires -INT_MAX - 1 <= h.tunDevice <= INT_MAX
    ensures GetHead(PutHead(h) + rest) == Got(ReadHead(h), rest)
  {
    var tun := [if h.tunDevice == -1 then 1 else 0] + PokeU32(TunWord(h.tunDevice));
    Tail(PutFlags(h.flags), PutU64(h.validBefore) + tun, rest);
    Tail(PutU64(h.validBefore), tun, rest);
    FlagsRoundTrip(h.flags, PutU64(h.validBefore) + (tun + rest));
    U64RoundTrip(h.validBefore, tun + rest);
    TunRoundTrip(h.tunDevice, rest);
  }

  lemma StringOptsRoundTrip(s: Strings, rest: seq<u8>)
    requires CStrOpt(s.certPrincipals) && CStrOpt(s.forceCommand)
    requires CStrOpt(s.requiredFromHostCert) && CStrOpt(s.requiredFromHostKeys)
    requires |PutStringOpts(s)| <= SSHBUF_SIZE_MAX
    ensures GetStringOpts(PutStringOpts(s) + rest) == Got(s, rest)
  {
    var p, c, hc, hk := PutNullable(s.certPrincipals), PutNullable(s.forceCommand),
      PutNullable(s.requiredFromHostCert), PutNullable(s.requiredFromHostKeys);
    Tail(p, c + (hc + hk), rest);
    Tail(c, hc + hk, rest);
    Tail(hc, hk, rest);
    NullableRoundTrip(s.certPrincipals, c + (hc + (hk + rest)));
    NullableRoundTrip(s.forceCommand, hc + (hk + rest));
    NullableRoundTrip(s.requiredFromHostCert, hk + rest);
    NullableRoundTrip(s.requiredFromHostKeys, rest);
  }

  lemma ArraysRoundTrip(a: Arrays, rest: seq<u8>)
    requires CStrs(a.env) && CStrs(a.permitopen) && CStrs(a.permitlisten) && |PutArrays(a)| <= SSHBUF_SIZE_MAX
    ensures GetArrays(PutArrays(a) + rest) == Got(a, rest)
  {
    var e, o, l := PutArray(a.env), PutArray(a.permitopen), PutArray(a.permitlisten);
    Tail(e, o + l, rest);
    Tail(o, l, rest);
    ArrayRoundTrip(a.env, o + (l + rest));
    ArrayRoundTrip(a.permitopen, l + rest);
    ArrayRoundTrip(a.permitlisten, rest);
  }

  /** Every record that fits a buffer is read back, up to the reduction of its head, and
      exactly the bytes after it are left. */
  lemma ReadBack(o: Opts, rest: seq<u8>)
    requires Wf(o) && |Put(o)| <= SSHBUF_SIZE_MAX
    ensures Get(Put(o) + rest) == Got(o.(head := ReadHead(o.head)), rest)
  {
    var h, s, a := PutHead(o.head), PutStringOpts(o.strings), PutArrays(o.arrays);
    Tail(h, s + a, rest);
    Tail(s, a, rest);
    HeadRoundTrip(o.head, s + (a + rest));
    StringOptsRoundTrip(o.strings, a + rest);
    ArraysRoundTrip(o.arrays, rest);
  }

  predicate OneByte(x: int) { 0 <= x < 256 }

  /** The flags are bytes and the tunnel number is -1 or not negative. */
  predicate Faithful(h: Head) {
    && OneByte(h.flags.permitPortForwarding) && OneByte(h.flags.permitAgentForwarding)
    && OneByte(h.flags.permitX11Forwarding) && OneByte(h.flags.permitPty) && OneByte(h.flags.permitUserRc)
    && OneByte(h.flags.restricted) && OneByte(h.flags.certAuthority) && h.tunDevice >= -1
  }

  /** The exact condition for a record to survive the journey unchanged. */
  lemma RoundTripExactly(o: Opts, rest: seq<u8>)
    requires Wf(o) && |Put(o)| <= SSHBUF_SIZE_MAX
    ensures Get(Put(o) + rest) == Got(o, rest) <==> Faithful(o.head)
  {
    ReadBack(o, rest);
    ByteFaithful(o.head.flags);
  }

  /** A tunnel number below -1 in an otherwise empty record. */
  lemma TunnelIsLost()
    ensures var o := Opts(Head(Flags(0, 0, 0, 0, 0, 0, 0), 0, -2), Strings(None, None, None, None), Arrays([], [], []));
            Get(Put(o)) != Got(o, [])
  {
    var o := Opts(Head(Flags(0, 0, 0, 0, 0, 0, 0), 0, -2), Strings(None, None, None, None), Arrays([], [], []));
    assert |PutHead(o.head)| == 20 && |PutStringOpts(o.strings)| == 20 && |PutArrays(o.arrays)| == 24;
    assert Put(o) + [] == Put(o);
    RoundTripExactly(o, []);
  }

  lemma ByteFaithful(f: Flags)
    ensures ReadFlags(f) == f <==> && OneByte(f.permitPortForwarding) && OneByte(f.permitAgentForwarding)
                                   && OneByte(f.permitX11Forwarding) && OneByte(f.permitPty)
                                   && OneByte(f.permitUserRc) && OneByte(f.restricted) && OneByte(f.certAuthority)
  {
  }

  /** An untrusted reader learns the flags, the expiry and the tunnel, and nothing of the
      strings and lists. */
  lemma UntrustedReadsMasked(o: Opts, rest: seq<u8>)
    requires Wf(o) && Faithful(o.head)
    ensures Get(Put(Shown(o, true)) + rest) == Got(Masked(o), rest)
    ensures forall p: Opts :: p.head == o.head ==> Put(Shown(p, true)) == Put(Shown(o, true))
  {
    var m := Masked(o);
    assert PutStringOpts(m.strings) == PutNullable(m.strings.certPrincipals) + (PutNullable(m.strings.forceCommand)
      + (PutNullable(None) + PutNullable(None)));
    RoundTripExactly(m, rest);
  }
}
