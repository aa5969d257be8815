/** The buffer that options are appended to and consumed from. */
module AuthOptObject {
  import opened Ints
  import opened Wrappers
  import opened AuthOptSpec

  /** An append of bs: it succeeds exactly when it fits, and then that is all that happens; a
      failure leaves a first part of bs behind. */
  ghost predicate Wrote(before: seq<u8>, after: seq<u8>, bs: seq<u8>, max: nat, r: Option<Error>) {
    && before <= after <= before + bs && |after| <= max
    && (r.None? <==> |before| + |bs| <= max)
    && (r.None? ==> after == before + bs)
  }

  lemma WroteMore(a: seq<u8>, b: seq<u8>, c: seq<u8>, x: seq<u8>, y: seq<u8>, max: nat, r: Option<Error>)
    requires Wrote(a, b, x, max, None) && Wrote(b, c, y, max, r)
    ensures Wrote(a, c, x + y, max, r)
  {
    assert a + x + y == a + (x + y);
  }

  /** The first of two appends failed. */
  lemma WroteLess(a: seq<u8>, c: seq<u8>, x: seq<u8>, y: seq<u8>, max: nat, r: Option<Error>)
    requires Wrote(a, c, x, max, r) && r.Some?
    ensures Wrote(a, c, x + y, max, r)
  {
    assert a + x + y == a + (x + y);
  }

  class Sshbuf {
    var data: seq<u8>
    const maxSize: nat

    constructor (s: seq<u8>)
      requires |s| <= SSHBUF_SIZE_MAX
      ensures Sane() && data == s && maxSize == SSHBUF_SIZE_MAX
    {
      data, maxSize := s, SSHBUF_SIZE_MAX;
    }

    /** sshbuf_check_sanity. */
    ghost predicate Sane()
      reads this
    {
      |data| <= maxSize <= SSHBUF_SIZE_MAX
    }

    // ---- appending ----------------------------------------------------------------------------

    method Put(bs: seq<u8>) returns (r: Option<Error>)
      requires Sane()
      modifies this
      ensures Wrote(old(data), data, bs, maxSize, r)
    {
      if |data| + |bs| > maxSize { return Some(NoBufferSpace); }
      data := data + bs;
      r := None;
    }

    method PutCString(s: seq<u8>) returns (r: Option<Error>)
      requires Sane()
      modifies this
      ensures Wrote(old(data), data, PutString(s), maxSize, r)
    {
      if |s| > SSHBUF_SIZE_MAX - 4 { return Some(NoBufferSpace); }
      r := Put(PutString(s));
    }

    // ---- consuming ----------------------------------------------------------------------------

    method TakeU8() returns (r: Option<Error>, x: u8)
      modifies this
      ensures match GetU8(old(data)) {
        case Bad(e) => r == Some(e) && data == old(data)
        case Got(v, rest) => r == None && x == v && data == rest
      }
    {
      if |data| < 1 { return Some(MessageIncomplete), 0; }
      r, x := None, data[0];
      data := data[1..];
    }

    method TakeU32() returns (r: Option<Error>, x: u32)
      modifies this
      ensures match GetU32(old(data)) {
        case Bad(e) => r == Some(e) && data == old(data)
        case Got(v, rest) => r == None && x == v && data == rest
      }
    {
      if |data| < 4 { return Some(MessageIncomplete), 0; }
      r, x := None, PeekU32(data);
      data := data[4..];
    }

    method TakeU64() returns (r: Option<Error>, x: u64)
      modifies this
      ensures match GetU64(old(data)) {
        case Bad(e) => r == Some(e) && data == old(data)
        case Got(v, rest) => r == None && x == v && data == rest
      }
    {
      if |data| < 8 { return Some(MessageIncomplete), 0; }
      var hi: int, lo: int := PeekU32(data), PeekU32(data[4..]);
      r, x := None, 0x1_0000_0000 * hi + lo;
      data := data[8..];
    }

    /** sshbuf_peek_string_direct. */
    method PeekString() returns (r: Option<Error>, v: seq<u8>)
      ensures match GetString(data) {
        case Bad(e) => r == Some(e)
        case Got(w, rest) => r == None && v == w && rest == data[4 + |v|..]
      }
    {
      v := [];
      if |data| < 4 { return Some(MessageIncomplete), v; }
      var n := PeekU32(data);
      if n > SSHBUF_SIZE_MAX - 4 { return Some(StringTooLarge), v; }
      if |data| - 4 < n { return Some(MessageIncomplete), v; }
      r, v := None, data[4..4 + n];
    }

    /** sshbuf_get_string_direct: an error consumes nothing. */
    method TakeString() returns (r: Option<Error>, v: seq<u8>)
      modifies this
      ensures match GetString(old(data)) {
        case Bad(e) => r == Some(e) && data == old(data)
        case Got(w, rest) => r == None && v == w && data == rest
      }
    {
      r, v := PeekString();
      if r.None? { data := data[4 + |v|..]; }
    }

    /** sshbuf_get_cstring: a NUL is looked for before anything is consumed. */
    method TakeCString() returns (r: Option<Error>, v: seq<u8>)
      modifies this
      ensures match GetCString(old(data)) {
        case Bad(e) => r == Some(e) && data == old(data)
        case Got(w, rest) => r == None && v == w && data == rest
      }
    {
      r, v := PeekString();
      if r.Some? { return; }
      if v != [] && 0 in v[..|v| - 1] { return Some(InvalidFormat), v; }
      data := data[4 + |v|..];
      if v != [] && v[|v| - 1] == 0 { v := v[..|v| - 1]; }
    }
  }

  // ---- strings and arrays -----------------------------------------------------------------------

  method SerialiseNullable(m: Sshbuf, s: Option<seq<u8>>) returns (r: Option<Error>)
    requires m.Sane()
    modifies m
    ensures Wrote(old(m.data), m.data, PutNullable(s), m.maxSize, r)
  {
    var flag: seq<u8> := [if s.None? then 1 else 0];
    r := m.Put(flag);
    if r.Some? {
      WroteLess(old(m.data), m.data, flag, PutString(if s.None? then [] else s.value), m.maxSize, r);
      return;
    }
    ghost var mid := m.data;
    r := m.PutCString(if s.None? then [] else s.value);
    WroteMore(old(m.data), mid, m.data, flag, PutString(if s.None? then [] else s.value), m.maxSize, r);
  }

  method DeserialiseNullable(m: Sshbuf) returns (r: Option<Error>, s: Option<seq<u8>>)
    modifies m
    ensures match GetNullable(old(m.data)) {
      case Bad(e) => r == Some(e)
      case Got(v, rest) => r == None && s == v && m.data == rest
    }
  {
    var flag;
    s := None;
    r, flag := m.TakeU8();
    if r.Some? { return; }
    var v;
    r, v := m.TakeCString();
    if r.Some? { return; }
    if flag == 0 { s := Some(v); }
  }

  lemma Regroup(a: seq<u8>, b: seq<u8>, c: seq<u8>)
    ensures a + (b + c) == a + b + c
  {
  }

  lemma {:induction false} PutStringsSnoc(ss: seq<seq<u8>>, v: seq<u8>)
    ensures PutStrings(ss + [v]) == PutStrings(ss) + PutString(v)
    decreases |ss|
  {
    if ss == [] {
      assert [] + [v] == [v] && PutStrings([v][1..]) == [];
      assert PutStrings([v]) == PutString(v) + [];
    } else {
      PutStringsSnoc(ss[1..], v);
      assert (ss + [v])[0] == ss[0] && (ss + [v])[1..] == ss[1..] + [v];
      Regroup(PutString(ss[0]), PutStrings(ss[1..]), PutString(v));
    }
  }

  lemma {:induction false} PutStringsGrows(ss: seq<seq<u8>>, i: nat)
    requires i <= |ss|
    ensures |PutStrings(ss[..i])| <= |PutStrings(ss)|
    decreases |ss| - i
  {
    if i == |ss| {
      assert ss[..i] == ss;
    } else {
      assert ss[..i + 1] == ss[..i] + [ss[i]];
      PutStringsSnoc(ss[..i], ss[i]);
      PutStringsGrows(ss, i + 1);
    }
  }

  /** The strings of an array, one after the other, in a buffer of their own. */
  method FillBlob(b: Sshbuf, a: seq<seq<u8>>) returns (r: Option<Error>)
    requires b.Sane() && b.data == []
    modifies b
    ensures b.Sane()
    ensures r.None? ==> b.data == PutStrings(a)
    ensures r.Some? ==> |PutStrings(a)| > b.maxSize
  {
    var i := 0;
    r := None;
    assert a[..0] == [];
    while i < |a|
      invariant 0 <= i <= |a| && b.Sane() && b.data == PutStrings(a[..i])
    {
      assert a[..i + 1] == a[..i] + [a[i]];
      PutStringsSnoc(a[..i], a[i]);
      PutStringsGrows(a, i + 1);
      r := b.PutCString(a[i]);
      if r.Some? { return; }
      i := i + 1;
    }
    assert a[..i] == a;
    r := None;
  }

  /** serialise_array. */
  method SerialiseArray(m: Sshbuf, a: seq<seq<u8>>) returns (r: Option<Error>)
    requires m.Sane()
    modifies m
    ensures Wrote(old(m.data), m.data, PutArray(a), m.maxSize, r)
  {
    if |a| > INT_MAX { return Some(InternalError); }
    var b := new Sshbuf([]);
    r := FillBlob(b, a);
    if r.Some? { return; }
    ghost var n := PokeU32(ToU32(|a|));
    r := m.Put(PokeU32(ToU32(|a|)));
    if r.Some? {
      WroteLess(old(m.data), m.data, n, PutString(b.data), m.maxSize, r);
      return;
    }
    ghost var mid := m.data;
    r := m.PutCString(b.data);
    WroteMore(old(m.data), mid, m.data, n, PutString(b.data), m.maxSize, r);
  }

  lemma {:induction false} GetStringsSnoc(b: seq<u8>, i: nat)
    ensures GetStrings(b, i).Got? ==>
              var r := GetCString(GetStrings(b, i).rest);
              GetStrings(b, i + 1) == if r.Bad? then Bad(r.err) else Got(GetStrings(b, i).value + [r.value], r.rest)
    ensures GetStrings(b, i).Bad? ==> GetStrings(b, i + 1) == GetStrings(b, i)
    decreases i
  {
    var c := GetCString(b);
    if i == 0 {
      if c.Got? {
        assert GetStrings(c.rest, 0) == Got([], c.rest);
        assert [c.value] + [] == [] + [c.value];
      }
    } else if c.Got? {
      GetStringsSnoc(c.rest, i - 1);
      var t := GetStrings(c.rest, i - 1);
      if t.Got? {
        var r := GetCString(t.rest);
        if r.Got? { assert [c.value] + (t.value + [r.value]) == [c.value] + t.value + [r.value]; }
      }
    }
  }

  lemma {:induction false} GetStringsFails(b: seq<u8>, i: nat, n: nat)
    requires i <= n && GetStrings(b, i).Bad?
    ensures GetStrings(b, n) == GetStrings(b, i)
    decreases n - i
  {
    if i < n {
      GetStringsSnoc(b, i);
      GetStringsFails(b, i + 1, n);
    }
  }

  /** The loop of deserialise_array, over a buffer of the strings only. */
  method TakeStrings(b: Sshbuf, n: nat) returns (r: Option<Error>, a: seq<seq<u8>>)
    modifies b
    ensures match GetStrings(old(b.data), n) {
      case Bad(e) => r == Some(e)
      case Got(v, rest) => r == None && a == v
    }
  {
    ghost var blob := b.data;
    a := [];
    var i := 0;
    while i < n
      invariant 0 <= i <= n && GetStrings(blob, i) == Got(a, b.data)
    {
      GetStringsSnoc(blob, i);
      var v;
      r, v := b.TakeCString();
      if r.Some? {
        GetStringsFails(blob, i + 1, n);
        return;
      }
      a := a + [v];
      i := i + 1;
    }
    r := None;
  }

  /** deserialise_array. */
  method DeserialiseArray(m: Sshbuf) returns (r: Option<Error>, a: seq<seq<u8>>)
    modifies m
    ensures match GetArray(old(m.data)) {
      case Bad(e) => r == Some(e)
      case Got(v, rest) => r == None && a == v && m.data == rest
    }
  {
    var n, blob;
    a := [];
    r, n := m.TakeU32();
    if r.Some? { return; }
    r, blob := m.TakeString();
    if r.Some? { return; }
    if n > INT_MAX { return Some(InvalidFormat), a; }
    var b := new Sshbuf(blob);
    r, a := TakeStrings(b, n);
  }

  // ---- the record -------------------------------------------------------------------------------

  /** The fields after the flags. */
  method SerialiseTimes(m: Sshbuf, valid: seq<u8>, unset: seq<u8>, tun: seq<u8>) returns (r: Option<Error>)
    requires m.Sane()
    modifies m
    ensures Wrote(old(m.data), m.data, valid + (unset + tun), m.maxSize, r)
  {
    r := m.Put(valid);
    if r.Some? {
      WroteLess(old(m.data), m.data, valid, unset + tun, m.maxSize, r);
      return;
    }
    ghost var d1 := m.data;
    r := m.Put(unset);
    ghost var d2 := m.data;
    if r.Some? {
      WroteLess(d1, d2, unset, tun, m.maxSize, r);
      WroteMore(old(m.data), d1, d2, valid, unset + tun, m.maxSize, r);
      return;
    }
    r := m.Put(tun);
    WroteMore(d1, d2, m.data, unset, tun, m.maxSize, r);
    WroteMore(old(m.data), d1, m.data, valid, unset + tun, m.maxSize, r);
  }

  method SerialiseHead(m: Sshbuf, h: Head) returns (r: Option<Error>)
    requires m.Sane()
    modifies m
    ensures Wrote(old(m.data), m.data, PutHead(h), m.maxSize, r)
  {
    var flags, valid, unset, tun := PutFlags(h.flags), PutU64(h.validBefore),
      [if h.tunDevice == -1 then 1 else 0], PokeU32(TunWord(h.tunDevice));
    r := m.Put(flags);
    if r.Some? {
      WroteLess(old(m.data), m.data, flags, valid + (unset + tun), m.maxSize, r);
      return;
    }
    ghost var mid := m.data;
    r := SerialiseTimes(m, valid, unset, tun);
    WroteMore(old(m.data), mid, m.data, flags, valid + (unset + tun), m.maxSize, r);
  }

  method SerialisePair(m: Sshbuf, s: Option<seq<u8>>, t: Option<seq<u8>>) returns (r: Option<Error>)
    requires m.Sane()
    modifies m
    ensures Wrote(old(m.data), m.data, PutNullable(s) + PutNullable(t), m.maxSize, r)
  {
    r := SerialiseNullable(m, s);
    if r.Some? {
      WroteLess(old(m.data), m.data, PutNullable(s), PutNullable(t), m.maxSize, r);
      return;
    }
    ghost var mid := m.data;
    r := SerialiseNullable(m, t);
    WroteMore(old(m.data), mid, m.data, PutNullable(s), PutNullable(t), m.maxSize, r);
  }

  lemma TwoPairs(s: Strings)
    ensures (PutNullable(s.certPrincipals) + PutNullable(s.forceCommand))
            + (PutNullable(s.requiredFromHostCert) + PutNullable(s.requiredFromHostKeys)) == PutStringOpts(s)
  {
    Regroup(PutNullable(s.certPrincipals), PutNullable(s.forceCommand),
            PutNullable(s.requiredFromHostCert) + PutNullable(s.requiredFromHostKeys));
  }

  method SerialiseStrings(m: Sshbuf, s: Strings) returns (r: Option<Error>)
    requires m.Sane()
    modifies m
    ensures Wrote(old(m.data), m.data, PutStringOpts(s), m.maxSize, r)
  {
    ghost var first := PutNullable(s.certPrincipals) + PutNullable(s.forceCommand);
    ghost var hosts := PutNullable(s.requiredFromHostCert) + PutNullable(s.requiredFromHostKeys);
    TwoPairs(s);
    r := SerialisePair(m, s.certPrincipals, s.forceCommand);
    if r.Some? {
      WroteLess(old(m.data), m.data, first, hosts, m.maxSize, r);
      return;
    }
    ghost var mid := m.data;
    r := SerialisePair(m, s.requiredFromHostCert, s.requiredFromHostKeys);
    WroteMore(old(m.data), mid, m.data, first, hosts, m.maxSize, r);
  }

  method SerialiseArrays(m: Sshbuf, a: Arrays) returns (r: Option<Error>)
    requires m.Sane()
    modifies m
    ensures Wrote(old(m.data), m.data, PutArrays(a), m.maxSize, r)
  {
    ghost var e, o, l := PutArray(a.env), PutArray(a.permitopen), PutArray(a.permitlisten);
    r := SerialiseArray(m, a.env);
    if r.Some? {
      WroteLess(old(m.data), m.data, e, o + l, m.maxSize, r);
      return;
    }
    ghost var d1 := m.data;
    r := SerialiseArray(m, a.permitopen);
    ghost var d2 := m.data;
    if r.Some? {
      WroteLess(d1, d2, o, l, m.maxSize, r);
      WroteMore(old(m.data), d1, d2, e, o + l, m.maxSize, r);
      return;
    }
    r := SerialiseArray(m, a.permitlisten);
    WroteMore(d1, d2, m.data, o, l, m.maxSize, r);
    WroteMore(old(m.data), d1, m.data, e, o + l, m.maxSize, r);
  }

  /** The options of variable length: strings, then arrays. */
  method SerialiseRest(m: Sshbuf, s: Strings, a: Arrays) returns (r: Option<Error>)
    requires m.Sane()
    modifies m
    ensures Wrote(old(m.data), m.data, PutStringOpts(s) + PutArrays(a), m.maxSize, r)
  {
    r := SerialiseStrings(m, s);
    if r.Some? {
      WroteLess(old(m.data), m.data, PutStringOpts(s), PutArrays(a), m.maxSize, r);
      return;
    }
    ghost var mid := m.data;
    r := SerialiseArrays(m, a);
    WroteMore(old(m.data), mid, m.data, PutStringOpts(s), PutArrays(a), m.maxSize, r);
  }

  /** sshauthopt_serialise: it succeeds exactly when the whole record fits. */
  method Serialise(opts: Opts, m: Sshbuf, untrusted: bool) returns (r: Option<Error>)
    requires m.Sane()
    modifies m
    ensures Wrote(old(m.data), m.data, AuthOptSpec.Put(Shown(opts, untrusted)), m.maxSize, r)
  {
    var shown := Shown(opts, untrusted);
    ghost var rest := PutStringOpts(shown.strings) + PutArrays(shown.arrays);
    r := SerialiseHead(m, shown.head);
    if r.Some? {
      WroteLess(old(m.data), m.data, PutHead(shown.head), rest, m.maxSize, r);
      return;
    }
    ghost var mid := m.data;
    r := SerialiseRest(m, shown.strings, shown.arrays);
    WroteMore(old(m.data), mid, m.data, PutHead(shown.head), rest, m.maxSize, r);
  }

  method DeserialiseFlags(m: Sshbuf) returns (r: Option<Error>, f: Flags)
    modifies m
    ensures match GetFlags(old(m.data)) {
      case Bad(e) => r == Some(e)
      case Got(v, rest) => r == None && f == v && m.data == rest
    }
  {
    var bs: seq<u8> := [];
    f := Flags(0, 0, 0, 0, 0, 0, 0);
    var i := 0;
    while i < 7
      invariant 0 <= i <= 7 && i <= |old(m.data)| && bs == old(m.data)[..i] && m.data == old(m.data)[i..]
    {
      var x;
      r, x := m.TakeU8();
      if r.Some? { return; }
      bs := bs + [x];
      i := i + 1;
    }
    r := None;
    f := Flags(bs[0], bs[1], bs[2], bs[3], bs[4], bs[5], bs[6]);
  }

  method DeserialiseHead(m: Sshbuf) returns (r: Option<Error>, h: Head)
    modifies m
    ensures match GetHead(old(m.data)) {
      case Bad(e) => r == Some(e)
      case Got(v, rest) => r == None && h == v && m.data == rest
    }
  {
    var f, v, unset, w;
    h := Head(Flags(0, 0, 0, 0, 0, 0, 0), 0, 0);
    r, f := DeserialiseFlags(m);
    if r.Some? { return; }
    r, v := m.TakeU64();
    if r.Some? { return; }
    r, unset := m.TakeU8();
    if r.Some? { return; }
    r, w := m.TakeU32();
    if r.Some? { return; }
    h := Head(f, v, if unset != 0 then -1 else Signed(w));
  }

  method DeserialiseStrings(m: Sshbuf) returns (r: Option<Error>, s: Strings)
    modifies m
    ensures match GetStringOpts(old(m.data)) {
      case Bad(e) => r == Some(e)
      case Got(v, rest) => r == None && s == v && m.data == rest
    }
  {
    var p, c, hc, hk;
    s := Strings(None, None, None, None);
    r, p := DeserialiseNullable(m);
    if r.Some? { return; }
    r, c := DeserialiseNullable(m);
    if r.Some? { return; }
    r, hc := DeserialiseNullable(m);
    if r.Some? { return; }
    r, hk := DeserialiseNullable(m);
    if r.Some? { return; }
    s := Strings(p, c, hc, hk);
  }

  method DeserialiseArrays(m: Sshbuf) returns (r: Option<Error>, a: Arrays)
    modifies m
    ensures match GetArrays(old(m.data)) {
      case Bad(e) => r == Some(e)
      case Got(v, rest) => r == None && a == v && m.data == rest
    }
  {
    var e, o, l;
    a := Arrays([], [], []);
    r, e := DeserialiseArray(m);
    if r.Some? { return; }
    r, o := DeserialiseArray(m);
    if r.Some? { return; }
    r, l := DeserialiseArray(m);
    if r.Some? { return; }
    a := Arrays(e, o, l);
  }

  /** sshauthopt_deserialise. */
  method Deserialise(m: Sshbuf) returns (r: Option<Error>, opts: Option<Opts>)
    modifies m
    ensures match Get(old(m.data)) {
      case Bad(e) => r == Some(e) && opts == None
      case Got(v, rest) => r == None && opts == Some(v) && m.data == rest
    }
  {
    var h, s, a;
    opts := None;
    r, h := DeserialiseHead(m);
    if r.Some? { return; }
    r, s := DeserialiseStrings(m);
    if r.Some? { return; }
    r, a := DeserialiseArrays(m);
    if r.Some? { return; }
    opts := Some(Opts(h, s, a));
  }
}
