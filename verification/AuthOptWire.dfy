/** The bytes of an options record, written out, and what becomes of a record cut short. */
module AuthOptWire {
  import opened Ints
  import opened Wrappers
  import opened AuthOptSpec
  import opened AuthOptTheorems

  // ---- the layout ---------------------------------------------------------------------------

  /** Four bytes, most significant first. */
  function Word(n: nat): seq<u8> { [n / 0x100_0000 % 256, n / 0x1_0000 % 256, n / 0x100 % 256, n % 256] }

  function Field(s: seq<u8>): seq<u8> { Word(|s|) + s }

  function OptField(s: Option<seq<u8>>): seq<u8> { if s.None? then [1, 0, 0, 0, 0] else [0] + Field(s.value) }

  function Fields(ss: seq<seq<u8>>): seq<u8> {
    if ss == [] then [] else Fields(ss[..|ss| - 1]) + Field(ss[|ss| - 1])
  }

  function Listed(ss: seq<seq<u8>>): seq<u8> { Word(|ss|) + Field(Fields(ss)) }

  lemma WordIs(w: u32)
    ensures PokeU32(w) == Word(w)
  {
  }

  lemma FieldIs(s: seq<u8>)
    requires |s| < 0x1_0000_0000
    ensures PutString(s) == Field(s)
  {
    WordIs(|s|);
  }

  lemma OptFieldIs(s: Option<seq<u8>>)
    requires |PutNullable(s)| <= SSHBUF_SIZE_MAX
    ensures PutNullable(s) == OptField(s)
  {
    FieldIs(if s.None? then [] else s.value);
    assert Word(0) == [0, 0, 0, 0];
  }

  lemma {:induction false} PutStringsLast(ss: seq<seq<u8>>)
    requires ss != []
    ensures PutStrings(ss) == PutStrings(ss[..|ss| - 1]) + PutString(ss[|ss| - 1])
  {
    var n := |ss| - 1;
    if n > 0 {
      PutStringsLast(ss[1..]);
      assert ss[1..][..n - 1] == ss[..n][1..];
      Tail(PutString(ss[0]), PutStrings(ss[1..n]), PutString(ss[n]));
    } else {
      assert ss[1..] == [] && ss[..n] == [];
    }
  }

  lemma {:induction false} FieldsAre(ss: seq<seq<u8>>)
    requires |PutStrings(ss)| < 0x1_0000_0000
    ensures PutStrings(ss) == Fields(ss)
  {
    if ss != [] {
      PutStringsLast(ss);
      FieldsAre(ss[..|ss| - 1]);
      FieldIs(ss[|ss| - 1]);
    }
  }

  lemma ListedIs(ss: seq<seq<u8>>)
    requires |PutArray(ss)| <= SSHBUF_SIZE_MAX
    ensures PutArray(ss) == Listed(ss)
  {
    ArrayShape(ss);
    WordIs(|ss|);
    FieldsAre(ss);
    FieldIs(Fields(ss));
  }

  /** The fixed part of a record. */
  function WireHead(h: Head): seq<u8> {
    var f, v := h.flags, h.validBefore;
    [f.permitPortForwarding % 256, f.permitAgentForwarding % 256, f.permitX11Forwarding % 256, f.permitPty % 256,
     f.permitUserRc % 256, f.restricted % 256, f.certAuthority % 256]
    + Word(v / 0x1_0000_0000) + Word(v % 0x1_0000_0000)
    + [if h.tunDevice == -1 then 1 else 0] + Word(if h.tunDevice < 0 then 0 else h.tunDevice)
  }

  lemma HeadIs(h: Head)
    requires h.tunDevice <= INT_MAX
    ensures PutHead(h) == WireHead(h) && |WireHead(h)| == 20
  {
    var v: int := h.validBefore;
    WordIs(v / 0x1_0000_0000);
    WordIs(v % 0x1_0000_0000);
    WordIs(TunWord(h.tunDevice));
  }

  /** The record: seven flag bytes, the expiry, whether the tunnel is unset and its number, four
      strings that may be absent, three counted lists of strings. */
  lemma WireFormat(o: Opts)
    requires Wf(o) && |Put(o)| <= SSHBUF_SIZE_MAX
    ensures Put(o) == WireHead(o.head)
                      + OptField(o.strings.certPrincipals) + OptField(o.strings.forceCommand)
                      + OptField(o.strings.requiredFromHostCert) + OptField(o.strings.requiredFromHostKeys)
                      + Listed(o.arrays.env) + Listed(o.arrays.permitopen) + Listed(o.arrays.permitlisten)
  {
    HeadIs(o.head);
    OptFieldIs(o.strings.certPrincipals);
    OptFieldIs(o.strings.forceCommand);
    OptFieldIs(o.strings.requiredFromHostCert);
    OptFieldIs(o.strings.requiredFromHostKeys);
    ListedIs(o.arrays.env);
    ListedIs(o.arrays.permitopen);
    ListedIs(o.arrays.permitlisten);
    Flatten(WireHead(o.head), OptField(o.strings.certPrincipals), OptField(o.strings.forceCommand),
            OptField(o.strings.requiredFromHostCert), OptField(o.strings.requiredFromHostKeys),
            Listed(o.arrays.env), Listed(o.arrays.permitopen), Listed(o.arrays.permitlisten));
  }

  lemma Flatten(h: seq<u8>, a: seq<u8>, b: seq<u8>, c: seq<u8>, d: seq<u8>, x: seq<u8>, y: seq<u8>, z: seq<u8>)
    ensures h + ((a + (b + (c + d))) + (x + (y + z))) == h + a + b + c + d + x + y + z
  {
  }

  function Text(t: string): seq<u8>
    requires forall i :: 0 <= i < |t| ==> t[i] < 128 as char
  {
    seq(|t|, i requires 0 <= i < |t| => t[i] as int)
  }

  /** An untrusted reader is told "yes" for the principals and "true" for the command. */
  lemma UntrustedText(o: Opts)
    ensures Shown(o, true).head == o.head
    ensures Shown(o, true).strings == Strings(Some(Text("yes")), Some(Text("true")), None, None)
    ensures Shown(o, true).arrays == Arrays([], [], [])
  {
    assert Text("yes") == [121, 101, 115] && Text("true") == [116, 114, 117, 101];
  }

  // ---- what is read -----------------------------------------------------------------------------

  /** The reader's verdict on s stands when more bytes t follow, unless it was a lack of bytes. */
  predicate Stands<T(==)>(a: Parse<T>, b: Parse<T>, t: seq<u8>) {
    || a == Bad(MessageIncomplete)
    || (a.Bad? && b == a)
    || (a.Got? && b == Got(a.value, a.rest + t))
  }

  lemma U8Stands(s: seq<u8>, t: seq<u8>)
    ensures Stands(GetU8(s), GetU8(s + t), t)
  {
    if |s| >= 1 { assert (s + t)[1..] == s[1..] + t; }
  }

  lemma U32Stands(s: seq<u8>, t: seq<u8>)
    ensures Stands(GetU32(s), GetU32(s + t), t)
  {
    if |s| >= 4 { assert (s + t)[4..] == s[4..] + t; }
  }

  lemma U64Stands(s: seq<u8>, t: seq<u8>)
    ensures Stands(GetU64(s), GetU64(s + t), t)
  {
    if |s| >= 8 { assert (s + t)[4..] == s[4..] + t && (s + t)[8..] == s[8..] + t; }
  }

  lemma StringStands(s: seq<u8>, t: seq<u8>)
    ensures Stands(GetString(s), GetString(s + t), t)
  {
    if |s| >= 4 {
      var n := PeekU32(s);
      if |s| - 4 >= n { assert (s + t)[4..4 + n] == s[4..4 + n] && (s + t)[4 + n..] == s[4 + n..] + t; }
    }
  }

  lemma CStringStands(s: seq<u8>, t: seq<u8>)
    ensures Stands(GetCString(s), GetCString(s + t), t)
  {
    StringStands(s, t);
  }

  lemma NullableStands(s: seq<u8>, t: seq<u8>)
    ensures Stands(GetNullable(s), GetNullable(s + t), t)
  {
    U8Stands(s, t);
    if |s| >= 1 { CStringStands(s[1..], t); }
  }

  lemma ArrayStands(s: seq<u8>, t: seq<u8>)
    ensures Stands(GetArray(s), GetArray(s + t), t)
  {
    U32Stands(s, t);
    if |s| >= 4 { StringStands(s[4..], t); }
  }

  lemma FlagsStand(s: seq<u8>, t: seq<u8>)
    ensures Stands(GetFlags(s), GetFlags(s + t), t)
  {
    if |s| >= 7 { assert (s + t)[7..] == s[7..] + t; }
  }

  lemma TunStands(s: seq<u8>, t: seq<u8>)
    ensures Stands(GetTun(s), GetTun(s + t), t)
  {
    U8Stands(s, t);
    if |s| >= 1 { U32Stands(s[1..], t); }
  }

  lemma HeadStands(s: seq<u8>, t: seq<u8>)
    ensures Stands(GetHead(s), GetHead(s + t), t)
  {
    FlagsStand(s, t);
    var f := GetFlags(s);
    if f.Got? {
      U64Stands(f.rest, t);
      var v := GetU64(f.rest);
      if v.Got? { TunStands(v.rest, t); }
    }
  }

  lemma StringOptsStand(s: seq<u8>, t: seq<u8>)
    ensures Stands(GetStringOpts(s), GetStringOpts(s + t), t)
  {
    NullableStands(s, t);
    var p := GetNullable(s);
    if p.Got? {
      NullableStands(p.rest, t);
      var c := GetNullable(p.rest);
      if c.Got? {
        NullableStands(c.rest, t);
        var hc := GetNullable(c.rest);
        if hc.Got? { NullableStands(hc.rest, t); }
      }
    }
  }

  lemma ArraysStand(s: seq<u8>, t: seq<u8>)
    ensures Stands(GetArrays(s), GetArrays(s + t), t)
  {
    ArrayStands(s, t);
    var e := GetArray(s);
    if e.Got? {
      ArrayStands(e.rest, t);
      var o := GetArray(e.rest);
      if o.Got? { ArrayStands(o.rest, t); }
    }
  }

  lemma GetStands(s: seq<u8>, t: seq<u8>)
    ensures Stands(Get(s), Get(s + t), t)
  {
    HeadStands(s, t);
    var h := GetHead(s);
    if h.Got? {
      StringOptsStand(h.rest, t);
      var g := GetStringOpts(h.rest);
      if g.Got? { ArraysStand(g.rest, t); }
    }
  }

  lemma NoMoreNeeded(a: Parse<Opts>, b: Parse<Opts>, t: seq<u8>)
    requires Stands(a, b, t) && t != [] && b.Got? && b.rest == []
    ensures a == Bad(MessageIncomplete)
  {
  }

  /** A record cut short anywhere is refused as incomplete, and never read as another one. */
  lemma CutShort(o: Opts, n: nat)
    requires Wf(o) && |Put(o)| <= SSHBUF_SIZE_MAX && n < |Put(o)|
    ensures Get(Put(o)[..n]) == Bad(MessageIncomplete)
  {
    ReadBack(o, []);
    assert Put(o) + [] == Put(o);
    CutAny(Put(o), n);
  }

  lemma CutAny(full: seq<u8>, n: nat)
    requires n < |full| && Get(full).Got? && Get(full).rest == []
    ensures Get(full[..n]) == Bad(MessageIncomplete)
  {
    var s, t := full[..n], full[n..];
    assert s + t == full;
    GetStands(s, t);
    NoMoreNeeded(Get(s), Get(full), t);
  }

  // ---- strings and lists that this writer would not produce ---------------------------------------

  /** What a C string reader makes of bytes: a NUL may end them, and may be nowhere else. */
  lemma CStringExactly(raw: seq<u8>, rest: seq<u8>)
    requires |raw| <= 0x800_0000 - 4
    ensures GetCString(Field(raw) + rest)
            == if 0 !in raw then Got(raw, rest)
               else if 0 !in raw[..|raw| - 1] then Got(raw[..|raw| - 1], rest)
               else Bad(InvalidFormat)
  {
    FieldIs(raw);
    StringRoundTrip(raw, rest);
    if 0 in raw && 0 !in raw[..|raw| - 1] { assert raw == raw[..|raw| - 1] + [raw[|raw| - 1]]; }
  }

  /** A length beyond the limit is refused, whatever follows. */
  lemma TooLarge(n: u32, rest: seq<u8>)
    requires n > 0x800_0000 - 4
    ensures GetString(Word(n) + rest) == Bad(StringTooLarge)
  {
    WordIs(n);
    PeekOfPoke(n, rest);
  }

  /** Any flag but 0 means the string is absent; but it must still be readable. */
  lemma NullableExactly(f: u8, raw: seq<u8>, rest: seq<u8>)
    requires |raw| <= 0x800_0000 - 4 && 0 !in raw
    ensures GetNullable([f] + (Field(raw) + rest)) == Got(if f == 0 then Some(raw) else None, rest)
  {
    CStringExactly(raw, rest);
    assert ([f] + (Field(raw) + rest))[1..] == Field(raw) + rest;
  }

  /** Bytes of a list after the announced strings are skipped; a count beyond INT_MAX is
      refused. */
  lemma ListExactly(ss: seq<seq<u8>>, slack: seq<u8>, rest: seq<u8>)
    requires CStrs(ss) && |Fields(ss)| + |slack| <= 0x800_0000 - 4 && |PutStrings(ss)| < 0x1_0000_0000
    ensures |ss| <= INT_MAX && GetArray(Word(|ss|) + (Field(Fields(ss) + slack) + rest)) == Got(ss, rest)
  {
    FieldsAre(ss);
    WordIs(|ss|);
    FieldIs(Fields(ss) + slack);
    U32RoundTrip(|ss|, Field(Fields(ss) + slack) + rest);
    StringRoundTrip(Fields(ss) + slack, rest);
    StringsRoundTrip(ss, slack);
  }

  lemma TooMany(n: u32, blob: seq<u8>, rest: seq<u8>)
    requires n > INT_MAX && |blob| <= 0x800_0000 - 4
    ensures GetArray(Word(n) + (Field(blob) + rest)) == Bad(InvalidFormat)
  {
    WordIs(n);
    FieldIs(blob);
    U32RoundTrip(n, Field(blob) + rest);
    StringRoundTrip(blob, rest);
  }
}
