/** UTF-8 in its original form of up to six bytes (section 2 of RFC 2279). */
module Utf8 {
  import opened Ints
  import opened Wrappers

  /** An n-byte character: its first byte starts at Lead(n) and has Room(n) values. */
  function Lead(n: nat): nat
    requires 1 <= n <= 6
  {
    match n case 1 => 0 case 2 => 0xc0 case 3 => 0xe0 case 4 => 0xf0 case 5 => 0xf8 case _ => 0xfc
  }

  function Room(n: nat): nat
    requires 1 <= n <= 6
  {
    match n case 1 => 0x80 case 2 => 0x20 case 3 => 0x10 case 4 => 8 case 5 => 4 case _ => 2
  }

  /** The bound on the values of n bytes. */
  function Limit(n: nat): nat
    requires n <= 6
  {
    match n
    case 0 => 0 case 1 => 0x80 case 2 => 0x800 case 3 => 0x1_0000
    case 4 => 0x20_0000 case 5 => 0x400_0000 case _ => 0x8000_0000
  }

  /** Length announced by a first byte; 0 for one that cannot start a character. */
  function Class(b: u8): nat {
    if b / 128 == 0 then 1
    else if b / 32 == 6 then 2
    else if b / 16 == 14 then 3
    else if b / 8 == 30 then 4
    else if b / 4 == 62 then 5
    else if b / 2 == 126 then 6
    else 0
  }

  /** A byte of the form 10xxxxxx. */
  predicate Cont(b: u8) { b / 64 == 2 }

  function Payload(b: u8): nat
    requires Cont(b)
  {
    b % 64
  }

  predicate AllCont(cs: seq<u8>) { forall i :: 0 <= i < |cs| ==> Cont(cs[i]) }

  /** The value of first-byte payload a followed by continuation bytes. */
  function Value(a: nat, cs: seq<u8>): nat
    requires AllCont(cs)
    decreases |cs|
  {
    if cs == [] then a else 64 * Value(a, cs[..|cs| - 1]) + Payload(cs[|cs| - 1])
  }

  datatype Got = Empty | Short | Illegal | BadCont | NotMinimal | Char(value: nat, len: nat)

  /** UTF8_getc on the bytes s. */
  function Getc(s: seq<u8>): Got {
    if s == [] then Empty
    else
      var n := Class(s[0]);
      if n == 0 then Illegal
      else if |s| < n then Short
      else if !AllCont(s[1..n]) then BadCont
      else
        var v := Value(s[0] - Lead(n), s[1..n]);
        if v < Limit(n - 1) then NotMinimal else Char(v, n)
  }

  /** Return code: a count, or the documented errors. */
  function Code(g: Got): int {
    match g
    case Empty => 0 case Short => -1 case Illegal => -2 case BadCont => -3 case NotMinimal => -4
    case Char(_, n) => n
  }

  /** Bytes UTF8_putc needs for a value. */
  function Len(v: nat): (n: nat)
    ensures 1 <= n <= 6
  {
    if v < Limit(1) then 1 else if v < Limit(2) then 2 else if v < Limit(3) then 3
    else if v < Limit(4) then 4 else if v < Limit(5) then 5 else 6
  }

  /** v >> 6k, and the k low groups of six bits as continuation bytes. */
  function Top(v: nat, k: nat): nat
    decreases k, v
  {
    if k == 0 then v else Top(v / 64, k - 1)
  }

  function Conts(v: nat, k: nat): (cs: seq<u8>)
    ensures |cs| == k && AllCont(cs)
    decreases k, v
  {
    if k == 0 then [] else Conts(v / 64, k - 1) + [0x80 + v % 64]
  }

  /** The payload bits an n-byte first byte has room for. */
  function Keep(n: nat, a: nat): (r: nat)
    requires 1 <= n <= 6
    ensures r < Room(n)
  {
    match n
    case 1 => a % 0x80 case 2 => a % 0x20 case 3 => a % 0x10 case 4 => a % 8 case 5 => a % 4 case _ => a % 2
  }

  function LeadByte(n: nat, a: nat): u8
    requires 1 <= n <= 6 && a < Room(n)
  {
    Lead(n) + a
  }

  /** What UTF8_putc writes. The first byte keeps only the bits it has room for. */
  function Encode(v: nat): (s: seq<u8>)
    ensures |s| == Len(v)
  {
    var n := Len(v);
    [LeadByte(n, Keep(n, Top(v, n - 1)))] + Conts(v, n - 1)
  }

  // ---- arithmetic of the groups -------------------------------------------------------------

  lemma {:induction false} ValueOfConts(v: nat, k: nat)
    ensures Value(Top(v, k), Conts(v, k)) == v
    decreases k
  {
    if k > 0 {
      ValueOfConts(v / 64, k - 1);
      var cs := Conts(v, k);
      assert cs[..k - 1] == Conts(v / 64, k - 1);
    }
  }

  lemma {:induction false} ContsOfValue(a: nat, cs: seq<u8>)
    requires AllCont(cs)
    ensures Top(Value(a, cs), |cs|) == a && Conts(Value(a, cs), |cs|) == cs
    decreases |cs|
  {
    if cs != [] {
      var init := cs[..|cs| - 1];
      ContsOfValue(a, init);
      var v := Value(a, cs);
      assert v / 64 == Value(a, init) && v % 64 == Payload(cs[|cs| - 1]);
      assert Top(v, |cs|) == Top(v / 64, |init|) && Conts(v, |cs|) == Conts(v / 64, |init|) + [0x80 + v % 64];
      assert cs == init + [cs[|cs| - 1]];
    }
  }

  /** room << 6k. */
  function Scale(room: nat, k: nat): nat
    decreases k, room
  {
    if k == 0 then room else 64 * Scale(room, k - 1)
  }

  lemma {:induction false} ValueBound(a: nat, cs: seq<u8>, room: nat)
    requires AllCont(cs) && a < room
    ensures Value(a, cs) < Scale(room, |cs|)
    decreases |cs|
  {
    if cs != [] { ValueBound(a, cs[..|cs| - 1], room); }
  }

  lemma {:induction false} TopBound(v: nat, k: nat, room: nat)
    requires v < Scale(room, k)
    ensures Top(v, k) < room
    decreases k
  {
    if k > 0 { TopBound(v / 64, k - 1, room); }
  }

  lemma {:induction false} LimitIsScale(n: nat)
    requires 1 <= n <= 6
    ensures Limit(n) == Scale(Room(n), n - 1)
  {
    assert Scale(Room(n), 0) == Room(n);
    if n >= 2 { assert Scale(Room(n), 1) == 64 * Room(n); }
    if n >= 3 { assert Scale(Room(n), 2) == 64 * (64 * Room(n)); }
    if n >= 4 { assert Scale(Room(n), 3) == 64 * Scale(Room(n), 2); }
    if n >= 5 { assert Scale(Room(n), 4) == 64 * Scale(Room(n), 3); }
    if n >= 6 { assert Scale(Room(n), 5) == 64 * Scale(Room(n), 4); }
  }

  // ---- one character -------------------------------------------------------------------------

  lemma ClassOfLead(n: nat, a: nat)
    requires 1 <= n <= 6 && a < Room(n)
    ensures Class(LeadByte(n, a)) == n && Keep(n, a) == a
  {
  }

  lemma LeadOfClass(b: u8)
    requires Class(b) != 0
    ensures Class(b) <= 6 && Lead(Class(b)) <= b < Lead(Class(b)) + Room(Class(b))
  {
  }

  /** Reading back what was written, whatever follows it. */
  lemma GetcOfEncode(v: nat, rest: seq<u8>)
    requires v < 0x8000_0000
    ensures Getc(Encode(v) + rest) == Char(v, Len(v))
  {
    var n := Len(v);
    LimitIsScale(n);
    TopBound(v, n - 1, Room(n));
    ClassOfLead(n, Top(v, n - 1));
    var s := Encode(v) + rest;
    assert s[0] == LeadByte(n, Top(v, n - 1));
    assert s[1..n] == Conts(v, n - 1);
    ValueOfConts(v, n - 1);
  }

  lemma {:induction false} LenOfParts(n: nat, a: nat, cs: seq<u8>)
    requires 1 <= n <= 6 && a < Room(n) && |cs| == n - 1 && AllCont(cs) && Limit(n - 1) <= Value(a, cs)
    ensures Value(a, cs) < Limit(n) && Len(Value(a, cs)) == n
  {
    ValueBound(a, cs, Room(n));
    LimitIsScale(n);
    LenIs(Value(a, cs), n);
  }

  lemma {:induction false} EncodeIs(v: nat, n: nat, a: nat)
    requires 1 <= n <= 6 && Len(v) == n && Top(v, n - 1) == a && a < Room(n)
    ensures Encode(v) == [LeadByte(n, a)] + Conts(v, n - 1)
  {
    ClassOfLead(n, a);
  }

  lemma {:induction false} EncodeOfParts(n: nat, a: nat, cs: seq<u8>)
    requires 1 <= n <= 6 && a < Room(n) && |cs| == n - 1 && AllCont(cs) && Limit(n - 1) <= Value(a, cs)
    ensures Encode(Value(a, cs)) == [LeadByte(n, a)] + cs
  {
    LenOfParts(n, a, cs);
    ContsOfValue(a, cs);
    EncodeIs(Value(a, cs), n, a);
  }

  /** Whatever is accepted is the encoding of what it was read as. */
  lemma EncodeOfGetc(s: seq<u8>)
    requires Getc(s).Char?
    ensures var c := Getc(s); c.value < 0x8000_0000 && 0 < c.len <= |s| && Encode(c.value) == s[..c.len]
  {
    var n := Getc(s).len;
    LeadOfClass(s[0]);
    LenOfParts(n, s[0] - Lead(n), s[1..n]);
    EncodeOfParts(n, s[0] - Lead(n), s[1..n]);
    assert s[..n] == [s[0]] + s[1..n];
  }

  lemma LenIs(v: nat, n: nat)
    requires 1 <= n <= 6 && Limit(n - 1) <= v < Limit(n)
    ensures Len(v) == n
  {
  }

  /** Acceptance, without the parser: s begins with the encoding of a value below 2^31. */
  lemma AcceptedExactly(s: seq<u8>)
    ensures Getc(s).Char? <==> exists v: nat :: v < 0x8000_0000 && Encode(v) <= s
  {
    if Getc(s).Char? {
      EncodeOfGetc(s);
      assert Encode(Getc(s).value) <= s;
    }
    if v: nat :| v < 0x8000_0000 && Encode(v) <= s {
      GetcOfEncode(v, s[|Encode(v)|..]);
      assert s == Encode(v) + s[|Encode(v)|..];
    }
  }

  /** Values of 2^31 and above do not survive: that is the exact range of the round trip. */
  lemma RoundTripExactly(v: nat, rest: seq<u8>)
    ensures Getc(Encode(v) + rest) == Char(v, Len(v)) <==> v < 0x8000_0000
  {
    if v < 0x8000_0000 {
      GetcOfEncode(v, rest);
    } else if Getc(Encode(v) + rest).Char? {
      EncodeOfGetc(Encode(v) + rest);
    }
  }

  /** The first value that does not. */
  lemma NotReadBack()
    ensures Getc(Encode(0x8000_0000)) != Char(0x8000_0000, Len(0x8000_0000))
  {
    assert Encode(0x8000_0000) + [] == Encode(0x8000_0000);
    RoundTripExactly(0x8000_0000, []);
  }

  /** A character cut short is recognised as such. */
  lemma CutShort(v: nat, k: nat)
    requires v < 0x8000_0000 && 0 < k < Len(v)
    ensures Getc(Encode(v)[..k]) == Short
  {
    var n := Len(v);
    LimitIsScale(n);
    TopBound(v, n - 1, Room(n));
    ClassOfLead(n, Top(v, n - 1));
  }

  // ---- strings of characters -------------------------------------------------------------------

  predicate CodePoints(vs: seq<nat>) { forall i :: 0 <= i < |vs| ==> vs[i] < 0x8000_0000 }

  function EncodeAll(vs: seq<nat>): seq<u8> {
    if vs == [] then [] else Encode(vs[0]) + EncodeAll(vs[1..])
  }

  function DecodeAll(s: seq<u8>): Option<seq<nat>>
    decreases |s|
  {
    if s == [] then Some([])
    else if !Getc(s).Char? || Getc(s).len > |s| then None
    else
      var r := DecodeAll(s[Getc(s).len..]);
      if r.None? then None else Some([Getc(s).value] + r.value)
  }

  lemma {:induction false} DecodeCons(s: seq<u8>, v: nat, n: nat)
    requires 0 < n <= |s| && Getc(s) == Char(v, n) && DecodeAll(s[n..]).Some?
    ensures DecodeAll(s) == Some([v] + DecodeAll(s[n..]).value)
  {
  }

  /** Code points, written one after the other, are read back one by one. */
  lemma {:induction false} DecodeOfEncode(vs: seq<nat>)
    requires CodePoints(vs)
    ensures DecodeAll(EncodeAll(vs)) == Some(vs)
  {
    if vs != [] {
      var v, rest := vs[0], EncodeAll(vs[1..]);
      DecodeOfEncode(vs[1..]);
      GetcOfEncode(v, rest);
      DecodeCons(Encode(v) + rest, v, Len(v));
      assert (Encode(v) + rest)[Len(v)..] == rest;
      assert vs == [v] + vs[1..];
    }
  }

  lemma {:induction false} EncodeCons(v: nat, vs: seq<nat>)
    ensures EncodeAll([v] + vs) == Encode(v) + EncodeAll(vs)
    ensures v < 0x8000_0000 && CodePoints(vs) ==> CodePoints([v] + vs)
  {
    assert ([v] + vs)[1..] == vs;
  }

  lemma {:induction false} DecodeParts(s: seq<u8>)
    requires s != [] && DecodeAll(s).Some?
    ensures Getc(s).Char? && 0 < Getc(s).len <= |s| && DecodeAll(s[Getc(s).len..]).Some?
    ensures DecodeAll(s).value == [Getc(s).value] + DecodeAll(s[Getc(s).len..]).value
  {
  }

  lemma {:induction false} Rebuild(v: nat, vs: seq<nat>, s: seq<u8>, n: nat)
    requires n <= |s| && v < 0x8000_0000 && CodePoints(vs) && Encode(v) == s[..n] && EncodeAll(vs) == s[n..]
    ensures EncodeAll([v] + vs) == s && CodePoints([v] + vs)
  {
    EncodeCons(v, vs);
    assert s == s[..n] + s[n..];
  }

  /** A string that is accepted to its end is rebuilt byte for byte. */
  lemma {:induction false} EncodeOfDecode(s: seq<u8>)
    requires DecodeAll(s).Some?
    ensures EncodeAll(DecodeAll(s).value) == s && CodePoints(DecodeAll(s).value)
    decreases |s|
  {
    if s != [] {
      DecodeParts(s);
      var n, v := Getc(s).len, Getc(s).value;
      EncodeOfGetc(s);
      EncodeOfDecode(s[n..]);
      Rebuild(v, DecodeAll(s[n..]).value, s, n);
    }
  }

  /** No byte string is the encoding of two texts. */
  lemma {:induction false} UniquelyDecodable(vs: seq<nat>, ws: seq<nat>)
    requires CodePoints(vs) && CodePoints(ws) && EncodeAll(vs) == EncodeAll(ws)
    ensures vs == ws
  {
    DecodeOfEncode(vs);
    DecodeOfEncode(ws);
  }
}

/** The two functions as they are written, one branch per length. */
module Utf8Object {
  import opened Ints
  import opened Bits
  import opened Utf8

  /** (unsigned char)(((v >> sh) & mask) | mark). */
  function Piece(v: nat, sh: nat, mask: nat, mark: nat): u8 { Or(And(Shr(v, sh), mask), mark) % 256 }

  lemma {:induction false} ShrGroups(v: nat, k: nat)
    ensures Shr(v, 6 * k) == Top(v, k)
    decreases k
  {
    if k > 0 {
      ShrSix(v, 6 * (k - 1));
      ShrGroups(v / 64, k - 1);
    }
  }

  lemma {:induction false} ShrSix(v: nat, n: nat)
    ensures Shr(v, n + 6) == Shr(v / 64, n)
  {
    var w := v / 2 / 2 / 2;
    assert Shr(v, n + 6) == Shr(v / 2, n + 5) == Shr(v / 2 / 2, n + 4) == Shr(w, n + 3);
    assert Shr(w, n + 3) == Shr(w / 2, n + 2) == Shr(w / 2 / 2, n + 1) == Shr(w / 2 / 2 / 2, n);
  }

  /** A mark above the lowest k bits is or-ed in by addition. */
  lemma MarkAdds(x: nat, k: nat, top: nat)
    requires x < Pow2(k)
    ensures Or(x, Shl(top, k)) == Shl(top, k) + x
  {
    OrCommutes(x, Shl(top, k));
    OrAdds(top, k, x);
  }

  lemma Marks()
    ensures Shl(2, 6) == 0x80 && Shl(6, 5) == 0xc0 && Shl(14, 4) == 0xe0 && Shl(30, 3) == 0xf0
    ensures Shl(62, 2) == 0xf8 && Shl(126, 1) == 0xfc
  {
    SmallPowers();
    ShlIsMul(2, 6);
    ShlIsMul(6, 5);
    ShlIsMul(14, 4);
    ShlIsMul(30, 3);
    ShlIsMul(62, 2);
    ShlIsMul(126, 1);
  }

  /** A mask of the n lowest bits and a mark above them. */
  lemma {:induction false} MarkedLow(a: nat, n: nat, rest: nat, mask: nat, mark: nat, top: nat)
    requires mask == Pow2(n) - 1 && mark == Shl(top, n) && And(a, mask) == rest
    ensures Or(And(a, mask), mark) == mark + rest
  {
    AndMask(a, n);
    MarkAdds(rest, n, top);
  }

  lemma {:induction false} Marked(a: nat)
    ensures Or(And(a, 0x3f), 0x80) == 0x80 + a % 64 && Or(And(a, 0x1f), 0xc0) == 0xc0 + a % 0x20
    ensures Or(And(a, 0xf), 0xe0) == 0xe0 + a % 0x10 && Or(And(a, 7), 0xf0) == 0xf0 + a % 8
    ensures Or(And(a, 3), 0xf8) == 0xf8 + a % 4 && Or(And(a, 1), 0xfc) == 0xfc + a % 2
  {
    LowMasks(a);
    Marks();
    SmallPowers();
    MarkedLow(a, 6, a % 64, 0x3f, 0x80, 2);
    MarkedLow(a, 5, a % 0x20, 0x1f, 0xc0, 6);
    MarkedLow(a, 4, a % 0x10, 0xf, 0xe0, 14);
    MarkedLow(a, 3, a % 8, 7, 0xf0, 30);
    MarkedLow(a, 2, a % 4, 3, 0xf8, 62);
    MarkedLow(a, 1, a % 2, 1, 0xfc, 126);
  }

  /** The bytes that group k of a value can give: a continuation, or a first byte of two to six. */
  lemma {:induction false} PieceIs(v: nat, sh: nat, k: nat)
    requires sh == 6 * k
    ensures var a := Top(v, k);
            && Piece(v, sh, 0x3f, 0x80) == 0x80 + a % 64 && Piece(v, sh, 0x1f, 0xc0) == 0xc0 + a % 0x20
            && Piece(v, sh, 0xf, 0xe0) == 0xe0 + a % 0x10 && Piece(v, sh, 7, 0xf0) == 0xf0 + a % 8
            && Piece(v, sh, 3, 0xf8) == 0xf8 + a % 4 && Piece(v, sh, 1, 0xfc) == 0xfc + a % 2
  {
    var a := Top(v, k);
    Marked(a);
    PieceOf(v, sh, k, 0x3f, 0x80, 0x80 + a % 64);
    PieceOf(v, sh, k, 0x1f, 0xc0, 0xc0 + a % 0x20);
    PieceOf(v, sh, k, 0xf, 0xe0, 0xe0 + a % 0x10);
    PieceOf(v, sh, k, 7, 0xf0, 0xf0 + a % 8);
    PieceOf(v, sh, k, 3, 0xf8, 0xf8 + a % 4);
    PieceOf(v, sh, k, 1, 0xfc, 0xfc + a % 2);
  }

  lemma {:induction false} PieceOf(v: nat, sh: nat, k: nat, mask: nat, mark: nat, x: u8)
    requires sh == 6 * k && Or(And(Top(v, k), mask), mark) == x
    ensures Piece(v, sh, mask, mark) == x
  {
    ShrGroups(v, k);
  }

  lemma {:induction false} ContsFront(v: nat, k: nat)
    requires k > 0
    ensures Conts(v, k) == [0x80 + Top(v, k - 1) % 64] + Conts(v, k - 1)
    decreases k
  {
    if k > 1 { ContsFront(v / 64, k - 1); }
  }

  /** Writes bytes at the front of a buffer. */
  method Store(str: array<u8>, bs: seq<u8>)
    requires |bs| <= str.Length
    modifies str
    ensures str[..] == bs + old(str[|bs|..])
  {
    forall i | 0 <= i < |bs| { str[i] := bs[i]; }
  }

  /** A continuation byte. */
  function Tail(v: nat, sh: nat): u8 { Piece(v, sh, 0x3f, 0x80) }

  lemma {:induction false} ContsMore(v: nat, sh: nat, k: nat)
    requires sh == 6 * k
    ensures Conts(v, k + 1) == [Tail(v, sh)] + Conts(v, k)
  {
    PieceIs(v, sh, k);
    ContsFront(v, k + 1);
  }

  lemma EncodeIs2(v: nat)
    requires Len(v) == 2
    ensures Encode(v) == [Piece(v, 6, 0x1f, 0xc0), Tail(v, 0)]
  {
    PieceIs(v, 6, 1);
    ContsMore(v, 0, 0);
  }

  lemma EncodeIs3(v: nat)
    requires Len(v) == 3
    ensures Encode(v) == [Piece(v, 12, 0xf, 0xe0), Tail(v, 6), Tail(v, 0)]
  {
    PieceIs(v, 12, 2);
    ContsMore(v, 0, 0);
    ContsMore(v, 6, 1);
  }

  lemma EncodeIs4(v: nat)
    requires Len(v) == 4
    ensures Encode(v) == [Piece(v, 18, 7, 0xf0), Tail(v, 12), Tail(v, 6), Tail(v, 0)]
  {
    PieceIs(v, 18, 3);
    ContsMore(v, 0, 0);
    ContsMore(v, 6, 1);
    ContsMore(v, 12, 2);
  }

  lemma EncodeIs5(v: nat)
    requires Len(v) == 5
    ensures Encode(v) == [Piece(v, 24, 3, 0xf8), Tail(v, 18), Tail(v, 12), Tail(v, 6), Tail(v, 0)]
  {
    PieceIs(v, 24, 4);
    ContsMore(v, 0, 0);
    ContsMore(v, 6, 1);
    ContsMore(v, 12, 2);
    ContsMore(v, 18, 3);
  }

  lemma EncodeIs6(v: nat)
    requires Len(v) == 6
    ensures Encode(v) == [Piece(v, 30, 1, 0xfc), Tail(v, 24), Tail(v, 18), Tail(v, 12), Tail(v, 6), Tail(v, 0)]
  {
    PieceIs(v, 30, 5);
    ContsMore(v, 0, 0);
    ContsMore(v, 6, 1);
    ContsMore(v, 12, 2);
    ContsMore(v, 18, 3);
    ContsMore(v, 24, 4);
  }

  /** The bytes of a character, branch by branch. */
  method EncodedBytes(value: nat) returns (bs: seq<u8>)
    ensures bs == Encode(value)
  {
    if value < 0x80 { return [value]; }
    if value < 0x800 {
      EncodeIs2(value);
      return [Piece(value, 6, 0x1f, 0xc0), Tail(value, 0)];
    }
    if value < 0x1_0000 {
      EncodeIs3(value);
      return [Piece(value, 12, 0xf, 0xe0), Tail(value, 6), Tail(value, 0)];
    }
    if value < 0x20_0000 {
      EncodeIs4(value);
      return [Piece(value, 18, 7, 0xf0), Tail(value, 12), Tail(value, 6), Tail(value, 0)];
    }
    if value < 0x400_0000 {
      EncodeIs5(value);
      return [Piece(value, 24, 3, 0xf8), Tail(value, 18), Tail(value, 12), Tail(value, 6), Tail(value, 0)];
    }
    EncodeIs6(value);
    bs := [Piece(value, 30, 1, 0xfc), Tail(value, 24), Tail(value, 18), Tail(value, 12), Tail(value, 6),
           Tail(value, 0)];
  }

  /** UTF8_putc: the length of the encoding, which goes to the front of the buffer if there is
      one and it is large enough. */
  method Putc(str: array?<u8>, len: int, value: nat) returns (ret: int)
    requires str != null ==> len <= str.Length
    modifies str
    ensures ret == if str != null && len < Len(value) then -1 else Len(value)
    ensures str != null ==> str[..] == if ret < 0 then old(str[..]) else Encode(value) + old(str[ret..])
  {
    if str != null && len <= 0 { return -1; }
    var bs := EncodedBytes(value);
    if str != null {
      if len < |bs| { return -1; }
      Store(str, bs);
    }
    ret := |bs|;
  }

  // ---- reading ---------------------------------------------------------------------------------

  lemma {:induction false} ValueSnoc(a: nat, cs: seq<u8>, c: u8)
    requires AllCont(cs) && Cont(c)
    ensures Value(a, cs + [c]) == 64 * Value(a, cs) + Payload(c)
  {
    assert (cs + [c])[..|cs|] == cs;
  }

  lemma SmallPowers()
    ensures Pow2(1) == 2 && Pow2(2) == 4 && Pow2(3) == 8 && Pow2(4) == 16 && Pow2(5) == 32 && Pow2(6) == 64
    ensures Pow2(7) == 128 && Pow2(8) == 256
  {
  }

  /** p & m for a mask m of the upper bits of a byte. */
  lemma {:induction false} HighMask(p: u8, k: nat)
    requires k <= 7
    ensures Pow2(k) <= 256 && And(p, 256 - Pow2(k)) == Shr(p, k) * Pow2(k)
  {
    SmallPowers();
    AndHigh(p, k, 8);
    ShlIsMul(Shr(p, k), k);
  }

  /** The tests on a first byte and on a continuation byte. */
  lemma {:induction false} HighMasks(p: u8)
    ensures And(p, 0x80) == p / 128 * 128 && And(p, 0xc0) == p / 64 * 64 && And(p, 0xe0) == p / 32 * 32
    ensures And(p, 0xf0) == p / 16 * 16 && And(p, 0xf8) == p / 8 * 8 && And(p, 0xfc) == p / 4 * 4
    ensures And(p, 0xfe) == p / 2 * 2
  {
    SmallPowers();
    SmallShifts(p);
    HighMask(p, 1);
    HighMask(p, 2);
    HighMask(p, 3);
    HighMask(p, 4);
    HighMask(p, 5);
    HighMask(p, 6);
    HighMask(p, 7);
  }

  lemma {:induction false} LowMask(p: nat, k: nat)
    requires k <= 7
    ensures And(p, Pow2(k) - 1) == p - Shr(p, k) * Pow2(k)
  {
    AndMask(p, k);
    LowIsRest(p, k);
    ShlIsMul(Shr(p, k), k);
  }

  /** The masks that leave the lowest bits. */
  lemma {:induction false} LowMasks(p: nat)
    ensures And(p, 0x7f) == p % 128 && And(p, 0x3f) == p % 64 && And(p, 0x1f) == p % 32 && And(p, 0xf) == p % 16
    ensures And(p, 7) == p % 8 && And(p, 3) == p % 4 && And(p, 1) == p % 2
  {
    SmallPowers();
    SmallShifts(p);
    LowMask(p, 1);
    LowMask(p, 2);
    LowMask(p, 3);
    LowMask(p, 4);
    LowMask(p, 5);
    LowMask(p, 6);
    LowMask(p, 7);
  }

  lemma JoinBits(x: nat, y: nat, k: nat)
    requires y < 64
    ensures Or(x * Pow2(k + 6), Shl(y, k)) == x * Pow2(k + 6) + y * Pow2(k)
  {
    SmallPowers();
    ShlIsMul(y, k);
    ShlBelow(y, 6, k);
    ShlIsMul(x, k + 6);
    OrAdds(x, k + 6, Shl(y, k));
  }

  lemma Scaled(x: nat, y: nat, k: nat)
    ensures x * Pow2(k + 6) + y * Pow2(k) == (64 * x + y) * Pow2(k)
  {
    SmallPowers();
    Pow2Add(6, k);
    assert x * (64 * Pow2(k)) == 64 * x * Pow2(k);
  }

  /** The bytes cs are read and m more are to come. */
  predicate Partial(value: nat, a: nat, cs: seq<u8>, m: nat) {
    AllCont(cs) && value == Value(a, cs) * Pow2(6 * m)
  }

  /** The next six bits are or-ed in below what has been read. */
  lemma {:induction false} NextGroup(value: nat, a: nat, cs: seq<u8>, m: nat, b: u8)
    requires Partial(value, a, cs, m + 1) && Cont(b)
    ensures Partial(Or(value, Shl(And(b, 0x3f), 6 * m)), a, cs + [b], m)
  {
    LowMasks(b);
    ValueSnoc(a, cs, b);
    JoinBits(Value(a, cs), Payload(b), 6 * m);
    Scaled(Value(a, cs), Payload(b), 6 * m);
  }

  lemma {:induction false} FirstGroup(a: nat, m: nat)
    ensures Partial(Shl(a, 6 * m), a, [], m)
  {
    ShlIsMul(a, 6 * m);
  }

  /** The last byte leaves the value. */
  lemma {:induction false} LastGroup(value: nat, a: nat, cs: seq<u8>, all: seq<u8>)
    requires Partial(value, a, cs, 0) && cs == all
    ensures value == Value(a, all)
  {
  }

  /** Or-s the continuation byte in at its place. */
  method Group6(value0: nat, shift: nat, b: u8, ghost a: nat, ghost cs: seq<u8>, ghost m: nat) returns (value: nat)
    requires Partial(value0, a, cs, m + 1) && Cont(b) && shift == 6 * m
    ensures Partial(value, a, cs + [b], m)
  {
    NextGroup(value0, a, cs, m, b);
    value := Or(value0, Shl(And(b, 0x3f), shift));
  }

  method Assemble2(p: seq<u8>) returns (value: nat)
    requires |p| >= 2 && AllCont(p[1..2])
    ensures value == Value(And(p[0], 0x1f), p[1..2])
  {
    ghost var a, cs := And(p[0], 0x1f), p[1..2];
    FirstGroup(a, 1);
    value := Shl(And(p[0], 0x1f), 6);
    value := Group6(value, 0, p[1], a, [], 0);
    LastGroup(value, a, [] + [p[1]], cs);
  }

  method Assemble3(p: seq<u8>) returns (value: nat)
    requires |p| >= 3 && AllCont(p[1..3])
    ensures value == Value(And(p[0], 0xf), p[1..3])
  {
    ghost var a, cs := And(p[0], 0xf), p[1..3];
    FirstGroup(a, 2);
    value := Shl(And(p[0], 0xf), 12);
    value := Group6(value, 6, p[1], a, [], 1);
    value := Group6(value, 0, p[2], a, [] + [p[1]], 0);
    LastGroup(value, a, [] + [p[1]] + [p[2]], cs);
  }

  method Assemble4(p: seq<u8>) returns (value: nat)
    requires |p| >= 4 && AllCont(p[1..4])
    ensures value == Value(And(p[0], 7), p[1..4])
  {
    ghost var a, cs := And(p[0], 7), p[1..4];
    FirstGroup(a, 3);
    value := Shl(And(p[0], 7), 18);
    value := Group6(value, 12, p[1], a, [], 2);
    value := Group6(value, 6, p[2], a, [] + [p[1]], 1);
    value := Group6(value, 0, p[3], a, [] + [p[1]] + [p[2]], 0);
    LastGroup(value, a, [] + [p[1]] + [p[2]] + [p[3]], cs);
  }

  method Assemble5(p: seq<u8>) returns (value: nat)
    requires |p| >= 5 && AllCont(p[1..5])
    ensures value == Value(And(p[0], 3), p[1..5])
  {
    ghost var a, cs := And(p[0], 3), p[1..5];
    FirstGroup(a, 4);
    value := Shl(And(p[0], 3), 24);
    value := Group6(value, 18, p[1], a, [], 3);
    value := Group6(value, 12, p[2], a, [] + [p[1]], 2);
    value := Group6(value, 6, p[3], a, [] + [p[1]] + [p[2]], 1);
    value := Group6(value, 0, p[4], a, [] + [p[1]] + [p[2]] + [p[3]], 0);
    LastGroup(value, a, [] + [p[1]] + [p[2]] + [p[3]] + [p[4]], cs);
  }

  method Assemble6(p: seq<u8>) returns (value: nat)
    requires |p| >= 6 && AllCont(p[1..6])
    ensures value == Value(And(p[0], 1), p[1..6])
  {
    ghost var a, cs := And(p[0], 1), p[1..6];
    FirstGroup(a, 5);
    value := Shl(And(p[0], 1), 30);
    value := Group6(value, 24, p[1], a, [], 4);
    value := Group6(value, 18, p[2], a, [] + [p[1]], 3);
    value := Group6(value, 12, p[3], a, [] + [p[1]] + [p[2]], 2);
    value := Group6(value, 6, p[4], a, [] + [p[1]] + [p[2]] + [p[3]], 1);
    value := Group6(value, 0, p[5], a, [] + [p[1]] + [p[2]] + [p[3]] + [p[4]], 0);
    LastGroup(value, a, [] + [p[1]] + [p[2]] + [p[3]] + [p[4]] + [p[5]], cs);
  }

  lemma {:induction false} ContMask(b: u8)
    ensures And(b, 0xc0) == 0x80 <==> Cont(b)
  {
    HighMasks(b);
  }

  /** What the branch for n bytes has to answer. */
  predicate Answers(p: seq<u8>, n: nat, ret: int, value: nat) {
    ret == Code(Getc(p)) && (ret > 0 ==> Getc(p) == Char(value, ret)) && |p| > 0 && Class(p[0]) == n
  }

  /** The branch, given its continuation test and its value. */
  lemma {:induction false} BranchAnswers(p: seq<u8>, n: nat, a: nat, value: nat)
    requires 2 <= n <= |p| && Class(p[0]) == n && a == p[0] - Lead(n)
    requires AllCont(p[1..n]) ==> value == Value(a, p[1..n])
    ensures Answers(p, n, if !AllCont(p[1..n]) then -3 else if value < Limit(n - 1) then -4 else n, value)
  {
  }

  lemma BranchShort(p: seq<u8>, n: nat, value: nat)
    requires 2 <= n && 0 < |p| < n && Class(p[0]) == n
    ensures Answers(p, n, -1, value)
  {
  }

  lemma ContTest2(p: seq<u8>)
    requires |p| >= 2
    ensures (And(p[1], 0xc0) != 0x80) <==> !AllCont(p[1..2])
  {
    ContMask(p[1]);
    assert p[1..2] == [p[1]];
  }

  method Getc2(p: seq<u8>) returns (ret: int, value: nat)
    requires |p| > 0 && Class(p[0]) == 2
    ensures Answers(p, 2, ret, value)
  {
    value := 0;
    if |p| < 2 {
      BranchShort(p, 2, value);
      return -1, value;
    }
    LowMasks(p[0]);
    ContTest2(p);
    if And(p[1], 0xc0) != 0x80 {
      BranchAnswers(p, 2, And(p[0], 0x1f), value);
      return -3, value;
    }
    value := Assemble2(p);
    BranchAnswers(p, 2, And(p[0], 0x1f), value);
    if value < 0x80 { return -4, value; }
    ret := 2;
  }

  lemma ContTest3(p: seq<u8>)
    requires |p| >= 3
    ensures (And(p[1], 0xc0) != 0x80 || And(p[2], 0xc0) != 0x80) <==> !AllCont(p[1..3])
  {
    ContMask(p[1]);
    ContMask(p[2]);
    assert p[1..3] == [p[1], p[2]];
  }

  method Getc3(p: seq<u8>) returns (ret: int, value: nat)
    requires |p| > 0 && Class(p[0]) == 3
    ensures Answers(p, 3, ret, value)
  {
    value := 0;
    if |p| < 3 {
      BranchShort(p, 3, value);
      return -1, value;
    }
    LowMasks(p[0]);
    ContTest3(p);
    if And(p[1], 0xc0) != 0x80 || And(p[2], 0xc0) != 0x80 {
      BranchAnswers(p, 3, And(p[0], 0xf), value);
      return -3, value;
    }
    value := Assemble3(p);
    BranchAnswers(p, 3, And(p[0], 0xf), value);
    if value < 0x800 { return -4, value; }
    ret := 3;
  }

  lemma ContTest4(p: seq<u8>)
    requires |p| >= 4
    ensures (And(p[1], 0xc0) != 0x80 || And(p[2], 0xc0) != 0x80 || And(p[3], 0xc0) != 0x80) <==> !AllCont(p[1..4])
  {
    ContMask(p[1]);
    ContMask(p[2]);
    ContMask(p[3]);
    assert p[1..4] == [p[1], p[2], p[3]];
  }

  method Getc4(p: seq<u8>) returns (ret: int, value: nat)
    requires |p| > 0 && Class(p[0]) == 4
    ensures Answers(p, 4, ret, value)
  {
    value := 0;
    if |p| < 4 {
      BranchShort(p, 4, value);
      return -1, value;
    }
    LowMasks(p[0]);
    ContTest4(p);
    if And(p[1], 0xc0) != 0x80 || And(p[2], 0xc0) != 0x80 || And(p[3], 0xc0) != 0x80 {
      BranchAnswers(p, 4, And(p[0], 7), value);
      return -3, value;
    }
    value := Assemble4(p);
    BranchAnswers(p, 4, And(p[0], 7), value);
    if value < 0x1_0000 { return -4, value; }
    ret := 4;
  }

  lemma ContTest5(p: seq<u8>)
    requires |p| >= 5
    ensures (|| And(p[1], 0xc0) != 0x80 || And(p[2], 0xc0) != 0x80 || And(p[3], 0xc0) != 0x80
             || And(p[4], 0xc0) != 0x80) <==> !AllCont(p[1..5])
  {
    ContMask(p[1]);
    ContMask(p[2]);
    ContMask(p[3]);
    ContMask(p[4]);
    assert p[1..5] == [p[1], p[2], p[3], p[4]];
  }

  method Getc5(p: seq<u8>) returns (ret: int, value: nat)
    requires |p| > 0 && Class(p[0]) == 5
    ensures Answers(p, 5, ret, value)
  {
    value := 0;
    if |p| < 5 {
      BranchShort(p, 5, value);
      return -1, value;
    }
    LowMasks(p[0]);
    ContTest5(p);
    if And(p[1], 0xc0) != 0x80 || And(p[2], 0xc0) != 0x80 || And(p[3], 0xc0) != 0x80 || And(p[4], 0xc0) != 0x80 {
      BranchAnswers(p, 5, And(p[0], 3), value);
      return -3, value;
    }
    value := Assemble5(p);
    BranchAnswers(p, 5, And(p[0], 3), value);
    if value < 0x20_0000 { return -4, value; }
    ret := 5;
  }

  lemma ContTest6(p: seq<u8>)
    requires |p| >= 6
    ensures (|| And(p[1], 0xc0) != 0x80 || And(p[2], 0xc0) != 0x80 || And(p[3], 0xc0) != 0x80
             || And(p[4], 0xc0) != 0x80 || And(p[5], 0xc0) != 0x80) <==> !AllCont(p[1..6])
  {
    ContMask(p[1]);
    ContMask(p[2]);
    ContMask(p[3]);
    ContMask(p[4]);
    ContMask(p[5]);
    assert p[1..6] == [p[1], p[2], p[3], p[4], p[5]];
  }

  method Getc6(p: seq<u8>) returns (ret: int, value: nat)
    requires |p| > 0 && Class(p[0]) == 6
    ensures Answers(p, 6, ret, value)
  {
    value := 0;
    if |p| < 6 {
      BranchShort(p, 6, value);
      return -1, value;
    }
    LowMasks(p[0]);
    ContTest6(p);
    if || And(p[1], 0xc0) != 0x80 || And(p[2], 0xc0) != 0x80 || And(p[3], 0xc0) != 0x80
       || And(p[4], 0xc0) != 0x80 || And(p[5], 0xc0) != 0x80
    {
      BranchAnswers(p, 6, And(p[0], 1), value);
      return -3, value;
    }
    value := Assemble6(p);
    BranchAnswers(p, 6, And(p[0], 1), value);
    if value < 0x400_0000 { return -4, value; }
    ret := 6;
  }

  /** UTF8_getc: the number of bytes read and their value, or an error code. */
  method ReadChar(p: seq<u8>) returns (ret: int, value: nat)
    ensures ret == Code(Getc(p)) && (ret > 0 ==> Getc(p) == Char(value, ret))
  {
    if |p| == 0 { return 0, 0; }
    HighMasks(p[0]);
    if And(p[0], 0x80) == 0 {
      LowMasks(p[0]);
      assert p[1..1] == [];
      return 1, And(p[0], 0x7f);
    } else if And(p[0], 0xe0) == 0xc0 {
      ret, value := Getc2(p);
    } else if And(p[0], 0xf0) == 0xe0 {
      ret, value := Getc3(p);
    } else if And(p[0], 0xf8) == 0xf0 {
      ret, value := Getc4(p);
    } else if And(p[0], 0xfc) == 0xf8 {
      ret, value := Getc5(p);
    } else if And(p[0], 0xfe) == 0xfc {
      ret, value := Getc6(p);
    } else {
      return -2, 0;
    }
  }
}
