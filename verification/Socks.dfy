/** The SOCKS 4, 4A and 5 request decoder of a dynamic forward (sections 3 and 4 of RFC 1928
    for version 5), which is called again and again as bytes trickle in. */
module SocksSpec {
  import opened Ints
  import opened Wrappers

  /** inet_ntoa and inet_ntop. */
  datatype Resolver = Resolver(ntoa: seq<u8> -> seq<u8>, ntop: (bool, seq<u8>) -> Option<seq<u8>>)

  const NI_MAXHOST: int := 1025

  /** The part of a channel the decoder touches; `out` is everything replied so far. */
  datatype Sock = Sock(input: seq<u8>, authDone: bool, out: seq<u8>)

  datatype Outcome = Pending(s: Sock) | Rejected | Accepted(host: seq<u8>, port: nat, s: Sock)

  function PeekU16(a: u8, b: u8): nat {
    var x: int, y: int := a, b;
    256 * x + y
  }

  // ---- SOCKS 4 -----------------------------------------------------------------------

  datatype Scan = Found(i: nat) | TooLong | Short

  /** The NUL scan from position i, with `left` NULs still to find. */
  function ScanNul(p: seq<u8>, i: nat, left: nat): Scan
    requires i <= |p| && left > 0
    decreases |p| - i
  {
    if i == |p| then Short
    else if p[i] == 0 && left == 1 then Found(i)
    else if i > 1024 then TooLong
    else ScanNul(p, i + 1, if p[i] == 0 then left - 1 else left)
  }

  /** Bytes up to the first NUL, or all of them: what strlen and strdup see. */
  function CString(p: seq<u8>): (s: seq<u8>)
    ensures s <= p && (|s| < |p| ==> p[|s|] == 0) && 0 !in s
  {
    if p == [] || p[0] == 0 then [] else [p[0]] + CString(p[1..])
  }

  /** SOCKS4A announces a name with an address of the form 0.0.0.x. */
  predicate Is4a(p: seq<u8>)
    requires |p| >= 8
  {
    p[4] == 0 && p[5] == 0 && p[6] == 0 && p[7] != 0
  }

  const REPLY4: seq<u8> := [0, 90, 0, 0, 0, 0, 0, 0]

  /** A terminated string and what follows it. */
  function TakeString(p: seq<u8>): Option<(seq<u8>, seq<u8>)> {
    var str := CString(p);
    if |str| == |p| then None else Some((str, p[|str| + 1..]))
  }

  /** What follows the fixed part: a user name, then perhaps a host name. The host, and the
      bytes left over. */
  function Strings4(rz: Resolver, named: bool, addr: seq<u8>, rest: seq<u8>): Option<(seq<u8>, seq<u8>)> {
    var user := TakeString(rest);
    if user.None? then None
    else if !named then Some((rz.ntoa(addr), user.value.1))
    else
      var host := TakeString(user.value.1);
      if host.None? || |host.value.0| + 1 > NI_MAXHOST then None else host
  }

  /** Only the connect command is served. */
  function Request4(rz: Resolver, s: Sock): Outcome
    requires |s.input| >= 8
  {
    var p := s.input;
    var r := Strings4(rz, Is4a(p), p[4..8], p[8..]);
    if r.None? || p[1] != 1 then Rejected
    else Accepted(r.value.0, PeekU16(p[2], p[3]), s.(input := r.value.1, out := s.out + REPLY4))
  }

  function Decode4(rz: Resolver, s: Sock): Outcome {
    if |s.input| < 8 then Pending(s)
    else
      match ScanNul(s.input, 8, if Is4a(s.input) then 2 else 1)
      case Short => Pending(s)
      case TooLong => Rejected
      case Found(_) => Request4(rz, s)
  }

  // ---- SOCKS 5 -----------------------------------------------------------------------

  const REPLY5_METHOD: seq<u8> := [5, 0]
  const REPLY5: seq<u8> := [5, 0, 0, 1, 0, 0, 0, 0, 0, 0]

  /** The method message: version, count, methods. */
  function Methods5(s: Sock): Outcome
    requires |s.input| >= 1
  {
    if |s.input| < 2 then Pending(s)
    else
      var n: int := s.input[1];
      if |s.input| < n + 2 then Pending(s)
      else if 0 !in s.input[2..n + 2] then Rejected
      else Pending(Sock(s.input[n + 2..], true, s.out + REPLY5_METHOD))
  }

  /** Length of the address field, by address type. */
  function AddrLen(p: seq<u8>): Option<nat>
    requires |p| >= 5
  {
    if p[3] == 1 then Some(4) else if p[3] == 3 then Some(p[4]) else if p[3] == 4 then Some(16) else None
  }

  /** Where the address starts: a name is preceded by its length. */
  function AddrAt(p: seq<u8>): nat
    requires |p| >= 5
  {
    if p[3] == 3 then 5 else 4
  }

  function Host5(rz: Resolver, atyp: u8, addr: seq<u8>): Option<seq<u8>> {
    if atyp == 3 then (if |addr| >= NI_MAXHOST then None else Some(CString(addr)))
    else rz.ntop(atyp == 4, addr)
  }

  function Request5(rz: Resolver, s: Sock): Outcome {
    var p := s.input;
    if |p| < 5 then Pending(s)
    else if p[0] != 5 || p[1] != 1 || p[2] != 0 then Rejected
    else if AddrLen(p).None? then Rejected
    else
      var a, n := AddrAt(p), AddrLen(p).value;
      if |p| < a + n + 2 then Pending(s)
      else
        var host := Host5(rz, p[3], p[a..a + n]);
        if host.None? then Rejected
        else Accepted(host.value, PeekU16(p[a + n], p[a + n + 1]),
                      s.(input := p[a + n + 2..], out := s.out + REPLY5))
  }

  /** channel_pre_dynamic: one attempt at the buffered bytes. */
  function Decode(rz: Resolver, s: Sock): Outcome {
    if |s.input| < 3 then Pending(s)
    else if s.input[0] == 4 then Decode4(rz, s)
    else if s.input[0] == 5 then (if s.authDone then Request5(rz, s) else Methods5(s))
    else Rejected
  }

  // ---- driven by the event loop ---------------------------------------------------------

  /** Attempt until nothing changes any more. */
  function Drive(rz: Resolver, s: Sock): Outcome
    decreases !s.authDone
  {
    var o := Decode(rz, s);
    if o.Pending? && o.s.authDone && !s.authDone then Drive(rz, o.s) else o
  }

  function More(s: Sock, chunk: seq<u8>): Sock { s.(input := s.input + chunk) }

  /** A read: bytes after the request belong to the forwarded connection. */
  function Feed(rz: Resolver, o: Outcome, chunk: seq<u8>): Outcome {
    match o
    case Pending(s) => Drive(rz, More(s, chunk))
    case Rejected => Rejected
    case Accepted(h, p, s) => Accepted(h, p, More(s, chunk))
  }

  function FeedAll(rz: Resolver, o: Outcome, chunks: seq<seq<u8>>): Outcome
    decreases |chunks|
  {
    if chunks == [] then o else FeedAll(rz, Feed(rz, o, chunks[0]), chunks[1..])
  }

  const Fresh := Sock([], false, [])
}

module SocksTheorems {
  import opened Ints
  import opened Wrappers
  import opened SocksSpec

  /** A verdict on a prefix stands, and a refusal to decide changes nothing but the one
      completed method message. */
  predicate Stable(rz: Resolver, s: Sock, more: seq<u8>) {
    match Decode(rz, s)
    case Pending(s') =>
      || s' == s
      || (!s.authDone && s'.authDone && Decode(rz, More(s, more)) == Pending(More(s', more)))
    case Rejected => Decode(rz, More(s, more)) == Rejected
    case Accepted(h, p, s') => Decode(rz, More(s, more)) == Accepted(h, p, More(s', more))
  }

  lemma {:induction false} ScanExtends(p: seq<u8>, q: seq<u8>, i: nat, left: nat)
    requires i <= |p| && left > 0 && ScanNul(p, i, left) != Short
    ensures ScanNul(p + q, i, left) == ScanNul(p, i, left)
    decreases |p| - i
  {
    if !(p[i] == 0 && left == 1) && i <= 1024 {
      ScanExtends(p, q, i + 1, if p[i] == 0 then left - 1 else left);
    }
  }

  lemma {:induction false} CStringExtends(p: seq<u8>, q: seq<u8>)
    requires |CString(p)| < |p|
    ensures CString(p + q) == CString(p)
  {
    if p[0] != 0 {
      assert (p + q)[1..] == p[1..] + q;
      CStringExtends(p[1..], q);
    }
  }

  /** A completed scan leaves the terminators of both strings. */
  lemma {:induction false} ScanGivesNul(p: seq<u8>, i: nat, left: nat)
    requires i <= |p| && left > 0 && ScanNul(p, i, left).Found?
    ensures TakeString(p[i..]).Some?
    ensures left > 1 ==> TakeString(TakeString(p[i..]).value.1).Some?
    decreases |p| - i
  {
    assert p[i..][1..] == p[i + 1..];
    if p[i] == 0 {
      TakeEmpty(p[i..]);
      if left > 1 { ScanGivesNul(p, i + 1, left - 1); }
    } else {
      ScanGivesNul(p, i + 1, left);
      TakeCons(p[i..]);
    }
  }

  lemma TakeEmpty(p: seq<u8>)
    requires p != [] && p[0] == 0
    ensures TakeString(p) == Some(([], p[1..]))
  {
  }

  lemma TakeCons(p: seq<u8>)
    requires p != [] && p[0] != 0 && TakeString(p[1..]).Some?
    ensures var t := TakeString(p[1..]).value; TakeString(p) == Some(([p[0]] + t.0, t.1))
  {
    assert p[1..][|CString(p[1..])| + 1..] == p[|CString(p)| + 1..];
  }

  lemma TakeExtends(p: seq<u8>, more: seq<u8>)
    requires TakeString(p).Some?
    ensures var t := TakeString(p).value; TakeString(p + more) == Some((t.0, t.1 + more))
  {
    CStringExtends(p, more);
    var n := |CString(p)| + 1;
    assert (p + more)[n..] == p[n..] + more;
  }

  /** The two strings, once the scan has seen their terminators. */
  lemma StringsExtend(rz: Resolver, named: bool, addr: seq<u8>, rest: seq<u8>, more: seq<u8>)
    requires TakeString(rest).Some? && (named ==> TakeString(TakeString(rest).value.1).Some?)
    ensures var r := Strings4(rz, named, addr, rest);
            Strings4(rz, named, addr, rest + more)
            == if r.None? then None else Some((r.value.0, r.value.1 + more))
  {
    TakeExtends(rest, more);
    if named { TakeExtends(TakeString(rest).value.1, more); }
  }

  lemma Slices(p: seq<u8>, more: seq<u8>, i: nat, j: nat)
    requires i <= j <= |p|
    ensures (p + more)[i..j] == p[i..j] && (p + more)[j..] == p[j..] + more
  {
  }

  /** The verdict on a request whose strings are complete. */
  lemma RequestExtends(rz: Resolver, s: Sock, more: seq<u8>)
    requires |s.input| >= 8
    requires var r := Strings4(rz, Is4a(s.input), s.input[4..8], s.input[8..]);
             Strings4(rz, Is4a(s.input), s.input[4..8], s.input[8..] + more)
             == if r.None? then None else Some((r.value.0, r.value.1 + more))
    ensures Request4(rz, s).Rejected? ==> Request4(rz, More(s, more)) == Rejected
    ensures var r := Request4(rz, s);
            r.Accepted? ==> Request4(rz, More(s, more)) == Accepted(r.host, r.port, More(r.s, more))
    ensures !Request4(rz, s).Pending?
  {
    Slices(s.input, more, 4, 8);
    assert Is4a(s.input + more) == Is4a(s.input);
  }

  lemma Stable4(rz: Resolver, s: Sock, more: seq<u8>)
    requires |s.input| >= 8 && s.input[0] == 4
    ensures Stable(rz, s, more)
  {
    var left := if Is4a(s.input) then 2 else 1;
    assert Is4a(s.input + more) == Is4a(s.input);
    if ScanNul(s.input, 8, left) != Short { ScanExtends(s.input, more, 8, left); }
    if ScanNul(s.input, 8, left).Found? {
      ScanGivesNul(s.input, 8, left);
      StringsExtend(rz, Is4a(s.input), s.input[4..8], s.input[8..], more);
      RequestExtends(rz, s, more);
    }
  }

  lemma StableMethods(rz: Resolver, s: Sock, more: seq<u8>)
    requires |s.input| >= 3 && s.input[0] == 5 && !s.authDone
    ensures Stable(rz, s, more)
  {
    var p := s.input;
    var n: int := p[1];
    if |p| >= n + 2 {
      Slices(p, more, 2, n + 2);
    }
  }

  lemma StableRequest(rz: Resolver, s: Sock, more: seq<u8>)
    requires |s.input| >= 3 && s.input[0] == 5 && s.authDone
    ensures Stable(rz, s, more)
  {
    var p := s.input;
    if |p| >= 5 && AddrLen(p).Some? && |p| >= AddrAt(p) + AddrLen(p).value + 2 {
      var a, n := AddrAt(p), AddrLen(p).value;
      Slices(p, more, a, a + n);
      Slices(p, more, a + n, a + n + 2);
    }
  }

  lemma DecodeStable(rz: Resolver, s: Sock, more: seq<u8>)
    ensures Stable(rz, s, more)
  {
    if |s.input| >= 3 {
      if s.input[0] == 4 {
        if |s.input| >= 8 { Stable4(rz, s, more); }
      } else if s.input[0] == 5 {
        if s.authDone { StableRequest(rz, s, more); } else { StableMethods(rz, s, more); }
      }
    }
  }

  /** Bytes that arrive later might as well have arrived earlier. */
  lemma {:induction false} DriveExtends(rz: Resolver, s: Sock, more: seq<u8>)
    ensures Drive(rz, More(s, more)) == Feed(rz, Drive(rz, s), more)
    decreases !s.authDone
  {
    DecodeStable(rz, s, more);
    var o := Decode(rz, s);
    if o.Pending? && o.s.authDone && !s.authDone { DriveExtends(rz, o.s, more); }
  }

  lemma MoreTwice(s: Sock, a: seq<u8>, b: seq<u8>)
    ensures More(More(s, a), b) == More(s, a + b)
  {
    assert s.input + a + b == s.input + (a + b);
  }

  lemma {:induction false} FeedTwice(rz: Resolver, o: Outcome, a: seq<u8>, b: seq<u8>)
    ensures Feed(rz, Feed(rz, o, a), b) == Feed(rz, o, a + b)
  {
    if !o.Rejected? { MoreTwice(o.s, a, b); }
    if o.Pending? { DriveExtends(rz, More(o.s, a), b); }
  }

  /** Nothing is left to do in a decoder that was driven to quiescence. */
  predicate Quiet(rz: Resolver, o: Outcome) { o.Pending? ==> Drive(rz, o.s) == o }

  lemma {:induction false} DriveIsQuiet(rz: Resolver, s: Sock)
    ensures Quiet(rz, Drive(rz, s))
    decreases !s.authDone
  {
    var o := Decode(rz, s);
    DecodeStable(rz, s, []);
    if o.Pending? && o.s.authDone && !s.authDone { DriveIsQuiet(rz, o.s); }
  }

  lemma FeedNothing(rz: Resolver, o: Outcome)
    requires Quiet(rz, o)
    ensures Feed(rz, o, []) == o
  {
    if !o.Rejected? { assert o.s.input + [] == o.s.input; }
  }

  /** However a byte stream is split into reads, the decoder gives the same verdict: the
      same host, port, leftover bytes and replies, the same rejection, or the same wait. */
  lemma {:induction false} ChunkingIsIrrelevant(rz: Resolver, o: Outcome, chunks: seq<seq<u8>>)
    requires Quiet(rz, o)
    ensures FeedAll(rz, o, chunks) == Feed(rz, o, Concat(chunks))
    decreases |chunks|
  {
    if chunks == [] {
      FeedNothing(rz, o);
    } else {
      var o' := Feed(rz, o, chunks[0]);
      if o.Pending? { DriveIsQuiet(rz, More(o.s, chunks[0])); }
      ChunkingIsIrrelevant(rz, o', chunks[1..]);
      FeedTwice(rz, o, chunks[0], Concat(chunks[1..]));
    }
  }

  /** For two ways of splitting the same stream. */
  lemma {:induction false} SameStreamSameVerdict(rz: Resolver, xs: seq<seq<u8>>, ys: seq<seq<u8>>)
    requires Concat(xs) == Concat(ys)
    ensures FeedAll(rz, Pending(Fresh), xs) == FeedAll(rz, Pending(Fresh), ys)
  {
    ChunkingIsIrrelevant(rz, Pending(Fresh), xs);
    ChunkingIsIrrelevant(rz, Pending(Fresh), ys);
  }

  lemma MethodsShape(p: seq<u8>, n: nat)
    requires |p| >= n + 2 && n <= 255 && p[0] == 5 && p[1] == n && 0 in p[2..n + 2]
    ensures exists methods :: 0 in methods && |methods| <= 255 && p == [5, |methods|] + methods + p[n + 2..]
  {
    var methods := p[2..n + 2];
    assert p == [5, |methods|] + methods + p[n + 2..];
  }

  /** "Need more" leaves the buffer alone, or has consumed exactly one method message that
      offers no authentication. */
  lemma NeedMoreConsumes(rz: Resolver, s: Sock)
    requires Decode(rz, s).Pending? && Decode(rz, s).s != s
    ensures var s' := Decode(rz, s).s;
            && !s.authDone && s'.authDone && s'.out == s.out + REPLY5_METHOD
            && exists methods :: 0 in methods && |methods| <= 255
                  && s.input == [5, |methods|] + methods + s'.input
  {
    var n: int := s.input[1];
    MethodsShape(s.input, n);
  }

  // ---- what a client sends is what the decoder reads --------------------------------------

  /** The two bytes of a port, in network order. */
  function Port(n: nat): seq<u8>
    requires n < 65536
  {
    [n / 256, n % 256]
  }

  function Greeting5(methods: seq<u8>): seq<u8>
    requires |methods| <= 255
  {
    [5, |methods|] + methods
  }

  /** A version 5 connect request: a name carries its length, an address does not. */
  function Connect5(atyp: u8, addr: seq<u8>, port: nat): seq<u8>
    requires port < 65536 && |addr| <= 255
  {
    [5, 1, 0, atyp] + (if atyp == 3 then [|addr|] else []) + addr + Port(port)
  }

  predicate AddressFits(atyp: u8, addr: seq<u8>) {
    (atyp == 1 && |addr| == 4) || (atyp == 3 && |addr| <= 255) || (atyp == 4 && |addr| == 16)
  }

  lemma Greeted(rz: Resolver, methods: seq<u8>, rest: seq<u8>)
    requires |methods| <= 255 && |methods + rest| > 0
    ensures Decode(rz, Sock(Greeting5(methods) + rest, false, []))
            == if 0 in methods then Pending(Sock(rest, true, REPLY5_METHOD)) else Rejected
  {
    var p := Greeting5(methods) + rest;
    assert p[0] == 5 && p[1] == |methods|;
    assert p[2..|methods| + 2] == methods;
    assert p[|methods| + 2..] == rest;
  }

  lemma Connect5Shape(atyp: u8, addr: seq<u8>, port: nat, rest: seq<u8>)
    requires port < 65536 && AddressFits(atyp, addr)
    ensures var p := Connect5(atyp, addr, port) + rest; var a := if atyp == 3 then 5 else 4; var n := |addr|;
            && |p| >= a + n + 2 && p[..4] == [5, 1, 0, atyp] && (atyp == 3 ==> p[4] == n)
            && p[a..a + n] == addr && PeekU16(p[a + n], p[a + n + 1]) == port && p[a + n + 2..] == rest
  {
  }

  lemma {:induction false} Asked(rz: Resolver, atyp: u8, addr: seq<u8>, port: nat, rest: seq<u8>, out: seq<u8>)
    requires port < 65536 && AddressFits(atyp, addr)
    ensures var h := Host5(rz, atyp, addr);
            Drive(rz, Sock(Connect5(atyp, addr, port) + rest, true, out))
            == if h.None? then Rejected else Accepted(h.value, port, Sock(rest, true, out + REPLY5))
  {
    Connect5Shape(atyp, addr, port, rest);
    var p := Connect5(atyp, addr, port) + rest;
    assert p[0] == p[..4][0] && p[1] == p[..4][1] && p[2] == p[..4][2] && p[3] == p[..4][3];
    assert AddrLen(p) == Some(|addr|) && AddrAt(p) == if atyp == 3 then 5 else 4;
  }

  /** What is wanted is a name: the bytes before the first NUL, or all of them. */
  predicate Named(addr: seq<u8>, name: seq<u8>) { 0 !in name && (addr == name || name + [0] <= addr) }

  lemma {:induction false} CStringNamed(addr: seq<u8>, name: seq<u8>)
    requires Named(addr, name)
    ensures CString(addr) == name
  {
    if addr == name {
      assert CString(addr) <= addr;
    } else {
      var rest := addr[|name| + 1..];
      assert addr == name + [0] + rest;
      CStringIs(name, rest);
    }
  }

  /** What becomes of a version 5 client that wants to reach host h. */
  function Served5(h: Option<seq<u8>>, port: nat, rest: seq<u8>): Outcome {
    if h.None? then Rejected
    else Accepted(h.value, port, Sock(rest, true, [5, 0] + [5, 0, 0, 1, 0, 0, 0, 0, 0, 0]))
  }

  lemma {:induction false} Served(rz: Resolver, methods: seq<u8>, atyp: u8, addr: seq<u8>, port: nat,
                           rest: seq<u8>, chunks: seq<seq<u8>>)
    requires |methods| <= 255 && port < 65536 && AddressFits(atyp, addr)
    requires Concat(chunks) == Greeting5(methods) + (Connect5(atyp, addr, port) + rest)
    ensures FeedAll(rz, Pending(Fresh), chunks)
            == if 0 !in methods then Rejected else Served5(Host5(rz, atyp, addr), port, rest)
  {
    ChunkingIsIrrelevant(rz, Pending(Fresh), chunks);
    assert More(Fresh, Concat(chunks)) == Sock(Concat(chunks), false, []);
    Greeted(rz, methods, Connect5(atyp, addr, port) + rest);
    Asked(rz, atyp, addr, port, rest, REPLY5_METHOD);
  }

  /** A version 5 client that offers "no authentication" and then asks for an address is
      given exactly that address and port, whatever the split into reads: a name up to its
      first NUL, an IPv4 or IPv6 address as inet_ntop writes it, and a rejection exactly if
      inet_ntop cannot. One that does not offer it is turned away. */
  lemma {:induction false} Socks5Conversation(rz: Resolver, methods: seq<u8>, atyp: u8, addr: seq<u8>, port: nat,
                           rest: seq<u8>, chunks: seq<seq<u8>>, name: seq<u8>)
    requires |methods| <= 255 && port < 65536 && AddressFits(atyp, addr)
    requires Concat(chunks) == Greeting5(methods) + (Connect5(atyp, addr, port) + rest)
    ensures var o := FeedAll(rz, Pending(Fresh), chunks);
            if 0 !in methods then o == Rejected
            else match atyp
                 case 1 => o == Served5(rz.ntop(false, addr), port, rest)
                 case 4 => o == Served5(rz.ntop(true, addr), port, rest)
                 case _ => Named(addr, name) ==> o == Served5(Some(name), port, rest)
  {
    Served(rz, methods, atyp, addr, port, rest, chunks);
    if Named(addr, name) { CStringNamed(addr, name); }
  }

  /** A request is answered at its last byte and no sooner: if a stream is accepted with
      nothing left over, every shorter part of it is still waited on. */
  lemma {:induction false} NoEarlyVerdict(rz: Resolver, chunks: seq<seq<u8>>, more: seq<u8>)
    requires more != [] && Feed(rz, Pending(Fresh), Concat(chunks) + more).Accepted?
    requires Feed(rz, Pending(Fresh), Concat(chunks) + more).s.input == []
    ensures FeedAll(rz, Pending(Fresh), chunks).Pending?
  {
    ChunkingIsIrrelevant(rz, Pending(Fresh), chunks);
    FeedTwice(rz, Pending(Fresh), Concat(chunks), more);
    var o := FeedAll(rz, Pending(Fresh), chunks);
    if o.Accepted? { assert |o.s.input + more| > 0; }
  }

  /** A version 4 request: header, user name, and for 4A a host name. */
  function Connect4(command: u8, port: nat, addr: seq<u8>, user: seq<u8>, host: Option<seq<u8>>): seq<u8>
    requires port < 65536 && |addr| == 4
  {
    [4, command] + Port(port) + addr + user + [0] + (if host.None? then [] else host.value + [0])
  }

  /** The position of the last terminator. */
  function Length4(user: seq<u8>, host: Option<seq<u8>>): nat {
    8 + |user| + if host.None? then 0 else 1 + |host.value|
  }

  lemma {:induction false} ScanSkips(p: seq<u8>, i: nat, j: nat, left: nat)
    requires i <= j <= |p| && left > 0 && (forall k :: i <= k < j ==> p[k] != 0)
    requires i <= 1025
    ensures ScanNul(p, i, left) == if j <= 1025 then ScanNul(p, j, left) else TooLong
    decreases j - i
  {
    if i < j && i <= 1024 { ScanSkips(p, i + 1, j, left); }
  }

  lemma {:induction false} CStringIs(s: seq<u8>, rest: seq<u8>)
    requires 0 !in s
    ensures CString(s + [0] + rest) == s
  {
    var p := s + [0] + rest;
    if s != [] {
      CStringIs(s[1..], rest);
      assert p[1..] == s[1..] + [0] + rest;
    }
  }

  /** The scan over one terminated string. */
  lemma ScanString(p: seq<u8>, i: nat, str: seq<u8>, rest: seq<u8>, left: nat)
    requires i <= |p| && i <= 1025 && left > 0 && 0 !in str && p[i..] == str + [0] + rest
    ensures var u := i + |str|;
            && u < |p| && p[u + 1..] == rest
            && ScanNul(p, i, left) == if u > 1025 then TooLong
                                      else if left == 1 then Found(u)
                                      else if u > 1024 then TooLong
                                      else ScanNul(p, u + 1, left - 1)
  {
    var u := i + |str|;
    forall k | i <= k < u ensures p[k] != 0 { assert p[k] == p[i..][k - i] == str[k - i]; }
    assert p[u] == p[i..][|str|] == 0;
    assert p[u + 1..] == p[i..][|str| + 1..] == rest;
    ScanSkips(p, i, u, left);
  }

  /** Where the scan of a request ends: at its last terminator, unless that lies beyond
      position 1025. */
  lemma {:induction false} ScanOfConnect(p: seq<u8>, user: seq<u8>, host: Option<seq<u8>>, rest: seq<u8>)
    requires |p| >= 8 && 0 !in user && (host.Some? ==> 0 !in host.value)
    requires p[8..] == user + [0] + (if host.None? then rest else host.value + [0] + rest)
    ensures var n := 8 + |user| + if host.None? then 0 else 1 + |host.value|;
            ScanNul(p, 8, if host.None? then 1 else 2) == if n <= 1025 then Found(n) else TooLong
  {
    ScanString(p, 8, user, if host.None? then rest else host.value + [0] + rest, if host.None? then 1 else 2);
    if host.Some? && 8 + |user| <= 1024 { ScanString(p, 9 + |user|, host.value, rest, 1); }
  }

  lemma TakeIs(str: seq<u8>, rest: seq<u8>)
    requires 0 !in str
    ensures TakeString(str + [0] + rest) == Some((str, rest))
  {
    CStringIs(str, rest);
    assert (str + [0] + rest)[|str| + 1..] == rest;
  }

  lemma StringsOfConnect(rz: Resolver, addr: seq<u8>, user: seq<u8>, host: Option<seq<u8>>, rest: seq<u8>)
    requires 0 !in user && (host.Some? ==> 0 !in host.value && |host.value| < NI_MAXHOST)
    ensures var tail := user + [0] + (if host.None? then rest else host.value + [0] + rest);
            Strings4(rz, host.Some?, addr, tail)
            == Some((if host.None? then rz.ntoa(addr) else host.value, rest))
  {
    TakeIs(user, if host.None? then rest else host.value + [0] + rest);
    if host.Some? { TakeIs(host.value, rest); }
  }

  lemma Answer4(rz: Resolver, p: seq<u8>, host: seq<u8>, port: nat, rest: seq<u8>, done: bool, out: seq<u8>)
    requires |p| >= 8 && PeekU16(p[2], p[3]) == port
    requires Strings4(rz, Is4a(p), p[4..8], p[8..]) == Some((host, rest))
    ensures Request4(rz, Sock(p, done, out))
            == if p[1] != 1 then Rejected else Accepted(host, port, Sock(rest, done, out + REPLY4))
  {
  }

  lemma Granted4(rz: Resolver, p: seq<u8>, port: nat, user: seq<u8>, host: Option<seq<u8>>, rest: seq<u8>, done: bool,
                 out: seq<u8>)
    requires |p| >= 8 && p[0] == 4 && PeekU16(p[2], p[3]) == port && Is4a(p) == host.Some?
    requires p[8..] == user + [0] + (if host.None? then rest else host.value + [0] + rest)
    requires 0 !in user && (host.Some? ==> 0 !in host.value)
    ensures var n := 8 + |user| + if host.None? then 0 else 1 + |host.value|;
            Decode4(rz, Sock(p, done, out))
            == if n > 1025 || p[1] != 1 then Rejected
               else Accepted(if host.None? then rz.ntoa(p[4..8]) else host.value, port, Sock(rest, done, out + REPLY4))
  {
    ScanOfConnect(p, user, host, rest);
    if 8 + |user| + (if host.None? then 0 else 1 + |host.value|) <= 1025 {
      StringsOfConnect(rz, p[4..8], user, host, rest);
      Answer4(rz, p, if host.None? then rz.ntoa(p[4..8]) else host.value, port, rest, done, out);
    }
  }

  lemma Connect4Shape(command: u8, port: nat, addr: seq<u8>, user: seq<u8>, host: Option<seq<u8>>, rest: seq<u8>)
    requires port < 65536 && |addr| == 4
    ensures Connect4(command, port, addr, user, host) + rest
            == [4, command] + Port(port) + addr
               + (user + [0] + (if host.None? then rest else host.value + [0] + rest))
  {
    var head, strs := [4, command] + Port(port) + addr, user + [0];
    if host.None? {
      assert head + user + [0] + [] + rest == head + (strs + rest);
    } else {
      assert head + user + [0] + (host.value + [0]) + rest == head + (strs + (host.value + [0] + rest));
    }
  }

  /** A version 4 request that is decided is decided at once. */
  lemma {:induction false} Conversation4(rz: Resolver, p: seq<u8>, chunks: seq<seq<u8>>)
    requires p == Concat(chunks) && |p| >= 8 && p[0] == 4 && !Decode4(rz, Sock(p, false, [])).Pending?
    ensures FeedAll(rz, Pending(Fresh), chunks) == Decode4(rz, Sock(p, false, []))
  {
    ChunkingIsIrrelevant(rz, Pending(Fresh), chunks);
    assert More(Fresh, p) == Sock(p, false, []);
    Drive4(rz, Sock(p, false, []));
  }

  lemma Drive4(rz: Resolver, s: Sock)
    requires |s.input| >= 8 && s.input[0] == 4 && !Decode4(rz, s).Pending?
    ensures Drive(rz, s) == Decode4(rz, s)
  {
    assert Decode(rz, s) == Decode4(rz, s);
  }

  /** The verdict on a request, in any state of the conversation. */
  lemma {:induction false} Verdict4(rz: Resolver, command: u8, port: nat, addr: seq<u8>, user: seq<u8>,
                                    host: Option<seq<u8>>, rest: seq<u8>, done: bool, out: seq<u8>)
    requires port < 65536 && |addr| == 4 && 0 !in user && (host.Some? ==> 0 !in host.value)
    requires host.Some? <==> addr[..3] == [0, 0, 0] && addr[3] != 0
    ensures var p := Connect4(command, port, addr, user, host) + rest;
            && |p| >= 8 && p[0] == 4
            && Decode4(rz, Sock(p, done, out))
               == if Length4(user, host) > 1025 || command != 1 then Rejected
                  else Accepted(if host.None? then rz.ntoa(addr) else host.value, port, Sock(rest, done, out + REPLY4))
  {
    var p := Connect4(command, port, addr, user, host) + rest;
    Connect4Shape(command, port, addr, user, host, rest);
    Header4(command, port, addr, user + [0] + (if host.None? then rest else host.value + [0] + rest));
    Granted4(rz, p, port, user, host, rest, done, out);
  }

  /** A version 4 or 4A connect request is granted for exactly the host and port it names if
      its last terminator lies no further than position 1025, and refused otherwise. */
  lemma {:induction false} Socks4Conversation(rz: Resolver, command: u8, port: nat, addr: seq<u8>, user: seq<u8>,
                           host: Option<seq<u8>>, rest: seq<u8>, chunks: seq<seq<u8>>)
    requires port < 65536 && |addr| == 4 && 0 !in user && (host.Some? ==> 0 !in host.value)
    requires host.Some? <==> addr[..3] == [0, 0, 0] && addr[3] != 0
    requires Concat(chunks) == Connect4(command, port, addr, user, host) + rest
    ensures FeedAll(rz, Pending(Fresh), chunks)
            == if Length4(user, host) > 1025 || command != 1 then Rejected
               else Accepted(if host.None? then rz.ntoa(addr) else host.value, port,
                             Sock(rest, false, [0, 90, 0, 0, 0, 0, 0, 0]))
  {
    Verdict4(rz, command, port, addr, user, host, rest, false, []);
    Conversation4(rz, Concat(chunks), chunks);
    assert [] + REPLY4 == REPLY4;
  }

  lemma Header4(command: u8, port: nat, addr: seq<u8>, tail: seq<u8>)
    requires port < 65536 && |addr| == 4
    ensures var p := [4, command] + Port(port) + addr + tail;
            && |p| >= 8 && p[0] == 4 && p[1] == command && PeekU16(p[2], p[3]) == port
            && p[4..8] == addr && p[8..] == tail
            && (Is4a(p) <==> addr[..3] == [0, 0, 0] && addr[3] != 0)
  {
    var p := [4, command] + Port(port) + addr + tail;
    assert p[4..8] == addr && p[8..] == tail;
    assert p[4] == addr[0] && p[5] == addr[1] && p[6] == addr[2] && p[7] == addr[3];
    assert addr[..3] == [addr[0], addr[1], addr[2]];
  }

  // ---- after the greeting -----------------------------------------------------------------

  /** q begins with a version 4 connect request that is short enough to be served. */
  predicate Asks4(q: seq<u8>, port: nat, addr: seq<u8>, user: seq<u8>, host: Option<seq<u8>>, rest: seq<u8>) {
    && port < 65536 && |addr| == 4 && 0 !in user && (host.Some? ==> 0 !in host.value)
    && (host.Some? <==> addr[..3] == [0, 0, 0] && addr[3] != 0)
    && Length4(user, host) <= 1025
    && q == Connect4(1, port, addr, user, host) + rest
  }

  /** q begins with a version 5 connect request for an address that can be written out. */
  predicate Asks5(rz: Resolver, q: seq<u8>, atyp: u8, addr: seq<u8>, port: nat, rest: seq<u8>) {
    && port < 65536 && AddressFits(atyp, addr) && (atyp != 3 ==> rz.ntop(atyp == 4, addr).Some?)
    && q == Connect5(atyp, addr, port) + rest
  }

  lemma PortIs(a: u8, b: u8)
    ensures PeekU16(a, b) < 65536 && Port(PeekU16(a, b)) == [a, b]
  {
  }

  lemma TakeRebuilds(p: seq<u8>)
    requires TakeString(p).Some?
    ensures var t := TakeString(p).value; 0 !in t.0 && p == t.0 + [0] + t.1
  {
    var str := CString(p);
    assert p == p[..|str|] + [p[|str|]] + p[|str| + 1..];
  }

  /** The fixed part of a version 4 request, taken apart. */
  lemma Rebuild4(q: seq<u8>, tail: seq<u8>)
    requires |q| >= 8 && q[0] == 4 && q[1] == 1 && tail == q[8..]
    ensures PeekU16(q[2], q[3]) < 65536 && q == [4, 1] + Port(PeekU16(q[2], q[3])) + q[4..8] + tail
    ensures Is4a(q) <==> q[4..8][..3] == [0, 0, 0] && q[4..8][3] != 0
  {
    PortIs(q[2], q[3]);
    assert q == [q[0], q[1]] + [q[2], q[3]] + q[4..8] + q[8..];
    assert q[4..8][..3] == [q[4], q[5], q[6]];
  }

  /** What the version 4 decoder accepts is a connect request. */
  lemma {:induction false} Accepted4Asks(rz: Resolver, q: seq<u8>, done: bool, out: seq<u8>)
    requires |q| >= 3 && q[0] == 4 && Decode4(rz, Sock(q, done, out)).Accepted?
    ensures exists port, addr, user, host, rest :: Asks4(q, port, addr, user, host, rest)
  {
    var port, addr := PeekU16(q[2], q[3]), q[4..8];
    var user := TakeString(q[8..]).value;
    TakeRebuilds(q[8..]);
    Rebuild4(q, q[8..]);
    var host, rest := None, user.1;
    if Is4a(q) {
      var h := TakeString(user.1).value;
      TakeRebuilds(user.1);
      host, rest := Some(h.0), h.1;
    }
    Connect4Shape(1, port, addr, user.0, host, rest);
    Verdict4(rz, 1, port, addr, user.0, host, rest, done, out);
    assert Asks4(q, port, addr, user.0, host, rest);
  }

  lemma {:induction false} Accepted5Asks(rz: Resolver, q: seq<u8>, done: bool, out: seq<u8>)
    requires Request5(rz, Sock(q, done, out)).Accepted?
    ensures exists atyp, addr, port, rest :: Asks5(rz, q, atyp, addr, port, rest)
  {
    var a, n := AddrAt(q), AddrLen(q).value;
    var atyp, addr, port, rest := q[3], q[a..a + n], PeekU16(q[a + n], q[a + n + 1]), q[a + n + 2..];
    PortIs(q[a + n], q[a + n + 1]);
    assert q[..a] == [5, 1, 0, atyp] + if atyp == 3 then [n] else [];
    assert q == q[..a] + addr + [q[a + n], q[a + n + 1]] + rest;
    assert Asks5(rz, q, atyp, addr, port, rest);
  }

  /** Once "no authentication" was offered, what follows is decoded on its own, however the
      bytes are split. */
  lemma {:induction false} AfterGreeting(rz: Resolver, methods: seq<u8>, q: seq<u8>, chunks: seq<seq<u8>>)
    requires |methods| <= 255 && 0 in methods && Concat(chunks) == Greeting5(methods) + q
    ensures FeedAll(rz, Pending(Fresh), chunks) == Decode(rz, Sock(q, true, REPLY5_METHOD))
  {
    ChunkingIsIrrelevant(rz, Pending(Fresh), chunks);
    var s := Sock(Concat(chunks), false, []);
    assert More(Fresh, Concat(chunks)) == s && |methods + q| > 0;
    Greeted(rz, methods, q);
    DriveOn(rz, s, Sock(q, true, REPLY5_METHOD));
  }

  lemma DriveOn(rz: Resolver, s: Sock, t: Sock)
    requires !s.authDone && t.authDone && Decode(rz, s) == Pending(t)
    ensures Drive(rz, s) == Decode(rz, t)
  {
    assert Drive(rz, s) == Drive(rz, t);
  }

  /** A version 4 connect request after a version 5 greeting is granted, with the replies of
      both versions. */
  lemma {:induction false} Version4AfterGreeting(rz: Resolver, methods: seq<u8>, q: seq<u8>, chunks: seq<seq<u8>>,
                                                 port: nat, addr: seq<u8>, user: seq<u8>, host: Option<seq<u8>>,
                                                 rest: seq<u8>)
    requires |methods| <= 255 && 0 in methods && Concat(chunks) == Greeting5(methods) + q
    requires Asks4(q, port, addr, user, host, rest)
    ensures FeedAll(rz, Pending(Fresh), chunks)
            == Accepted(if host.None? then rz.ntoa(addr) else host.value, port,
                        Sock(rest, true, REPLY5_METHOD + REPLY4))
  {
    AfterGreeting(rz, methods, q, chunks);
    Verdict4(rz, 1, port, addr, user, host, rest, true, REPLY5_METHOD);
  }

  lemma {:induction false} Version5AfterGreeting(rz: Resolver, methods: seq<u8>, q: seq<u8>, chunks: seq<seq<u8>>,
                                                 atyp: u8, addr: seq<u8>, port: nat, rest: seq<u8>)
    requires |methods| <= 255 && 0 in methods && Concat(chunks) == Greeting5(methods) + q
    requires Asks5(rz, q, atyp, addr, port, rest)
    ensures FeedAll(rz, Pending(Fresh), chunks)
            == Accepted(Host5(rz, atyp, addr).value, port, Sock(rest, true, REPLY5_METHOD + REPLY5))
  {
    Served(rz, methods, atyp, addr, port, rest, chunks);
  }

  /** So a version 5 greeting does not bind the client to version 5: access is granted by the
      version 4 reply exactly if a version 4 connect request follows, and by the version 5
      reply exactly if a version 5 one does, and in no other way. */
  lemma {:induction false} GrantedAfterGreetingExactly(rz: Resolver, methods: seq<u8>, q: seq<u8>, chunks: seq<seq<u8>>)
    requires |methods| <= 255 && 0 in methods && Concat(chunks) == Greeting5(methods) + q
    ensures var o := FeedAll(rz, Pending(Fresh), chunks);
            && (o.Accepted? ==> o.s.out in {REPLY5_METHOD + REPLY4, REPLY5_METHOD + REPLY5})
            && (o.Accepted? && o.s.out == REPLY5_METHOD + REPLY4 <==>
                  exists port, addr, user, host, rest :: Asks4(q, port, addr, user, host, rest))
            && (o.Accepted? && o.s.out == REPLY5_METHOD + REPLY5 <==>
                  exists atyp, addr, port, rest :: Asks5(rz, q, atyp, addr, port, rest))
  {
    AfterGreeting(rz, methods, q, chunks);
    var o := FeedAll(rz, Pending(Fresh), chunks);
    assert (REPLY5_METHOD + REPLY4)[2] == 0 && (REPLY5_METHOD + REPLY5)[2] == 5;
    if o.Accepted? {
      if q[0] == 4 {
        Accepted4Asks(rz, q, true, REPLY5_METHOD);
      } else {
        Accepted5Asks(rz, q, true, REPLY5_METHOD);
      }
    }
    forall port, addr, user, host, rest | Asks4(q, port, addr, user, host, rest)
      ensures o.Accepted? && o.s.out == REPLY5_METHOD + REPLY4
    {
      Version4AfterGreeting(rz, methods, q, chunks, port, addr, user, host, rest);
    }
    forall atyp, addr, port, rest | Asks5(rz, q, atyp, addr, port, rest)
      ensures o.Accepted? && o.s.out == REPLY5_METHOD + REPLY5
    {
      Version5AfterGreeting(rz, methods, q, chunks, atyp, addr, port, rest);
    }
  }

  /** For instance: a greeting that offers "no authentication", then a version 4 request for
      port 80 of 10.0.0.1. */
  lemma {:induction false} GreetingDoesNotBind(rz: Resolver)
    ensures FeedAll(rz, Pending(Fresh), [Greeting5([0]), Connect4(1, 80, [10, 0, 0, 1], [], None)])
            == Accepted(rz.ntoa([10, 0, 0, 1]), 80, Sock([], true, REPLY5_METHOD + REPLY4))
  {
    var g, q: seq<u8> := Greeting5([0]), Connect4(1, 80, [10, 0, 0, 1], [], None);
    assert [g, q][1..] == [q] && [q][1..] == [] && Concat([q]) == q + [] && Concat([g, q]) == g + q;
    assert q == q + [] && [10, 0, 0, 1][..3] == [10, 0, 0];
    Version4AfterGreeting(rz, [0], q, [g, q], 80, [10, 0, 0, 1], [], None, []);
  }
}
