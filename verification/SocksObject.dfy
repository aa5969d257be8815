/** A dynamic-forward channel while it decodes its request, updated in place. */
module SocksObject {
  import opened Ints
  import opened Wrappers
  import opened SocksSpec
  import opened SocksTheorems

  datatype Kind = Dynamic | Dead | Opening

  /** Whether the first `need` NULs from position 8 are there: -1 too long, 0 not yet, 1 yes. */
  method FindTerminators(p: seq<u8>, need: nat) returns (ret: int)
    requires |p| >= 8 && need > 0
    ensures ret == match ScanNul(p, 8, need) { case TooLong => -1 case Short => 0 case Found(_) => 1 }
  {
    var found, i := 0, 8;
    while i < |p|
      invariant 8 <= i <= |p| && found < need
      invariant ScanNul(p, 8, need) == ScanNul(p, i, need - found)
    {
      if p[i] == 0 {
        if found + 1 == need { return 1; }
        found := found + 1;
      }
      if i > 1024 { return -1; }
      i := i + 1;
    }
    ret := 0;
  }

  method StrLen(p: seq<u8>) returns (n: nat)
    ensures n == |CString(p)| && p[..n] == CString(p)
  {
    n := 0;
    while n < |p| && p[n] != 0
      invariant n <= |p| && |CString(p)| == n + |CString(p[n..])|
    {
      assert p[n..][1..] == p[n + 1..];
      n := n + 1;
    }
  }

  class DynamicChannel {
    const rz: Resolver
    var kind: Kind
    var input: seq<u8>
    var output: seq<u8>
    var authDone: bool
    var path: Option<seq<u8>>
    var hostPort: nat

    ghost function View(): Sock
      reads this
    {
      Sock(input, authDone, output)
    }

    /** The verdict is the specified one, and on acceptance the target is filled in. */
    ghost predicate Became(o: Outcome, ret: int)
      reads this
    {
      match o
      case Pending(s) => ret == 0 && View() == s
      case Rejected => ret < 0
      case Accepted(h, p, s) => ret == 1 && View() == s && path == Some(h) && hostPort == p
    }

    /** Consumes the user name and, for 4A, the host name. */
    method TakeStrings4(named: bool, addr: seq<u8>) returns (ok: bool)
      modifies `input, `path
      ensures var r := Strings4(rz, named, addr, old(input));
              ok == r.Some? && (ok ==> path == Some(r.value.0) && input == r.value.1)
    {
      var len := StrLen(input);
      if len == |input| { return false; }
      input := input[len + 1..];
      path := None;
      if !named {
        path := Some(rz.ntoa(addr));
      } else {
        len := StrLen(input);
        if len == |input| || len + 1 > NI_MAXHOST { return false; }
        path := Some(input[..len]);
        input := input[len + 1..];
      }
      ok := true;
    }

    /** The channel as a whole is where the specification says. */
    ghost predicate Is(o: Outcome)
      reads this
    {
      match o
      case Pending(s) => kind == Dynamic && View() == s
      case Rejected => kind == Dead
      case Accepted(h, p, s) => kind == Opening && View() == s && path == Some(h) && hostPort == p
    }

    /** A complete request: the strings, the port, the reply. */
    method AnswerSocks4(named: bool) returns (ret: int)
      requires |input| >= 8 && named == Is4a(input)
      modifies `input, `output, `path, `hostPort
      ensures Became(Request4(rz, old(View())), ret)
    {
      var p := input;
      input := p[8..];
      var ok := TakeStrings4(named, p[4..8]);
      if !ok { return -1; }
      hostPort := PeekU16(p[2], p[3]);
      if p[1] != 1 { return -1; }
      output := output + REPLY4;
      ret := 1;
    }

    method DecodeSocks4() returns (ret: int)
      modifies `input, `output, `path, `hostPort
      ensures Became(Decode4(rz, old(View())), ret)
    {
      var p := input;
      if |p| < 8 { return 0; }
      var named := p[4] == 0 && p[5] == 0 && p[6] == 0 && p[7] != 0;
      ret := FindTerminators(p, if named then 2 else 1);
      if ret > 0 { ret := AnswerSocks4(named); }
    }

    method OffersNoAuth(p: seq<u8>, n: nat) returns (found: bool)
      requires |p| >= n + 2
      ensures found <==> 0 in p[2..n + 2]
    {
      var i := 2;
      while i < n + 2
        invariant 2 <= i <= n + 2 && 0 !in p[2..i]
      {
        if p[i] == 0 {
          assert p[2..n + 2][i - 2] == 0;
          return true;
        }
        assert p[2..i + 1] == p[2..i] + [p[i]];
        i := i + 1;
      }
      found := false;
    }

    method DecodeMethods5() returns (ret: int)
      requires !authDone && |input| >= 1 && input[0] == 5
      modifies `input, `output, `authDone
      ensures Became(Methods5(old(View())), ret)
    {
      var p := input;
      if |p| < 2 { return 0; }
      var n: int := p[1];
      if |p| < n + 2 { return 0; }
      var found := OffersNoAuth(p, n);
      if !found { return -1; }
      input := p[n + 2..];
      output := output + [5, 0];
      authDone := true;
      ret := 0;
    }

    /** Consumes a request up to and including its port. */
    method TakeAddress(at: nat, addrLen: nat) returns (addr: seq<u8>, port: nat)
      requires |input| >= at + addrLen + 2
      modifies `input
      ensures var p := old(input);
              && addr == p[at..at + addrLen] && port == PeekU16(p[at + addrLen], p[at + addrLen + 1])
              && input == p[at + addrLen + 2..]
    {
      input := input[at..];
      addr := input[..addrLen];
      input := input[addrLen..];
      port := PeekU16(input[0], input[1]);
      input := input[2..];
    }

    method SetHost5(atyp: u8, addr: seq<u8>) returns (ok: bool)
      modifies `path
      ensures path == Host5(rz, atyp, addr) && ok == path.Some?
      ensures atyp != 3 ==> path == rz.ntop(atyp == 4, addr)
      ensures forall name :: atyp == 3 && |addr| < 1025 && Named(addr, name) ==> path == Some(name)
      ensures atyp == 3 && |addr| >= 1025 ==> path == None
    {
      forall name | Named(addr, name) ensures CString(addr) == name { CStringNamed(addr, name); }
      path := None;
      if atyp == 3 {
        if |addr| >= NI_MAXHOST { return false; }
        var len := StrLen(addr);
        path := Some(addr[..len]);
      } else {
        path := rz.ntop(atyp == 4, addr);
      }
      ok := path.Some?;
    }

    method DecodeRequest5() returns (ret: int)
      requires authDone
      modifies `input, `output, `path, `hostPort
      ensures Became(Request5(rz, old(View())), ret)
    {
      var p := input;
      if |p| < 5 { return 0; }
      if p[0] != 5 || p[1] != 1 || p[2] != 0 { return -1; }
      var addrLen: int;
      if p[3] == 1 {
        addrLen := 4;
      } else if p[3] == 3 {
        addrLen := p[4];
      } else if p[3] == 4 {
        addrLen := 16;
      } else {
        return -1;
      }
      var at := if p[3] == 3 then 5 else 4;
      if |p| < at + addrLen + 2 { return 0; }
      var addr, port := TakeAddress(at, addrLen);
      var ok := SetHost5(p[3], addr);
      if !ok { return -1; }
      hostPort := port;
      output := output + REPLY5;
      ret := 1;
    }

    /** One round of the event loop: the channel dies, waits, or goes on to open. */
    method PreDynamic()
      requires kind == Dynamic
      modifies this
      ensures Is(Decode(rz, old(View())))
    {
      if |input| < 3 { return; }
      var ret := -1;
      if input[0] == 4 {
        ret := DecodeSocks4();
      } else if input[0] == 5 {
        if !authDone { ret := DecodeMethods5(); } else { ret := DecodeRequest5(); }
      }
      if ret < 0 {
        kind := Dead;
      } else if ret > 0 {
        kind := Opening;
      }
    }

    /** Rounds of the event loop until one changes nothing. */
    method Settle()
      requires kind == Dynamic
      modifies this
      ensures Is(Drive(rz, old(View())))
    {
      var before := authDone;
      ghost var s0 := View();
      PreDynamic();
      if kind == Dynamic && authDone && !before {
        ghost var s1 := View();
        assert Decode(rz, s0) == Pending(s1);
        assert Drive(rz, s0) == Drive(rz, s1) == Decode(rz, s1);
        PreDynamic();
      }
    }

    /** A read, and the rounds that follow it. */
    method ReadChunk(chunk: seq<u8>, ghost o: Outcome)
      requires Is(o)
      modifies this
      ensures Is(Feed(rz, o, chunk))
    {
      if kind == Dead { return; }
      input := input + chunk;
      if kind == Dynamic { Settle(); }
    }

    /** A whole conversation, read by read: the outcome is that of reading it at once. */
    method ReadAll(chunks: seq<seq<u8>>)
      requires Is(Pending(Fresh))
      modifies this
      ensures Is(FeedAll(rz, Pending(Fresh), chunks))
      ensures Is(Feed(rz, Pending(Fresh), Concat(chunks)))
    {
      ghost var o := Pending(Fresh);
      for i := 0 to |chunks|
        invariant Is(o) && FeedAll(rz, Pending(Fresh), chunks) == FeedAll(rz, o, chunks[i..])
      {
        ReadChunk(chunks[i], o);
        o := Feed(rz, o, chunks[i]);
        assert chunks[i..][1..] == chunks[i + 1..];
      }
      assert chunks[|chunks|..] == [];
      ChunkingIsIrrelevant(rz, Pending(Fresh), chunks);
    }
  }
}
