/** One end of a channel against any peer whatever: packets may come in any order, of any size
    and at any time. */
module AnyPeer {
  import opened Ints
  import opened ChannelSpec
  import Delivery

  // ---- every packet ---------------------------------------------------------------------------

  /** The packet ends the connection: a confirmation nobody asked for, extended data after EOF,
      credit beyond 32 bits. */
  predicate Breaks(c: Chan, m: Msg) {
    match m
    case Confirm(_, _) => c.kind != Opening
    case ExtData(_) => c.kind == Open && c.eofRcvd
    case Adjust(n) => c.remoteWindow as int + n >= 0x1_0000_0000
    case _ => false
  }

  /** The packet is ignored: data for a channel that is not open, more than was allowed, or
      extended data nobody asked for. */
  predicate Ignored(c: Chan, m: Msg) {
    match m
    case Data(bs) =>
      c.kind != Open || (c.ostate == OutOpen && (|bs| > c.localMaxpacket || |bs| > c.localWindow))
    case ExtData(bs) =>
      c.kind != Open || (!c.eofRcvd && (!c.efd || c.usage != ExtWrite || |bs| > c.localWindow))
    case _ => false
  }

  /** A packet ends the connection, is ignored without a trace, or is taken. */
  lemma ThreeWays(c: Chan, m: Msg)
    ensures var r := Receive(c, m);
            && (r.verdict == Fatal <==> Breaks(c, m))
            && (r.verdict != Accepted && r.verdict != Fatal <==> Ignored(c, m))
            && (r.verdict != Accepted ==> r.c == c && r.sent == [])
  {
  }

  /** The only answer a packet ever gets at once is one EOF: to a CLOSE that finds the input half
      draining, or to an EOF that forces an idle input half to drain. */
  lemma AnsweredByEof(c: Chan, m: Msg)
    ensures Receive(c, m).sent
            == if m == Close && c.kind != Larval && c.istate == InDrain then [Eof]
               else if m == Eof && c.forceDrain && c.istate == InOpen && c.input == [] && !c.closeSent then [Eof]
               else []
  {
  }

  /** CLOSE ends the input half at once, with the stderr it reads, and lets the output drain. */
  lemma OnClose(c: Chan) returns (o: OutState, efd: bool, eofSent: bool)
    ensures Receive(c, Close).c
            == c.(closeRcvd := true, istate := InClosed, ostate := o, efd := efd, eofSent := eofSent)
    ensures if c.kind == Larval then o == OutClosed else o == if c.ostate == OutOpen then OutDrain else c.ostate
    ensures efd == (c.efd && (c.kind == Larval || c.istate == InClosed || c.usage == ExtWrite))
    ensures eofSent == (c.eofSent || (c.kind != Larval && c.istate == InDrain))
  {
    if c.kind == Larval {
      o, efd, eofSent := OutClosed, c.efd, c.eofSent;
    } else {
      o := if c.ostate == OutOpen then OutDrain else c.ostate;
      efd, eofSent := OnOpenClose(c, o);
    }
  }

  lemma OnOpenClose(c: Chan, o: OutState) returns (efd: bool, eofSent: bool)
    requires c.kind != Larval && o == if c.ostate == OutOpen then OutDrain else c.ostate
    ensures Receive(c, Close).c
            == c.(closeRcvd := true, istate := InClosed, ostate := o, efd := efd, eofSent := eofSent)
    ensures efd == (c.efd && (c.istate == InClosed || c.usage == ExtWrite))
    ensures eofSent == (c.eofSent || c.istate == InDrain)
  {
    var n := c.(closeRcvd := true, ostate := o);
    assert NoteFlag(c, false, true) == n;
    efd, eofSent := InputShut(n);
  }

  lemma InputShut(c: Chan) returns (efd: bool, eofSent: bool)
    ensures ShutInput(c).c == c.(istate := InClosed, efd := efd, eofSent := eofSent)
    ensures efd == (c.efd && (c.istate == InClosed || c.usage == ExtWrite))
    ensures eofSent == (c.eofSent || c.istate == InDrain)
  {
    efd, eofSent := c.efd, c.eofSent;
    if c.istate != InClosed && c.usage != ExtWrite { efd := false; }
    if c.istate == InDrain { eofSent := true; }
  }

  /** EOF lets the output drain, and ends it if there is nothing to drain; a channel that must
      drain on EOF stops reading, and says so at once if it has nothing left to send. */
  lemma OnEof(c: Chan) returns (o: OutState, i: InState, eofSent: bool)
    ensures Receive(c, Eof).c == c.(eofRcvd := true, ostate := o, istate := i, eofSent := eofSent)
    ensures var done := c.output == [] && !(c.usage == ExtWrite && c.efd && c.extended != []);
            o == if c.ostate == OutClosed || done then OutClosed else OutDrain
    ensures if c.forceDrain && c.istate == InOpen then i == (if c.input == [] then InClosed else InDrain)
            else i == c.istate
    ensures eofSent == (c.eofSent || (c.forceDrain && c.istate == InOpen && c.input == [] && !c.closeSent))
  {
    o := if c.ostate == OutClosed || (c.output == [] && !(c.usage == ExtWrite && c.efd && c.extended != []))
         then OutClosed else OutDrain;
    var n := NoteFlag(c, true, false);
    var d := DrainOutput(n);
    assert d == c.(eofRcvd := true, ostate := o) by { Drained(c, o); }
    i, eofSent := Forced(d);
  }

  lemma Drained(c: Chan, o: OutState)
    requires o == if c.ostate == OutClosed || (c.output == [] && !(c.usage == ExtWrite && c.efd && c.extended != []))
                  then OutClosed else OutDrain
    ensures DrainOutput(NoteFlag(c, true, false)) == c.(eofRcvd := true, ostate := o)
  {
    var n := c.(eofRcvd := true, ostate := if c.ostate == OutOpen then OutDrain else c.ostate);
    assert NoteFlag(c, true, false) == n;
  }

  lemma Forced(c: Chan) returns (i: InState, eofSent: bool)
    ensures ForceDrain(c).c == c.(istate := i, eofSent := eofSent)
    ensures if c.forceDrain && c.istate == InOpen then i == (if c.input == [] then InClosed else InDrain)
            else i == c.istate
    ensures eofSent == (c.eofSent || (c.forceDrain && c.istate == InOpen && c.input == [] && !c.closeSent))
  {
    i, eofSent := c.istate, c.eofSent;
    if c.forceDrain && c.istate == InOpen {
      i := if c.input == [] then InClosed else InDrain;
      if c.input == [] && !c.closeSent { eofSent := true; }
    }
  }

  /** EOW ends an open input half, and does nothing else. */
  lemma OnEow(c: Chan)
    ensures Receive(c, Eow).c == if c.istate == InOpen then c.(istate := InClosed) else c
  {
  }

  // ---- every run --------------------------------------------------------------------------------

  /** One end, how many bytes it has taken in, and how many it has allowed. */
  datatype Solo = Solo(c: Chan, taken: nat, granted: nat)

  datatype Event = Do(a: Action) | Get(m: Msg)

  function Held(c: Chan): nat { |c.output| + if c.usage == ExtWrite then |c.extended| else 0 }

  function Credit(ms: seq<Msg>): nat {
    if ms == [] then 0 else (if ms[0].Adjust? then ms[0].n as nat else 0) + Credit(ms[1..])
  }

  predicate Possible(s: Solo, e: Event) {
    match e
    case Do(a) => Enabled(s.c, a)
    case Get(m) => Live(s.c) && Receive(s.c, m).verdict != Fatal
  }

  function Size(m: Msg): nat { if m.Data? || m.ExtData? then |m.bytes| else 0 }

  function Next(s: Solo, e: Event): Solo
    requires Possible(s, e)
  {
    match e
    case Do(a) => var r := Act(s.c, a); Solo(r.c, s.taken, s.granted + Credit(r.sent))
    case Get(m) =>
      var r := Receive(s.c, m);
      Solo(r.c, s.taken + (if r.verdict == Accepted then Size(m) else 0), s.granted + Credit(r.sent))
  }

  /** A new channel: nothing buffered, and a larval one has allowed nothing yet. */
  predicate Begins(c: Chan) {
    && c.input == c.output == c.extended == [] && c.istate == InOpen && c.ostate == OutOpen
    && !c.closeSent && !c.closeRcvd && !c.eofSent && !c.eofRcvd
    && c.localWindow == c.localWindowMax && c.localConsumed == 0 && (c.kind == Larval ==> c.localWindow == 0)
  }

  /** The books while the output half is open. */
  predicate Books(s: Solo) {
    s.c.ostate == OutOpen ==>
      && s.taken + s.c.localWindow == s.granted
      && Held(s.c) + s.c.localWindow + s.c.localConsumed == s.c.localWindowMax
      && (s.c.kind == Larval ==> s.c.localWindow == 0 && s.c.localConsumed == 0 && s.granted == 0 && Held(s.c) == 0
                                 && s.c.extended == [])
  }

  /** The halves: each flag fixes what its half can no longer be. */
  predicate Halves(c: Chan) {
    && (c.eofRcvd || c.closeRcvd ==> c.ostate != OutOpen)
    && (c.closeRcvd ==> c.istate == InClosed)
    && (c.eofSent ==> c.istate == InClosed)
    && (c.forceDrain && c.eofRcvd ==> c.istate != InOpen)
    && (c.kind == Larval || c.usage == ExtIgnore ==> c.extended == [])
  }

  predicate Inv(s: Solo) { Books(s) && Halves(s.c) }

  ghost predicate Run(ss: seq<Solo>, es: seq<Event>) {
    && |ss| == |es| + 1 && Begins(ss[0].c) && ss[0].taken == 0 && ss[0].granted == ss[0].c.localWindow
    && forall i: nat :: i < |es| ==> Possible(ss[i], es[i]) && ss[i + 1] == Next(ss[i], es[i])
  }

  /** Everything the books look at. */
  function Ledger(c: Chan): (Kind, OutState, u32, u32, u32, nat, bool) {
    (c.kind, c.ostate, c.localWindow, c.localConsumed, c.localWindowMax, Held(c), c.extended == [])
  }

  lemma SameLedger(s: Solo, d: Chan)
    requires Books(s) && Ledger(d) == Ledger(s.c)
    ensures Books(s.(c := d))
  {
  }

  lemma NoCredit(ms: seq<Msg>)
    requires forall m :: m in ms ==> !m.Adjust?
    ensures Credit(ms) == 0
  {
  }

  lemma PollKeeps(s: Solo)
    requires Inv(s) && Enabled(s.c, Poll)
    ensures Inv(Next(s, Do(Poll)))
  {
    var n, m, ends := Delivery.PollShape(s.c);
    var c, d := s.c, Delivery.Without(s.c, n, m, ends);
    assert Act(c, Poll) == Effect(d, Delivery.Packets(c, n, m, ends));
    NoCredit(Delivery.Packets(c, n, m, ends));
    PollLedger(s, n, m, ends);
    assert Next(s, Do(Poll)) == s.(c := d);
  }

  /** What a poll takes from the buffers is not what the books count. */
  lemma PollLedger(s: Solo, n: nat, m: nat, ends: bool)
    requires Inv(s) && n <= |s.c.input| && m <= |s.c.extended| && n + m <= s.c.remoteWindow
    requires (m > 0 ==> s.c.usage == ExtRead) && (ends ==> s.c.istate == InDrain)
    ensures Inv(s.(c := Delivery.Without(s.c, n, m, ends)))
  {
    var c, d := s.c, Delivery.Without(s.c, n, m, ends);
    assert Held(d) == Held(c);
  }

  lemma WriteKeeps(s: Solo, n: nat)
    requires Inv(s) && Enabled(s.c, Write(n))
    ensures Inv(Next(s, Do(Write(n))))
  {
  }

  lemma WriteExtKeeps(s: Solo, n: nat)
    requires Inv(s) && Enabled(s.c, WriteExt(n))
    ensures Inv(Next(s, Do(WriteExt(n))))
  {
  }

  lemma CheckKeeps(s: Solo)
    requires Inv(s) && Enabled(s.c, CheckWindow)
    ensures Inv(Next(s, Do(CheckWindow)))
  {
    var c := s.c;
    if MustAdjust(c) {
      assert [Adjust(c.localConsumed)][1..] == [];
      assert Credit([Adjust(c.localConsumed)]) == c.localConsumed;
    }
  }

  lemma SetFdsKeeps(s: Solo, w: u32, u: ExtUsage, e: bool)
    requires Inv(s) && Enabled(s.c, SetFds(w, u, e))
    ensures Inv(Next(s, Do(SetFds(w, u, e))))
  {
    assert [Adjust(w)][1..] == [] && Credit([Adjust(w)]) == w;
  }

  lemma ReadKeeps(s: Solo, a: Action)
    requires Inv(s) && Enabled(s.c, a) && (a.Read? || a.ReadEnd? || a.ReadExt? || a.ReadExtEnd? || a.WriteExtFail?)
    ensures Inv(Next(s, Do(a)))
  {
    var d := Act(s.c, a).c;
    assert Act(s.c, a).sent == [];
    assert Held(d) == Held(s.c);
  }

  lemma RestKeeps(s: Solo, a: Action)
    requires Inv(s) && Enabled(s.c, a) && (a.WriteFail? || a.PreOpen? || a.Collect?)
    ensures Inv(Next(s, Do(a)))
  {
    NoCredit(Act(s.c, a).sent);
  }

  lemma ActKeeps(s: Solo, a: Action)
    requires Inv(s) && Enabled(s.c, a)
    ensures Inv(Next(s, Do(a)))
  {
    match a
    case Write(n) => WriteKeeps(s, n);
    case WriteExt(n) => WriteExtKeeps(s, n);
    case CheckWindow => CheckKeeps(s);
    case Poll => PollKeeps(s);
    case SetFds(w, u, e) => SetFdsKeeps(s, w, u, e);
    case Read(_) => ReadKeeps(s, a);
    case ReadEnd => ReadKeeps(s, a);
    case ReadExt(_) => ReadKeeps(s, a);
    case ReadExtEnd => ReadKeeps(s, a);
    case WriteExtFail => ReadKeeps(s, a);
    case WriteFail => RestKeeps(s, a);
    case PreOpen => RestKeeps(s, a);
    case Collect => RestKeeps(s, a);
  }

  lemma DataKeeps(s: Solo, bs: seq<u8>)
    requires Inv(s) && Possible(s, Get(Data(bs)))
    ensures Inv(Next(s, Get(Data(bs))))
  {
    if s.c.kind == Open && s.c.ostate == OutOpen && !Ignored(s.c, Data(bs)) {
      TakenKeeps(s, bs);
    } else {
      var w, k, o := Delivery.DataShape(s.c, bs);
    }
  }

  lemma TakenKeeps(s: Solo, bs: seq<u8>)
    requires Inv(s) && Live(s.c) && s.c.kind == Open && s.c.ostate == OutOpen
    requires |bs| <= s.c.localMaxpacket && |bs| <= s.c.localWindow
    ensures Inv(Next(s, Get(Data(bs))))
  {
    var d := s.c.(localWindow := s.c.localWindow - |bs|, output := s.c.output + bs);
    assert Receive(s.c, Data(bs)) == Received(d, [], Accepted);
    assert Next(s, Get(Data(bs))) == Solo(d, s.taken + |bs|, s.granted);
  }

  lemma ExtKeeps(s: Solo, bs: seq<u8>)
    requires Inv(s) && Possible(s, Get(ExtData(bs)))
    ensures Inv(Next(s, Get(ExtData(bs))))
  {
  }

  lemma EndKeeps(s: Solo, m: Msg)
    requires Inv(s) && Possible(s, Get(m)) && (m.Eof? || m.Close? || m.Eow?)
    ensures Inv(Next(s, Get(m)))
  {
    var r := Receive(s.c, m);
    AnsweredByEof(s.c, m);
    NoCredit(r.sent);
    match m
    case Eof => var o, i, e := OnEof(s.c);
    case Close => var o, f, e := OnClose(s.c);
    case Eow => OnEow(s.c);
  }

  lemma GetKeeps(s: Solo, m: Msg)
    requires Inv(s) && Possible(s, Get(m))
    ensures Inv(Next(s, Get(m)))
  {
    match m
    case Data(bs) => DataKeeps(s, bs);
    case ExtData(bs) => ExtKeeps(s, bs);
    case Eof => EndKeeps(s, m);
    case Close => EndKeeps(s, m);
    case Eow => EndKeeps(s, m);
    case Adjust(_) =>
    case Confirm(_, _) =>
  }

  lemma {:induction false} RunKeeps(ss: seq<Solo>, es: seq<Event>, j: nat)
    requires Run(ss, es) && j <= |es|
    ensures Inv(ss[j])
  {
    if j > 0 {
      RunKeeps(ss, es, j - 1);
      match es[j - 1]
      case Do(a) => ActKeeps(ss[j - 1], a);
      case Get(m) => GetKeeps(ss[j - 1], m);
    }
  }

  /** Whatever a peer sends: as long as the output half is open, the window is what was allowed
      less what was taken, so no more is ever taken than was allowed, and every byte taken is
      buffered, consumed, or credited back. */
  lemma NeverMoreThanGranted(ss: seq<Solo>, es: seq<Event>, j: nat)
    requires Run(ss, es) && j <= |es| && ss[j].c.ostate == OutOpen
    ensures var s := ss[j];
            && s.taken <= s.granted && s.c.localWindow == s.granted - s.taken
            && |s.c.output| <= Held(s.c) == s.c.localWindowMax - s.c.localWindow - s.c.localConsumed
  {
    RunKeeps(ss, es, j);
  }

  /** And whatever it sends: after its EOF or CLOSE the output half is no longer open, after its
      CLOSE the input half is closed, an own EOF is the end of the input half, a channel that must
      drain on EOF does, and stderr nobody asked for is not kept. */
  lemma FlagsFixHalves(ss: seq<Solo>, es: seq<Event>, j: nat)
    requires Run(ss, es) && j <= |es|
    ensures Halves(ss[j].c)
  {
    RunKeeps(ss, es, j);
  }

  // ---- the event loop ------------------------------------------------------------------------------

  /** Credit is returned exactly when something was consumed and the window is more than three
      packets, or more than half, below its maximum; then all of it is returned. */
  lemma CreditPolicy(c: Chan)
    requires c.localWindow <= c.localWindowMax && c.localMaxpacket < 0x5000_0000
    requires c.localWindow as int + c.localConsumed <= c.localWindowMax
    ensures var low := c.localWindowMax - c.localWindow > 3 * (c.localMaxpacket as int)
                       || c.localWindow < c.localWindowMax / 2;
            DoCheckWindow(c)
            == if c.kind == Open && !c.closeSent && !c.closeRcvd && c.localConsumed > 0 && low
               then Effect(c.(localWindow := c.localWindow + c.localConsumed, localConsumed := 0),
                           [Adjust(c.localConsumed)])
               else Effect(c, [])
  {
  }

  /** So a channel that is checked when everything taken has been consumed is back at its
      maximum, or at least at half of it and within three packets of it. */
  lemma CreditReturns(c: Chan)
    requires c.localWindow <= c.localWindowMax && c.localMaxpacket < 0x5000_0000
    requires c.localWindow as int + c.localConsumed == c.localWindowMax
    requires c.kind == Open && !c.closeSent && !c.closeRcvd
    ensures var d := DoCheckWindow(c).c;
            || d.localWindow == d.localWindowMax
            || (d.localWindow >= d.localWindowMax / 2
                && d.localWindowMax - d.localWindow <= 3 * (d.localMaxpacket as int))
  {
    CreditPolicy(c);
  }

  /** What is waited for: input while there is credit for it and room, output while there is any,
      stderr likewise as long as one half is not closed. */
  lemma WaitsExactly(c: Chan)
    ensures var w := Wants(c);
            && (w.read <==> c.istate == InOpen && |c.input| < c.remoteWindow && |c.input| <= 0x800_0000 - 16384)
            && (w.write <==> c.ostate != OutClosed && c.output != [])
            && (w.extWrite <==> c.usage == ExtWrite && c.efd && c.extended != []
                                && (c.istate != InClosed || c.ostate != OutClosed))
            && (w.extRead ==> c.usage != ExtWrite && c.efd && !c.eofSent && |c.extended| < c.remoteWindow)
            && (c.usage != ExtWrite && c.efd && c.istate != InClosed && |c.extended| < c.remoteWindow && !c.eofSent
                ==> w.extRead)
  {
  }

  /** Both halves are closed, and no stderr is left for a lenient peer's sake. */
  predicate Finished(c: Chan, f: Fate) {
    c.istate == InClosed && c.ostate == OutClosed && !(f.extEofBug && c.usage == ExtWrite && c.efd && c.extended != [])
  }

  /** A channel is dead if it was marked so, or is finished and has nobody to tell or has been told;
      the peer is told once, by a finished channel that is not dead by decree. */
  lemma DeadExactly(c: Chan, f: Fate, doSend: bool)
    ensures ChanIsDead(c, f, doSend).1 <==> f.zombie || (Finished(c, f) && (f.local || c.closeRcvd))
    ensures var tells := !f.zombie && Finished(c, f) && !f.local && !c.closeSent && doSend;
            ChanIsDead(c, f, doSend).0 == if tells then Effect(c.(closeSent := true), [Close]) else Effect(c, [])
  {
  }

  /** A write that fails ends the output half; a session tells the peer, whose input half then stops
      reading. */
  lemma FailedWriteStopsPeer(c: Chan, peer: Chan)
    requires Enabled(c, WriteFail)
    ensures var r := Act(c, WriteFail);
            && r.c == c.(output := [], ostate := OutClosed) && r.sent == (if c.eow then [Eow] else [])
            && (c.eow ==> Receive(peer, r.sent[0]).c.istate != InOpen)
  {
    OnEow(peer);
  }

  /** A session gets its descriptors: it is open with the window asked for, and the peer is told. */
  lemma DescriptorsOpen(c: Chan, w: u32, u: ExtUsage, e: bool)
    requires Enabled(c, SetFds(w, u, e))
    ensures var r := Act(c, SetFds(w, u, e));
            && r.sent == [Adjust(w)] && r.c.kind == Open && (r.c.usage, r.c.efd) == (u, e)
            && r.c.localWindow == r.c.localWindowMax == w
            && r.c == c.(kind := Open, usage := u, efd := e, localWindow := w, localWindowMax := w)
  {
  }
}
