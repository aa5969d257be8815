/** How the halves of a channel come to an end: what each state of a half says about what has
    happened, over every run, and that what was read is written at the other end and followed by
    EOF and CLOSE. */
module Delivery {
  import opened Ints
  import opened ChannelSpec
  import opened Flow

  // ---- what a poll sends ------------------------------------------------------------------------

  predicate Smallest(n: nat, x: nat, y: nat, z: nat) {
    n <= x && n <= y && n <= z && (n == x || n == y || n == z)
  }

  /** The packets for n bytes of input, the end of the input, and m bytes of stderr. */
  function Packets(c: Chan, n: nat, m: nat, ends: bool): seq<Msg>
    requires n <= |c.input| && m <= |c.extended|
  {
    (if n > 0 then [Data(c.input[..n])] else []) + (if ends then [Eof] else [])
    + (if m > 0 then [ExtData(c.extended[..m])] else [])
  }

  /** The channel without them. */
  function Without(c: Chan, n: nat, m: nat, ends: bool): Chan
    requires n <= |c.input| && m <= |c.extended| && n + m <= c.remoteWindow
  {
    c.(input := c.input[n..], extended := c.extended[m..], remoteWindow := c.remoteWindow - n - m,
       istate := if ends then InClosed else c.istate, eofSent := c.eofSent || ends)
  }

  /** A half that ends has nothing left to send, and no stderr to wait for. */
  predicate Ends(c: Chan) {
    c.istate == InDrain && c.input == [] && !(c.usage == ExtRead && (c.efd || c.extended != []))
  }

  /** One packet of input, as much as the buffer, the window and the packet size allow, then one of
      stderr from what is left of the window; and once an ending half has neither, its EOF. */
  lemma PollSends(c: Chan, n: nat, m: nat)
    requires c.kind == Open && !c.closeSent && !c.closeRcvd && (c.eofSent ==> c.istate == InClosed)
    requires Smallest(n, if c.istate == InClosed then 0 else |c.input|, c.remoteWindow, c.remoteMaxpacket)
    requires Smallest(m, if c.usage == ExtRead && !c.eofSent then |c.extended| else 0, c.remoteWindow - n,
                      c.remoteMaxpacket)
    ensures DoPoll(c) == Effect(Without(c, n, m, Ends(c)), Packets(c, n, m, Ends(c)))
  {
    assert c.input[0..] == c.input && c.extended[0..] == c.extended;
    PollFirstSends(c, n);
  }

  lemma PollFirstSends(c: Chan, n: nat)
    requires c.kind == Open && !c.closeSent && !c.closeRcvd && (c.eofSent ==> c.istate == InClosed)
    requires Smallest(n, if c.istate == InClosed then 0 else |c.input|, c.remoteWindow, c.remoteMaxpacket)
    ensures DoPollFirst(c) == Effect(Without(c, n, 0, Ends(c)), Packets(c, n, 0, Ends(c)))
  {
    assert c.input[0..] == c.input && c.extended[0..] == c.extended;
  }

  /** Otherwise nothing is sent. */
  lemma PollIdles(c: Chan)
    requires c.kind != Open || c.closeSent || c.closeRcvd
    ensures DoPoll(c) == Effect(Without(c, 0, 0, false), Packets(c, 0, 0, false))
  {
    assert c.input[0..] == c.input && c.extended[0..] == c.extended;
  }

  /** There is something left to do for a half that ends, and room to do it. */
  predicate CanProgress(c: Chan) {
    && c.kind == Open && !c.closeSent && !c.closeRcvd && !c.eofSent && c.istate == InDrain
    && c.remoteWindow > 0 && c.remoteMaxpacket > 0 && (c.usage == ExtRead ==> !c.efd)
  }

  lemma PollAmounts(c: Chan) returns (n: nat, m: nat, ends: bool)
    requires c.eofSent ==> c.istate == InClosed
    ensures Smallest(n, if c.istate == InClosed then 0 else |c.input|, c.remoteWindow, c.remoteMaxpacket)
    ensures Smallest(m, if c.usage == ExtRead && !c.eofSent then |c.extended| else 0, c.remoteWindow - n,
                     c.remoteMaxpacket)
    ensures ends == Ends(c)
    ensures CanProgress(c) ==> n > 0 || m > 0 || ends
  {
    n := Min(Min(if c.istate == InClosed then 0 else |c.input|, c.remoteWindow), c.remoteMaxpacket);
    m := Min(Min(if c.usage == ExtRead && !c.eofSent then |c.extended| else 0, c.remoteWindow - n), c.remoteMaxpacket);
    ends := Ends(c);
  }

  /** What a poll comes to. */
  predicate Shape(c: Chan, n: nat, m: nat, ends: bool) {
    && n <= |c.input| && m <= |c.extended| && n + m <= c.remoteWindow
    && (n > 0 ==> c.istate != InClosed) && (m > 0 ==> c.usage == ExtRead)
    && (ends ==> c.input == [] && c.istate == InDrain && UnsentExt(c) == [])
    && (CanProgress(c) ==> n > 0 || m > 0 || ends)
    && DoPoll(c) == Effect(Without(c, n, m, ends), Packets(c, n, m, ends))
  }

  lemma OpenShape(c: Chan) returns (n: nat, m: nat, ends: bool)
    requires c.kind == Open && !c.closeSent && !c.closeRcvd && (c.eofSent ==> c.istate == InClosed)
    ensures Shape(c, n, m, ends)
  {
    n, m, ends := PollAmounts(c);
    PollSends(c, n, m);
  }

  lemma PollShape(c: Chan) returns (n: nat, m: nat, ends: bool)
    requires c.eofSent ==> c.istate == InClosed
    ensures Shape(c, n, m, ends)
  {
    if c.kind == Open && !c.closeSent && !c.closeRcvd {
      n, m, ends := OpenShape(c);
    } else {
      n, m, ends := 0, 0, false;
      PollIdles(c);
    }
  }

  /** A data packet touches the books and the output only. */
  lemma DataShape(c: Chan, bs: seq<u8>) returns (w: u32, k: u32, o: seq<u8>)
    ensures ReceiveData(c, bs).c == c.(localWindow := w, localConsumed := k, output := o)
    ensures ReceiveData(c, bs).sent == []
  {
    w, k, o := c.localWindow, c.localConsumed, c.output;
    if c.kind == Open {
      if c.ostate != OutOpen {
        w, k := Sub32(c.localWindow, |bs|), Add32(c.localConsumed, |bs|);
      } else if |bs| <= c.localMaxpacket && |bs| <= c.localWindow {
        w, o := Sub32(c.localWindow, |bs|), c.output + bs;
      }
    }
  }

  // ---- what the state of a half means ------------------------------------------------------------

  /** An input half is closed with nothing left in it after its EOF, or because the peer closed the
      channel or wants no more; no EOF overtakes buffered bytes, unless it answers a CLOSE, or
      stderr, unless the drain was forced. An output half ends when the peer's data has ended or a
      write failed, and only then is anything dropped. */
  predicate EndsOk(p: Peer) {
    && (p.c.istate == InClosed ==> p.c.closeRcvd || p.h.eowRcvd || (p.c.eofSent && p.c.input == []))
    && (p.c.eofSent && p.c.input != [] ==> p.c.closeRcvd)
    && (p.c.eofSent && UnsentExt(p.c) != [] ==> p.c.closeRcvd || (p.c.forceDrain && p.c.eofRcvd))
    && (p.c.eofRcvd || p.c.closeRcvd ==> p.c.ostate != OutOpen)
    && (p.c.ostate == OutClosed ==> p.c.eofRcvd || p.c.closeRcvd || p.h.lost > 0)
    && (p.h.dropped != [] ==> p.h.lost > 0)
  }

  lemma InitEnds(n: Net)
    requires Init(n)
    ensures EndsOk(n.a) && EndsOk(n.b)
  {
  }

  lemma ReadKeepsEnds(p: Peer, a: Action)
    requires PeerOk(p) && EndsOk(p) && Enabled(p.c, a) && IsRead(a)
    ensures EndsOk(Peer(Act(p.c, a).c, RecordAct(p, a)))
  {
  }

  lemma WriteKeepsEnds(p: Peer, a: Action)
    requires PeerOk(p) && EndsOk(p) && Enabled(p.c, a) && IsWrite(a)
    ensures EndsOk(Peer(Act(p.c, a).c, RecordAct(p, a)))
  {
  }

  lemma PollKeepsEnds(p: Peer)
    requires PeerOk(p) && EndsOk(p)
    ensures EndsOk(Peer(DoPoll(p.c).c, p.h))
  {
    var n, m, ends := PollShape(p.c);
  }

  lemma ActKeepsEnds(p: Peer, a: Action)
    requires PeerOk(p) && EndsOk(p) && Enabled(p.c, a)
    ensures EndsOk(Peer(Act(p.c, a).c, RecordAct(p, a)))
  {
    if IsRead(a) {
      ReadKeepsEnds(p, a);
    } else if IsWrite(a) {
      WriteKeepsEnds(p, a);
    } else if a.Poll? {
      PollKeepsEnds(p);
    } else {
      TurnKeepsEnds(p, a);
    }
  }

  lemma TurnKeepsEnds(p: Peer, a: Action)
    requires PeerOk(p) && EndsOk(p) && Enabled(p.c, a) && !IsRead(a) && !IsWrite(a) && !a.Poll?
    ensures EndsOk(Peer(Act(p.c, a).c, RecordAct(p, a)))
  {
  }

  lemma DataKeepsEnds(p: Peer, m: Msg)
    requires PeerOk(p) && EndsOk(p) && Fits(p.c, m) && IsData(m)
    ensures EndsOk(Peer(Receive(p.c, m).c, RecordMsg(p, m)))
  {
  }

  lemma EofKeepsEnds(p: Peer)
    requires PeerOk(p) && EndsOk(p) && Fits(p.c, Eof)
    ensures EndsOk(Peer(ReceiveEof(p.c).c, p.h))
  {
    var q := DrainOutput(NoteFlag(p.c, true, false));
    assert EndsOk(Peer(q, p.h));
  }

  lemma CloseKeepsEnds(p: Peer)
    requires PeerOk(p) && EndsOk(p) && Fits(p.c, Close)
    ensures EndsOk(Peer(ReceiveClose(p.c).c, p.h))
  {
  }

  lemma PacketKeepsEnds(p: Peer, m: Msg)
    requires PeerOk(p) && EndsOk(p) && Fits(p.c, m)
    ensures EndsOk(Peer(Receive(p.c, m).c, RecordMsg(p, m)))
  {
    match m
    case Data(_) => DataKeepsEnds(p, m);
    case ExtData(_) => DataKeepsEnds(p, m);
    case Eof => EofKeepsEnds(p);
    case Close => CloseKeepsEnds(p);
    case Eow => EowKeepsEnds(p);
    case Adjust(_) => NewsKeepsEnds(p, m);
    case Confirm(_, _) => NewsKeepsEnds(p, m);
  }

  lemma EowKeepsEnds(p: Peer)
    requires PeerOk(p) && EndsOk(p) && Fits(p.c, Eow)
    ensures EndsOk(Peer(Receive(p.c, Eow).c, RecordMsg(p, Eow)))
  {
  }

  lemma NewsKeepsEnds(p: Peer, m: Msg)
    requires PeerOk(p) && EndsOk(p) && Fits(p.c, m) && (m.Adjust? || m.Confirm?)
    ensures EndsOk(Peer(Receive(p.c, m).c, RecordMsg(p, m)))
  {
  }

  lemma StepKeepsEnds(n: Net, e: Event)
    requires Inv(n) && EndsOk(n.a) && CanStep(n, e)
    ensures EndsOk(StepA(n, e).a)
  {
    match e
    case Local(act) => ActKeepsEnds(n.a, act);
    case Deliver =>
      HeadFits(n);
      PacketKeepsEnds(n.a, n.ba[0]);
  }

  // ---- EOF and CLOSE are under way or have arrived ------------------------------------------------

  predicate LinkEnds(s: Peer, r: Peer, sr: seq<Msg>) {
    && (s.c.eofSent ==> Eof in sr || r.c.eofRcvd)
    && (s.c.closeSent ==> Close in sr || r.c.closeRcvd)
  }

  /** What an end announces it has queued. */
  predicate Announces(c: Chan, d: Chan, sent: seq<Msg>) {
    (d.eofSent && !c.eofSent ==> Eof in sent) && (d.closeSent && !c.closeSent ==> Close in sent)
  }

  /** How the four flags move when a packet comes in, or nothing does. */
  predicate FlagsMove(c: Chan, d: Chan, sent: seq<Msg>, eof: bool, close: bool) {
    && Announces(c, d, sent)
    && d.eofRcvd == (c.eofRcvd || eof) && d.closeRcvd == (c.closeRcvd || close)
  }

  lemma PollAnnounces(c: Chan)
    requires c.eofSent ==> c.istate == InClosed
    ensures FlagsMove(c, DoPoll(c).c, DoPoll(c).sent, false, false)
  {
    var n, m, ends := PollShape(c);
  }

  lemma ActAnnounces(c: Chan, a: Action)
    requires Enabled(c, a) && (c.eofSent ==> c.istate == InClosed)
    ensures FlagsMove(c, Act(c, a).c, Act(c, a).sent, false, false)
  {
    if a.Poll? { PollAnnounces(c); } else if IsRead(a) || IsWrite(a) { DescriptorAnnounces(c, a); }
  }

  lemma DescriptorAnnounces(c: Chan, a: Action)
    requires Enabled(c, a) && (IsRead(a) || IsWrite(a))
    ensures FlagsMove(c, Act(c, a).c, Act(c, a).sent, false, false)
  {
  }

  lemma SameFlags(c: Chan, d: Chan, e: Chan, sent: seq<Msg>, eof: bool, close: bool)
    requires d.eofSent == c.eofSent && d.closeSent == c.closeSent
    requires d.eofRcvd == (c.eofRcvd || eof) && d.closeRcvd == (c.closeRcvd || close)
    requires FlagsMove(d, e, sent, false, false)
    ensures FlagsMove(c, e, sent, eof, close)
  {
  }

  lemma ForceAnnounces(c: Chan)
    ensures FlagsMove(c, ForceDrain(c).c, ForceDrain(c).sent, false, false)
  {
  }

  lemma ShutAnnounces(c: Chan)
    ensures FlagsMove(c, ShutInput(c).c, ShutInput(c).sent, false, false)
  {
    var d := ShutExtRead(c);
    assert d.eofSent == c.eofSent && d.closeSent == c.closeSent && d.eofRcvd == c.eofRcvd && d.closeRcvd == c.closeRcvd;
  }

  lemma EofAnnounces(c: Chan)
    ensures FlagsMove(c, ReceiveEof(c).c, ReceiveEof(c).sent, true, false)
  {
    var d := DrainOutput(NoteFlag(c, true, false));
    ForceAnnounces(d);
    SameFlags(c, d, ForceDrain(d).c, ForceDrain(d).sent, true, false);
  }

  lemma CloseAnnounces(c: Chan)
    ensures FlagsMove(c, ReceiveClose(c).c, ReceiveClose(c).sent, false, true)
  {
    if c.kind != Larval {
      var d := NoteFlag(c, false, true);
      ShutAnnounces(d);
      SameFlags(c, d, ShutInput(d).c, ShutInput(d).sent, false, true);
    }
  }

  lemma CreditAnnounces(c: Chan, m: Msg)
    requires m.Confirm? || m.Adjust?
    ensures FlagsMove(c, Receive(c, m).c, Receive(c, m).sent, false, false)
  {
  }

  lemma DataAnnounces(c: Chan, bs: seq<u8>)
    ensures FlagsMove(c, ReceiveData(c, bs).c, ReceiveData(c, bs).sent, false, false)
  {
    var w, k, o := DataShape(c, bs);
  }

  lemma ExtAnnounces(c: Chan, bs: seq<u8>)
    ensures FlagsMove(c, ReceiveExt(c, bs).c, ReceiveExt(c, bs).sent, false, false)
  {
  }

  lemma EowAnnounces(c: Chan)
    ensures FlagsMove(c, ReceiveEow(c).c, ReceiveEow(c).sent, false, false)
  {
  }

  lemma PacketAnnounces(c: Chan, m: Msg)
    ensures FlagsMove(c, Receive(c, m).c, Receive(c, m).sent, m.Eof?, m.Close?)
  {
    match m
    case Confirm(_, _) => CreditAnnounces(c, m);
    case Adjust(_) => CreditAnnounces(c, m);
    case Data(bs) => DataAnnounces(c, bs);
    case ExtData(bs) => ExtAnnounces(c, bs);
    case Eof => EofAnnounces(c);
    case Close => CloseAnnounces(c);
    case Eow => EowAnnounces(c);
  }

  lemma StepKeepsLinkEnds(n: Net, e: Event)
    requires CanStep(n, e) && PeerOk(n.a) && LinkEnds(n.a, n.b, n.ab) && LinkEnds(n.b, n.a, n.ba)
    ensures LinkEnds(StepA(n, e).a, n.b, StepA(n, e).ab) && LinkEnds(n.b, StepA(n, e).a, StepA(n, e).ba)
  {
    match e
    case Local(act) => ActAnnounces(n.a.c, act);
    case Deliver =>
      PacketAnnounces(n.a.c, n.ba[0]);
      assert n.ba == [n.ba[0]] + n.ba[1..];
  }

  predicate NetEnds(n: Net) {
    EndsOk(n.a) && EndsOk(n.b) && LinkEnds(n.a, n.b, n.ab) && LinkEnds(n.b, n.a, n.ba)
  }

  lemma StepKeepsNetEnds(n: Net, e: Event)
    requires Inv(n) && NetEnds(n) && CanStep(n, e)
    ensures NetEnds(StepA(n, e))
  {
    StepKeepsEnds(n, e);
    StepKeepsLinkEnds(n, e);
  }

  lemma InitNetEnds(n: Net)
    requires Init(n)
    ensures NetEnds(n)
  {
    InitEnds(n);
  }

  lemma {:induction false} RunKeepsNetEnds(ns: seq<Net>, i: nat)
    requires Run(ns) && i < |ns|
    ensures NetEnds(ns[i])
  {
    if i == 0 {
      InitNetEnds(ns[0]);
    } else {
      RunKeepsNetEnds(ns, i - 1);
      var n := ns[i - 1];
      RunKeepsInv(ns, i - 1);
      assert Step(n, ns[i]);
      if e :| CanStep(n, e) && ns[i] == StepA(n, e) {
        StepKeepsNetEnds(n, e);
      } else {
        var e :| CanStep(Swap(n), e) && ns[i] == Swap(StepA(Swap(n), e));
        SwapInv(n);
        StepKeepsNetEnds(Swap(n), e);
      }
    }
  }

  /** In every state of every run, at either end. */
  lemma HalvesEndInOrder(n: Net)
    requires Reachable(n)
    ensures NetEnds(n)
  {
    var ns, i: nat :| Run(ns) && i < |ns| && (ns[i] == n || ns[i] == Swap(n));
    RunKeepsNetEnds(ns, i);
  }

  // ---- everything arrives -----------------------------------------------------------------------

  ghost predicate Path(ns: seq<Net>) {
    ns != [] && forall i :: 0 <= i < |ns| - 1 ==> Step(ns[i], ns[i + 1])
  }

  /** Some sequence of events leads from n to m. */
  ghost predicate Leads(n: Net, m: Net) {
    exists ns :: Path(ns) && ns[0] == n && ns[|ns| - 1] == m
  }

  lemma LeadsHere(n: Net)
    ensures Leads(n, n)
  {
    assert Path([n]) && [n][0] == n && [n][|[n]| - 1] == n;
  }

  lemma LeadsNext(n: Net, m: Net, k: Net)
    requires Leads(n, m) && Step(m, k)
    ensures Leads(n, k)
  {
    var ns :| Path(ns) && ns[0] == n && ns[|ns| - 1] == m;
    var ms := ns + [k];
    forall i | 0 <= i < |ms| - 1 ensures Step(ms[i], ms[i + 1]) {
      if i < |ns| - 1 { assert Step(ns[i], ns[i + 1]); }
    }
    assert Path(ms) && ms[0] == n && ms[|ms| - 1] == k;
  }

  lemma LeadsThen(n: Net, m: Net, k: Net)
    requires Leads(n, m) && Leads(m, k)
    ensures Leads(n, k)
  {
    var ns :| Path(ns) && ns[0] == n && ns[|ns| - 1] == m;
    var ms :| Path(ms) && ms[0] == m && ms[|ms| - 1] == k;
    var all := ns + ms[1..];
    forall i | 0 <= i < |all| - 1 ensures Step(all[i], all[i + 1]) {
      if i < |ns| - 1 {
        assert Step(ns[i], ns[i + 1]);
      } else {
        var j := i - (|ns| - 1);
        assert Step(ms[j], ms[j + 1]) && all[i] == ms[j] && all[i + 1] == ms[j + 1];
      }
    }
    assert Path(all) && all[0] == n && all[|all| - 1] == k;
  }

  /** An end that can still send: nothing has ended it early. */
  predicate SenderUp(p: Peer) {
    && p.c.kind == Open && !p.c.closeSent && !p.c.closeRcvd && !p.h.eowRcvd && p.c.remoteMaxpacket > 0
    && (p.c.usage == ExtRead ==> !p.c.forceDrain)
  }

  /** An end that can still receive: no write has failed, and no stderr was refused. */
  predicate ReceiverUp(p: Peer) {
    && p.c.kind == Open && !p.c.closeSent && !p.c.closeRcvd && p.h.lost == 0 && p.h.extDropped == []
    && p.c.localWindowMax >= 2 && (p.c.usage == ExtWrite ==> p.c.efd)
  }

  /** a can send to b: stderr too, if b has somewhere to write it, and b has not asked a to stop. */
  predicate Flowing(n: Net) {
    && Inv(n) && NetEnds(n) && SenderUp(n.a) && ReceiverUp(n.b)
    && (n.b.c.usage == ExtWrite || (n.a.c.usage != ExtRead && ExtBytes(n.ab) == []))
    && Eow !in n.ba
  }

  /** The events of a channel that comes to its end undisturbed: nothing fails, and nothing more
      is read. */
  predicate Calm(e: Event) {
    e.Local? ==> e.act.ReadEnd? || e.act.ReadExtEnd? || e.act.Write? || e.act.WriteExt? || e.act.PreOpen?
                 || e.act.CheckWindow? || e.act.Poll?
  }

  function Fixed(c: Chan): (Kind, bool, ExtUsage, bool, u32, u32) {
    (c.kind, c.closeSent, c.usage, c.forceDrain, c.remoteMaxpacket, c.localWindowMax)
  }

  /** What stays as it is, and what is not sent, while nothing fails. */
  predicate Undisturbed(c: Chan, d: Chan, sent: seq<Msg>) {
    && Fixed(d) == Fixed(c)
    && (c.usage == ExtWrite ==> d.efd == c.efd) && (d.efd ==> c.efd)
    && (c.eofSent ==> d.eofSent) && (c.ostate == OutClosed ==> d.ostate == OutClosed)
    && Eow !in sent && (c.usage != ExtRead ==> ExtBytes(sent) == [])
  }

  lemma UndisturbedThen(c: Chan, d: Chan, e: Chan, sent: seq<Msg>, sent': seq<Msg>)
    requires Undisturbed(c, d, sent) && Undisturbed(d, e, sent')
    ensures Undisturbed(c, e, sent + sent')
  {
    AppendExt(sent, sent');
  }

  lemma ThreeParts(c: Chan, n: nat, m: nat, ends: bool)
    requires n <= |c.input| && m <= |c.extended| && (m > 0 ==> c.usage == ExtRead)
    ensures var sent := Packets(c, n, m, ends); Eow !in sent && (c.usage != ExtRead ==> ExtBytes(sent) == [])
  {
    One(Data(c.input[..n]));
    One(Eof);
    AppendExt(if n > 0 then [Data(c.input[..n])] else [], if ends then [Eof] else []);
    AppendExt((if n > 0 then [Data(c.input[..n])] else []) + (if ends then [Eof] else []), []);
  }

  lemma PollUndisturbed(c: Chan)
    requires c.eofSent ==> c.istate == InClosed
    ensures Undisturbed(c, DoPoll(c).c, DoPoll(c).sent)
  {
    var n, m, ends := PollShape(c);
    ThreeParts(c, n, m, ends);
  }

  lemma ActUndisturbed(c: Chan, a: Action)
    requires Enabled(c, a) && Calm(Local(a)) && (c.eofSent ==> c.istate == InClosed)
    ensures Undisturbed(c, Act(c, a).c, Act(c, a).sent)
  {
    if a.Poll? {
      PollUndisturbed(c);
    } else if a.CheckWindow? {
      One(Adjust(c.localConsumed));
    }
  }

  lemma DrainUndisturbed(c: Chan)
    ensures Undisturbed(c, DrainOutput(NoteFlag(c, true, false)), [])
  {
  }

  lemma ForceUndisturbed(c: Chan)
    ensures Undisturbed(c, ForceDrain(c).c, ForceDrain(c).sent)
  {
    One(Eof);
    var d := ForceDrain(c).c;
    assert d == c.(istate := d.istate, eofSent := d.eofSent);
  }

  lemma EofUndisturbed(c: Chan)
    ensures Undisturbed(c, ReceiveEof(c).c, ReceiveEof(c).sent)
  {
    var d := DrainOutput(NoteFlag(c, true, false));
    DrainUndisturbed(c);
    ForceUndisturbed(d);
    UndisturbedThen(c, d, ForceDrain(d).c, [], ForceDrain(d).sent);
    assert [] + ForceDrain(d).sent == ForceDrain(d).sent;
  }

  lemma DataUndisturbed(c: Chan, bs: seq<u8>)
    ensures Undisturbed(c, ReceiveData(c, bs).c, ReceiveData(c, bs).sent)
  {
    var w, k, o := DataShape(c, bs);
  }

  lemma ExtUndisturbed(c: Chan, bs: seq<u8>)
    ensures Undisturbed(c, ReceiveExt(c, bs).c, ReceiveExt(c, bs).sent)
  {
  }

  lemma AdjustUndisturbed(c: Chan, k: u32)
    ensures Undisturbed(c, ReceiveAdjust(c, k).c, ReceiveAdjust(c, k).sent)
  {
  }

  lemma PacketUndisturbed(c: Chan, m: Msg)
    requires c.kind == Open && !m.Close? && !m.Confirm?
    ensures Undisturbed(c, Receive(c, m).c, Receive(c, m).sent)
  {
    match m
    case Data(bs) => DataUndisturbed(c, bs);
    case ExtData(bs) => ExtUndisturbed(c, bs);
    case Adjust(k) => AdjustUndisturbed(c, k);
    case Eof => EofUndisturbed(c);
    case Eow =>
  }

  function Sent(n: Net, e: Event): seq<Msg>
    requires CanStep(n, e)
  {
    match e case Local(act) => Act(n.a.c, act).sent case Deliver => Receive(n.a.c, n.ba[0]).sent
  }

  lemma EventUndisturbed(n: Net, e: Event)
    requires CanStep(n, e) && Calm(e) && n.a.c.kind == Open && PeerOk(n.a)
    requires e.Deliver? ==> !n.ba[0].Close? && !n.ba[0].Confirm?
    ensures Undisturbed(n.a.c, StepA(n, e).a.c, Sent(n, e)) && StepA(n, e).ab == n.ab + Sent(n, e)
  {
    match e
    case Local(act) => ActUndisturbed(n.a.c, act);
    case Deliver => PacketUndisturbed(n.a.c, n.ba[0]);
  }

  /** A calm event at the sender. */
  lemma SenderStays(n: Net, e: Event)
    requires Flowing(n) && CanStep(n, e) && Calm(e)
    ensures Step(n, StepA(n, e)) && Flowing(StepA(n, e))
  {
    StepKeepsInv(n, e);
    StepKeepsNetEnds(n, e);
    if e.Deliver? { assert n.ba[0] in n.ba; }
    EventUndisturbed(n, e);
    AppendExt(n.ab, Sent(n, e));
    StepFlags(n, e);
  }

  lemma NoExtAtHead(l: seq<Msg>)
    requires l != [] && ExtBytes(l) == [] && (forall m :: m in l && IsData(m) ==> m.bytes != [])
    ensures !l[0].ExtData? && ExtBytes(l[1..]) == []
  {
    assert l[0] in l;
  }

  /** What the receiver's own record keeps. */
  lemma ReceiverRecord(n: Net, e: Event)
    requires Inv(n) && CanStep(n, e) && Calm(e) && ReceiverUp(n.a)
    requires e.Deliver? && n.ba[0].ExtData? ==> n.a.c.usage == ExtWrite
    ensures StepA(n, e).a.h.lost == 0 && StepA(n, e).a.h.extDropped == []
  {
  }

  /** A calm event at the receiver. */
  lemma ReceiverStays(n: Net, e: Event)
    requires Flowing(n) && CanStep(Swap(n), e) && Calm(e)
    ensures Step(n, Swap(StepA(Swap(n), e))) && Flowing(Swap(StepA(Swap(n), e)))
  {
    var s := Swap(n);
    SwapInv(n);
    StepKeepsInv(s, e);
    SwapInv(StepA(s, e));
    StepKeepsNetEnds(s, e);
    if e.Deliver? {
      assert n.ab[0] in n.ab;
      if n.b.c.usage != ExtWrite { NoExtAtHead(n.ab); }
    }
    EventUndisturbed(s, e);
    ReceiverRecord(s, e);
    StepFlags(s, e);
  }

  /** The flags of the other end's making. */
  lemma StepFlags(n: Net, e: Event)
    requires CanStep(n, e) && PeerOk(n.a)
    ensures var m := StepA(n, e);
            && m.a.c.closeRcvd == (n.a.c.closeRcvd || (e.Deliver? && n.ba[0].Close?))
            && m.a.c.eofRcvd == (n.a.c.eofRcvd || (e.Deliver? && n.ba[0].Eof?))
            && m.a.h.eowRcvd == (n.a.h.eowRcvd || (e.Deliver? && n.ba[0].Eow?))
            && m.b == n.b && m.ba == if e.Deliver? then n.ba[1..] else n.ba
  {
    match e
    case Local(act) => ActAnnounces(n.a.c, act);
    case Deliver => PacketAnnounces(n.a.c, n.ba[0]);
  }

  /** What an end has behind it stays behind it, and nothing new is read. */
  predicate Ahead(p: Peer, q: Peer) {
    && q.h.read == p.h.read && q.h.extRead == p.h.extRead && (q.c.efd ==> p.c.efd) && q.c.usage == p.c.usage
    && (p.c.eofSent ==> q.c.eofSent) && (p.c.eofRcvd ==> q.c.eofRcvd)
    && (p.c.ostate == OutClosed ==> q.c.ostate == OutClosed)
    && (p.c.eofRcvd && HeldExt(p.c) == [] ==> HeldExt(q.c) == [])
  }

  /** Both directions survive. */
  ghost predicate Onward(n: Net, m: Net) {
    Leads(n, m) && Flowing(m) && (Flowing(Swap(n)) ==> Flowing(Swap(m))) && Ahead(n.a, m.a) && Ahead(n.b, m.b)
  }

  lemma CalmAhead(n: Net, e: Event)
    requires CanStep(n, e) && Calm(e) && n.a.c.kind == Open && PeerOk(n.a)
    requires e.Deliver? ==> !n.ba[0].Close? && !n.ba[0].Confirm?
    ensures Ahead(n.a, StepA(n, e).a) && StepA(n, e).b == n.b
  {
    EventUndisturbed(n, e);
    StepFlags(n, e);
    if n.a.c.eofRcvd && HeldExt(n.a.c) == [] { HeldStays(n, e); }
  }

  /** Nothing follows EOF, stderr included. */
  lemma HeldStays(n: Net, e: Event)
    requires CanStep(n, e) && Calm(e) && n.a.c.kind == Open && n.a.c.eofRcvd && HeldExt(n.a.c) == [] && PeerOk(n.a)
    requires e.Deliver? ==> !n.ba[0].Close? && !n.ba[0].Confirm?
    ensures HeldExt(StepA(n, e).a.c) == []
  {
    if e.Deliver? {
      PacketHeld(n.a.c, n.ba[0]);
    } else if e.act.Poll? {
      PollHeld(n.a.c);
    }
  }

  lemma PacketHeld(c: Chan, m: Msg)
    requires c.kind == Open && c.eofRcvd && !m.Close? && Receive(c, m).verdict != Fatal
    ensures HeldExt(Receive(c, m).c) == HeldExt(c)
  {
    if m.Data? {
      var w, k, o := DataShape(c, m.bytes);
    } else if m.Eof? {
      var d := DrainOutput(NoteFlag(c, true, false));
      assert d == c.(eofRcvd := true, ostate := d.ostate);
    }
  }

  lemma PollHeld(c: Chan)
    requires c.eofSent ==> c.istate == InClosed
    ensures HeldExt(DoPoll(c).c) == HeldExt(c)
  {
    var n, m, ends := PollShape(c);
  }

  /** A calm event at a, or at b. */
  lemma GoA(n: Net, e: Event)
    requires Flowing(n) && CanStep(n, e) && Calm(e)
    ensures Onward(n, StepA(n, e)) && StepA(n, e).b == n.b
  {
    SenderStays(n, e);
    LeadsHere(n);
    LeadsNext(n, n, StepA(n, e));
    if Flowing(Swap(n)) { ReceiverStays(Swap(n), e); }
    if e.Deliver? { assert n.ba[0] in n.ba; }
    CalmAhead(n, e);
  }

  lemma GoB(n: Net, e: Event)
    requires Flowing(n) && CanStep(Swap(n), e) && Calm(e)
    ensures Onward(n, Swap(StepA(Swap(n), e))) && StepA(Swap(n), e).b == n.a
  {
    ReceiverStays(n, e);
    LeadsHere(n);
    LeadsNext(n, n, Swap(StepA(Swap(n), e)));
    if Flowing(Swap(n)) { SenderStays(Swap(n), e); }
    if e.Deliver? { assert n.ab[0] in n.ab; }
    CalmAhead(Swap(n), e);
  }

  lemma OnwardHere(n: Net)
    requires Flowing(n)
    ensures Onward(n, n)
  {
    LeadsHere(n);
  }

  lemma OnwardThen(n: Net, m: Net, k: Net)
    requires Onward(n, m) && Onward(m, k)
    ensures Onward(n, k)
  {
    LeadsThen(n, m, k);
  }

  /** All packets under way to b arrive. */
  lemma {:induction false} DeliverToB(n: Net) returns (m: Net)
    requires Flowing(n)
    ensures Onward(n, m) && m.ab == [] && m.a == n.a
    decreases |n.ab|
  {
    if n.ab == [] {
      m := n;
      OnwardHere(n);
    } else {
      SwapInv(n);
      InvTakesPacket(Swap(n));
      GoB(n, Deliver);
      var k := Swap(StepA(Swap(n), Deliver));
      StepFlags(Swap(n), Deliver);
      m := DeliverToB(k);
      OnwardThen(n, k, m);
    }
  }

  lemma WriteData(n: Net) returns (m: Net)
    requires Flowing(n)
    ensures Onward(n, m) && m.a == n.a && m.ab == n.ab
    ensures m.b.c == n.b.c.(output := [], localConsumed := m.b.c.localConsumed)
  {
    if n.b.c.output == [] {
      m := n;
      OnwardHere(n);
    } else {
      var e := Local(Write(|n.b.c.output|));
      GoB(n, e);
      m := Swap(StepA(Swap(n), e));
      assert n.b.c.output[|n.b.c.output|..] == [];
    }
  }

  lemma WriteStderr(n: Net) returns (m: Net)
    requires Flowing(n)
    ensures Onward(n, m) && m.a == n.a && m.ab == n.ab && m.b.c.output == n.b.c.output && HeldExt(m.b.c) == []
  {
    if HeldExt(n.b.c) == [] {
      m := n;
      OnwardHere(n);
    } else {
      var e := Local(WriteExt(|n.b.c.extended|));
      GoB(n, e);
      m := Swap(StepA(Swap(n), e));
      assert n.b.c.extended[|n.b.c.extended|..] == [];
    }
  }

  /** Whatever b holds is written, and the credit for it is returned. */
  lemma WriteOut(n: Net) returns (m: Net)
    requires Flowing(n) && n.ab == []
    ensures Onward(n, m) && m.a == n.a && m.ab == []
    ensures m.b.c.output == [] && HeldExt(m.b.c) == [] && !MustAdjust(m.b.c)
  {
    var n1 := WriteData(n);
    var n2 := WriteStderr(n1);
    m := ReturnCredit(n2);
    OnwardThen(n, n1, n2);
    OnwardThen(n, n2, m);
  }

  lemma CheckSettles(c: Chan)
    ensures var d := DoCheckWindow(c).c;
            !MustAdjust(d) && d == c.(localWindow := d.localWindow, localConsumed := d.localConsumed)
  {
  }

  lemma ReturnCredit(n: Net) returns (m: Net)
    requires Flowing(n)
    ensures Onward(n, m) && m.a == n.a && m.ab == n.ab && !MustAdjust(m.b.c)
    ensures m.b.c.output == n.b.c.output && HeldExt(m.b.c) == HeldExt(n.b.c)
  {
    GoB(n, Local(CheckWindow));
    m := Swap(StepA(Swap(n), Local(CheckWindow)));
    CheckSettles(n.b.c);
  }

  /** a has been told that its input has ended. */
  predicate Ending(n: Net) {
    Flowing(n) && n.a.c.istate != InOpen && (n.a.c.usage == ExtRead ==> !n.a.c.efd)
  }

  /** What a has yet to send. */
  function Left(p: Peer): nat { |p.c.input| + |UnsentExt(p.c)| + if p.c.eofSent then 0 else 1 }

  /** What the sending side of an end is made of. */
  predicate SameSender(p: Peer, q: Peer) {
    && q.c.input == p.c.input && UnsentExt(q.c) == UnsentExt(p.c) && q.c.eofSent == p.c.eofSent
    && q.c.istate == p.c.istate && (p.c.usage == ExtRead ==> q.c.efd == p.c.efd)
    && q.h.read == p.h.read && q.h.extRead == p.h.extRead
  }

  lemma DataLeavesSender(p: Peer, m: Msg)
    requires m.Data? && p.c.kind == Open
    ensures SameSender(p, Peer(Receive(p.c, m).c, RecordMsg(p, m))) && Receive(p.c, m).sent == []
  {
    var w, k, o := DataShape(p.c, m.bytes);
  }

  lemma EofLeavesSender(p: Peer)
    requires p.c.istate != InOpen
    ensures SameSender(p, Peer(ReceiveEof(p.c).c, p.h)) && ReceiveEof(p.c).sent == []
  {
    var d := DrainOutput(NoteFlag(p.c, true, false));
    assert d == p.c.(eofRcvd := true, ostate := d.ostate);
  }

  lemma PacketLeavesSender(p: Peer, m: Msg)
    requires p.c.istate != InOpen && p.c.kind == Open && !m.Close? && !m.Confirm?
    ensures SameSender(p, Peer(Receive(p.c, m).c, RecordMsg(p, m))) && Receive(p.c, m).sent == []
  {
    match m
    case Data(_) => DataLeavesSender(p, m);
    case ExtData(_) => ExtLeavesSender(p, m);
    case Adjust(_) => AdjustLeavesSender(p, m);
    case Eof => EofLeavesSender(p);
    case Eow =>
  }

  lemma ExtLeavesSender(p: Peer, m: Msg)
    requires m.ExtData? && p.c.kind == Open
    ensures SameSender(p, Peer(Receive(p.c, m).c, RecordMsg(p, m))) && Receive(p.c, m).sent == []
  {
    var d := ReceiveExt(p.c, m.bytes).c;
    assert d == p.c.(localWindow := d.localWindow, extended := d.extended);
  }

  lemma AdjustLeavesSender(p: Peer, m: Msg)
    requires m.Adjust?
    ensures SameSender(p, Peer(Receive(p.c, m).c, RecordMsg(p, m))) && Receive(p.c, m).sent == []
  {
    var d := ReceiveAdjust(p.c, m.n).c;
    assert d == p.c.(remoteWindow := d.remoteWindow);
  }

  /** a took packets, which left its sending side as it was. */
  ghost predicate TakenAt(n: Net, m: Net) {
    Onward(n, m) && Ending(m) && m.ab == n.ab && m.b == n.b && SameSender(n.a, m.a)
  }

  lemma SameSenderThen(p: Peer, q: Peer, r: Peer)
    requires SameSender(p, q) && SameSender(q, r) && q.c.usage == p.c.usage
    ensures SameSender(p, r)
  {
  }

  lemma TakenThen(n: Net, k: Net, m: Net)
    requires TakenAt(n, k) && TakenAt(k, m) && k.a.c.usage == n.a.c.usage
    ensures TakenAt(n, m)
  {
    OnwardThen(n, k, m);
    SameSenderThen(n.a, k.a, m.a);
  }

  lemma OneToA(n: Net) returns (k: Net)
    requires Ending(n) && n.ba != []
    ensures TakenAt(n, k) && k.ba == n.ba[1..] && k.a.c.usage == n.a.c.usage
  {
    assert n.ba[0] in n.ba;
    InvTakesPacket(n);
    GoA(n, Deliver);
    k := StepA(n, Deliver);
    PacketLeavesSender(n.a, n.ba[0]);
    assert n.ab + [] == n.ab;
    PacketUndisturbed(n.a.c, n.ba[0]);
  }

  /** All packets under way to a arrive; among them the credit. */
  lemma {:induction false} DeliverToA(n: Net) returns (m: Net)
    requires Ending(n)
    ensures TakenAt(n, m) && m.ba == []
    decreases |n.ba|
  {
    if n.ba == [] {
      m := n;
      OnwardHere(n);
    } else {
      var k := OneToA(n);
      m := DeliverToA(k);
      TakenThen(n, k, m);
    }
  }

  /** With nothing under way and nothing left to write, there is credit. */
  lemma CreditIsBack(n: Net)
    requires Flowing(n) && n.ab == [] && n.ba == []
    requires n.b.c.output == [] && HeldExt(n.b.c) == [] && !MustAdjust(n.b.c)
    ensures n.a.c.remoteWindow > 0
  {
  }

  /** Then a poll brings the end nearer. */
  lemma PollOnce(n: Net) returns (m: Net)
    requires Ending(n) && n.a.c.remoteWindow > 0 && !n.a.c.eofSent
    ensures Onward(n, m) && Ending(m) && Left(m.a) < Left(n.a)
    ensures m.a.h == n.a.h
  {
    PollShrinks(n.a);
    GoA(n, Local(Poll));
    m := StepA(n, Local(Poll));
  }

  lemma PollShrinks(p: Peer)
    requires CanProgress(p.c)
    ensures var d := DoPoll(p.c).c;
            Left(Peer(d, p.h)) < Left(p) && d.istate != InOpen && d.efd == p.c.efd && d.usage == p.c.usage
  {
    var n, m, ends := PollShape(p.c);
  }

  /** Everything a has read is written at b, and b knows that it is all. */
  predicate Delivered(n: Net) {
    n.b.h.wrote == n.a.h.read && n.b.h.extWrote == n.a.h.extRead && n.b.c.eofRcvd && n.b.c.output == []
  }

  /** a has sent its EOF, nothing is under way and nothing is held: that is everything. */
  lemma AllArrived(n: Net)
    requires Flowing(n) && n.a.c.eofSent && n.ab == [] && n.b.c.output == [] && HeldExt(n.b.c) == []
    ensures Delivered(n)
  {
    assert n.b.h.dropped == [] && n.a.c.input == [] && UnsentExt(n.a.c) == [];
  }

  lemma {:induction false} FinishSending(n: Net) returns (m: Net)
    requires Ending(n)
    ensures Onward(n, m) && Ending(m) && Delivered(m) && m.a.c.eofSent && m.ab == [] && HeldExt(m.b.c) == []
    ensures m.a.h.read == n.a.h.read && m.a.h.extRead == n.a.h.extRead
    decreases Left(n.a)
  {
    var n1 := DeliverToB(n);
    var n2 := WriteOut(n1);
    var n3 := DeliverToA(n2);
    OnwardThen(n, n1, n2);
    OnwardThen(n, n2, n3);
    if n3.a.c.eofSent {
      AllArrived(n3);
      m := n3;
    } else {
      CreditIsBack(n3);
      var n4 := PollOnce(n3);
      m := FinishSending(n4);
      OnwardThen(n, n3, n4);
      OnwardThen(n, n4, m);
    }
  }

  /** The descriptors of a come to their end. */
  lemma EndInput(n: Net) returns (m: Net)
    requires Flowing(n)
    ensures Onward(n, m) && Ending(m) && m.a.h == n.a.h
  {
    var n1 := n;
    OnwardHere(n);
    if n.a.c.istate == InOpen {
      GoA(n, Local(ReadEnd));
      n1 := StepA(n, Local(ReadEnd));
    }
    m := n1;
    if n1.a.c.usage == ExtRead && n1.a.c.efd {
      GoA(n1, Local(ReadExtEnd));
      m := StepA(n1, Local(ReadExtEnd));
      OnwardThen(n, n1, m);
    }
  }

  /** From every reachable state in which nothing has failed: whatever window and packet size the
      ends have agreed on, what a has read, stderr included, can still be written at b to the last
      byte and followed by EOF. */
  lemma EverythingArrives(n: Net)
    requires Reachable(n) && SenderUp(n.a) && ReceiverUp(n.b) && Eow !in n.ba
    requires n.b.c.usage == ExtWrite || (n.a.c.usage != ExtRead && ExtBytes(n.ab) == [])
    ensures exists m :: Leads(n, m) && m.a.h.read == n.a.h.read && m.a.h.extRead == n.a.h.extRead && Delivered(m)
  {
    ReachableInv(n);
    HalvesEndInOrder(n);
    var n1 := EndInput(n);
    var m := FinishSending(n1);
    OnwardThen(n, n1, m);
  }

  // ---- and the channel is closed -----------------------------------------------------------------

  /** The output half of b ends once everything has arrived. */
  lemma DrainAtB(n: Net) returns (m: Net)
    requires Flowing(n) && n.b.c.eofRcvd && n.b.c.output == [] && HeldExt(n.b.c) == []
    ensures Onward(n, m) && m.b.c.ostate == OutClosed && HeldExt(m.b.c) == [] && m.a == n.a
  {
    GoB(n, Local(PreOpen));
    m := Swap(StepA(Swap(n), Local(PreOpen)));
  }

  /** One direction, from any point to its end. */
  lemma OneDirection(n: Net) returns (m: Net)
    requires Flowing(n)
    ensures Onward(n, m) && m.a.c.eofSent && m.b.c.eofRcvd && m.b.c.ostate == OutClosed && HeldExt(m.b.c) == []
    ensures m.a.c.usage == ExtRead ==> !m.a.c.efd
  {
    var n1 := EndInput(n);
    var n2 := FinishSending(n1);
    m := DrainAtB(n2);
    OnwardThen(n, n1, n2);
    OnwardThen(n, n2, m);
  }

  predicate BothUp(n: Net) { Flowing(n) && Flowing(Swap(n)) }

  /** Both halves of both ends have ended, and the links are empty. */
  predicate Quiet(n: Net) {
    && BothUp(n) && n.ab == [] && n.ba == []
    && n.a.c.eofSent && n.a.c.ostate == OutClosed && HeldExt(n.a.c) == []
    && n.b.c.eofSent && n.b.c.ostate == OutClosed && HeldExt(n.b.c) == []
  }

  lemma BothDirections(n: Net) returns (m: Net)
    requires BothUp(n)
    ensures Leads(n, m) && Quiet(m) && Ahead(n.a, m.a) && Ahead(n.b, m.b)
  {
    var n1 := OneDirection(n);
    var s2 := OneDirection(Swap(n1));
    LeadsSwap(Swap(n1), s2);
    LeadsThen(n, n1, Swap(s2));
    var n3 := DeliverToB(Swap(s2));
    m := DeliverToA(n3);
    OnwardThen(Swap(s2), n3, m);
    LeadsThen(n, Swap(s2), m);
  }

  lemma LeadsSwap(n: Net, m: Net)
    requires Leads(n, m)
    ensures Leads(Swap(n), Swap(m))
  {
    var ns :| Path(ns) && ns[0] == n && ns[|ns| - 1] == m;
    var ms := seq(|ns|, i requires 0 <= i < |ns| => Swap(ns[i]));
    forall i | 0 <= i < |ms| - 1 ensures Step(ms[i], ms[i + 1]) {
      assert Step(ns[i], ns[i + 1]);
      StepSwap(ns[i], ns[i + 1]);
    }
    assert Path(ms) && ms[0] == Swap(n) && ms[|ms| - 1] == Swap(m);
  }

  lemma StepSwap(n: Net, m: Net)
    requires Step(n, m)
    ensures Step(Swap(n), Swap(m))
  {
    if e :| CanStep(n, e) && m == StepA(n, e) {
      assert CanStep(Swap(Swap(n)), e) && Swap(m) == Swap(StepA(Swap(Swap(n)), e));
    } else {
      var e :| CanStep(Swap(n), e) && m == Swap(StepA(Swap(n), e));
      assert Swap(m) == StepA(Swap(n), e);
    }
  }

  /** Each end sends its CLOSE. */
  lemma BothCollect(n: Net) returns (m: Net)
    requires Quiet(n)
    ensures Leads(n, m)
    ensures m == Net(n.a.(c := n.a.c.(closeSent := true)), n.b.(c := n.b.c.(closeSent := true)), [Close], [Close])
  {
    var n1 := StepA(n, Local(Collect));
    assert Step(n, n1) by { assert CanStep(n, Local(Collect)); }
    m := Swap(StepA(Swap(n1), Local(Collect)));
    assert Step(n1, m) by { assert CanStep(Swap(n1), Local(Collect)); }
    LeadsHere(n);
    LeadsNext(n, n, n1);
    LeadsNext(n, n1, m);
    assert [] + [Close] == [Close];
  }

  /** Each end takes the other's. */
  lemma BothHear(n: Net) returns (m: Net)
    requires n.ab == [Close] && n.ba == [Close] && n.a.c.kind == Open && n.b.c.kind == Open
    requires n.a.c.istate == InClosed && n.a.c.ostate == OutClosed && !n.a.c.closeRcvd
    requires n.b.c.istate == InClosed && n.b.c.ostate == OutClosed && !n.b.c.closeRcvd
    ensures Leads(n, m) && m == Net(n.a.(c := n.a.c.(closeRcvd := true)), n.b.(c := n.b.c.(closeRcvd := true)), [], [])
  {
    var n1 := StepA(n, Deliver);
    assert Step(n, n1) by { assert CanStep(n, Deliver); }
    assert [Close] + [] == [Close] && [Close][1..] == [];
    m := Swap(StepA(Swap(n1), Deliver));
    assert Step(n1, m) by { assert CanStep(Swap(n1), Deliver); }
    LeadsHere(n);
    LeadsNext(n, n, n1);
    LeadsNext(n, n1, m);
  }

  /** Both ends are done with the channel, each with all the other had read. */
  predicate Gone(n: Net) {
    && !Live(n.a.c) && !Live(n.b.c)
    && n.b.h.wrote == n.a.h.read && n.b.h.extWrote == n.a.h.extRead
    && n.a.h.wrote == n.b.h.read && n.a.h.extWrote == n.b.h.extRead
  }

  lemma QuietDelivered(n: Net)
    requires Flowing(n) && n.ab == [] && n.a.c.eofSent && n.b.c.ostate == OutClosed && HeldExt(n.b.c) == []
    ensures n.b.h.wrote == n.a.h.read && n.b.h.extWrote == n.a.h.extRead
  {
    AllArrived(n);
  }

  lemma CloseQuiet(n: Net) returns (m: Net)
    requires Quiet(n)
    ensures Leads(n, m) && Gone(m) && m.a.h.read == n.a.h.read && m.b.h.read == n.b.h.read
  {
    QuietDelivered(n);
    QuietDelivered(Swap(n));
    var n1 := BothCollect(n);
    m := BothHear(n1);
    LeadsThen(n, n1, m);
  }

  /** From every reachable state in which nothing has failed in either direction, the channel can be
      brought to its end: everything read at either end is written at the other, EOF and CLOSE go
      both ways, and both ends are free to forget it. */
  lemma ChannelCloses(n: Net)
    requires Reachable(n) && SenderUp(n.a) && ReceiverUp(n.a) && SenderUp(n.b) && ReceiverUp(n.b)
    requires Eow !in n.ab && Eow !in n.ba
    requires n.b.c.usage == ExtWrite || (n.a.c.usage != ExtRead && ExtBytes(n.ab) == [])
    requires n.a.c.usage == ExtWrite || (n.b.c.usage != ExtRead && ExtBytes(n.ba) == [])
    ensures exists m :: Leads(n, m) && Gone(m) && m.a.h.read == n.a.h.read && m.b.h.read == n.b.h.read
  {
    assert BothUp(n) by {
      ReachableInv(n);
      SwapInv(n);
      HalvesEndInOrder(n);
    }
    var n1 := BothDirections(n);
    var m := CloseQuiet(n1);
    LeadsThen(n, n1, m);
  }
}
