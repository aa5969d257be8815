/** Two channel ends joined by two FIFO links, and what holds in every state any
    interleaving can reach: window conservation, window accounting, and the fate
    of every byte read from a descriptor. */
module Flow {
  import opened Ints
  import opened ChannelSpec

  /** What happened so far at one end, as seen from its descriptors.
      `dropped` are bytes received but never written because writing failed,
      `lost` counts those of them that were never credited back to the sender,
      `extDropped` are stderr bytes refused as "bad ext data", and `eowRcvd` says that the
      peer announced it will take no more. */
  datatype History = History(
    read: seq<u8>,
    wrote: seq<u8>,
    dropped: seq<u8>,
    lost: nat,
    extRead: seq<u8>,
    extWrote: seq<u8>,
    extDropped: seq<u8>,
    eowRcvd: bool)

  datatype Peer = Peer(c: Chan, h: History)

  /** `ab` carries packets from a to b, oldest first; `ba` the reverse. */
  datatype Net = Net(a: Peer, b: Peer, ab: seq<Msg>, ba: seq<Msg>)

  function Swap(n: Net): Net { Net(n.b, n.a, n.ba, n.ab) }

  function RecordAct(p: Peer, a: Action): History
    requires Enabled(p.c, a)
  {
    match a
    case Read(bs) => p.h.(read := p.h.read + bs)
    case ReadExt(bs) => if p.c.usage == ExtRead then p.h.(extRead := p.h.extRead + bs) else p.h
    case Write(n) => p.h.(wrote := p.h.wrote + p.c.output[..n])
    case WriteExt(n) => p.h.(extWrote := p.h.extWrote + p.c.extended[..n])
    case WriteFail => p.h.(dropped := p.h.dropped + p.c.output, lost := p.h.lost + |p.c.output|)
    case _ => p.h
  }

  function RecordMsg(p: Peer, m: Msg): History {
    match m
    case Data(bs) => if p.c.ostate != OutOpen then p.h.(dropped := p.h.dropped + bs) else p.h
    case ExtData(bs) =>
      if p.c.kind == Open && (!p.c.efd || p.c.usage != ExtWrite) then p.h.(extDropped := p.h.extDropped + bs) else p.h
    case Eow => p.h.(eowRcvd := true)
    case _ => p.h
  }

  datatype Event = Local(act: Action) | Deliver

  predicate CanStep(n: Net, e: Event) {
    match e
    case Local(act) => Enabled(n.a.c, act)
    case Deliver => n.ba != [] && Live(n.a.c) && Receive(n.a.c, n.ba[0]).verdict != Fatal
  }

  /** One step of end a. */
  function StepA(n: Net, e: Event): Net
    requires CanStep(n, e)
  {
    match e
    case Local(act) =>
      var r := Act(n.a.c, act);
      n.(a := Peer(r.c, RecordAct(n.a, act)), ab := n.ab + r.sent)
    case Deliver =>
      var r := Receive(n.a.c, n.ba[0]);
      n.(a := Peer(r.c, RecordMsg(n.a, n.ba[0])), ab := n.ab + r.sent, ba := n.ba[1..])
  }

  ghost predicate Step(n: Net, n': Net) {
    || (exists e :: CanStep(n, e) && n' == StepA(n, e))
    || (exists e :: CanStep(Swap(n), e) && n' == Swap(StepA(Swap(n), e)))
  }

  const NoHistory := History([], [], [], 0, [], [], [], false)

  predicate Fresh(c: Chan) {
    && c.istate == InOpen && c.ostate == OutOpen
    && !c.closeSent && !c.closeRcvd && !c.eofSent && !c.eofRcvd
    && c.input == [] && c.output == [] && c.extended == []
    && c.localConsumed == 0 && c.localWindow == c.localWindowMax
  }

  /** The opener has sent its window; the acceptor's confirmation is on its way.
      A session acceptor starts larval with an empty window. */
  predicate Init(n: Net) {
    && Fresh(n.a.c) && Fresh(n.b.c) && n.a.h == NoHistory && n.b.h == NoHistory
    && n.a.c.kind == Opening && n.a.c.remoteWindow == 0
    && n.b.c.kind != Opening && (n.b.c.kind == Larval ==> n.b.c.localWindow == 0)
    && n.b.c.remoteWindow == n.a.c.localWindow && n.b.c.remoteMaxpacket == n.a.c.localMaxpacket
    && n.ab == [] && n.ba == [Confirm(n.b.c.localWindow, n.b.c.localMaxpacket)]
  }

  ghost predicate Run(ns: seq<Net>) {
    && ns != [] && Init(ns[0])
    && forall i :: 0 <= i < |ns| - 1 ==> Step(ns[i], ns[i + 1])
  }

  // ---- projections of a link --------------------------------------------------

  function DataBytes(l: seq<Msg>): seq<u8> {
    if l == [] then [] else (if l[0].Data? then l[0].bytes else []) + DataBytes(l[1..])
  }

  function ExtBytes(l: seq<Msg>): seq<u8> {
    if l == [] then [] else (if l[0].ExtData? then l[0].bytes else []) + ExtBytes(l[1..])
  }

  function Granted(m: Msg): nat {
    match m case Adjust(n) => n case Confirm(w, _) => w case _ => 0
  }

  function Grants(l: seq<Msg>): nat {
    if l == [] then 0 else Granted(l[0]) + Grants(l[1..])
  }

  lemma {:induction false} AppendData(l: seq<Msg>, k: seq<Msg>)
    ensures DataBytes(l + k) == DataBytes(l) + DataBytes(k)
    decreases |l|
  {
    if l == [] {
      assert l + k == k && DataBytes(l) + DataBytes(k) == DataBytes(k);
    } else {
      var h, t := if l[0].Data? then l[0].bytes else [], DataBytes(l[1..]);
      AppendData(l[1..], k);
      assert (l + k)[0] == l[0] && (l + k)[1..] == l[1..] + k;
      assert DataBytes(l + k) == h + (t + DataBytes(k)) == (h + t) + DataBytes(k);
    }
  }

  lemma {:induction false} AppendExt(l: seq<Msg>, k: seq<Msg>)
    ensures ExtBytes(l + k) == ExtBytes(l) + ExtBytes(k)
    decreases |l|
  {
    if l == [] {
      assert l + k == k && ExtBytes(l) + ExtBytes(k) == ExtBytes(k);
    } else {
      var h, t := if l[0].ExtData? then l[0].bytes else [], ExtBytes(l[1..]);
      AppendExt(l[1..], k);
      assert (l + k)[0] == l[0] && (l + k)[1..] == l[1..] + k;
      assert ExtBytes(l + k) == h + (t + ExtBytes(k)) == (h + t) + ExtBytes(k);
    }
  }

  lemma {:induction false} AppendGrants(l: seq<Msg>, k: seq<Msg>)
    ensures Grants(l + k) == Grants(l) + Grants(k)
  {
    if l == [] {
      assert l + k == k;
    } else {
      AppendGrants(l[1..], k);
      assert (l + k)[1..] == l[1..] + k;
    }
  }

  /** Stderr bytes a receiver still holds, and a sender has yet to send. */
  function HeldExt(c: Chan): seq<u8> { if c.usage == ExtWrite then c.extended else [] }
  function UnsentExt(c: Chan): seq<u8> { if c.usage == ExtRead then c.extended else [] }

  // ---- the invariant ------------------------------------------------------------

  predicate IsData(m: Msg) { m.Data? || m.ExtData? }

  /** Window accounting at the receiver: every byte of the maximum is somewhere. */
  predicate Account(p: Peer) {
    p.c.localWindow + p.c.localConsumed + |p.c.output| + |HeldExt(p.c)| + p.h.lost
    == p.c.localWindowMax
  }

  /** What one end guarantees on its own. */
  predicate PeerOk(p: Peer) {
    && Account(p)
    && (p.c.kind == Larval ==> p.c.localWindowMax == 0)
    && (p.c.kind != Open ==> p.c.extended == [] && p.h.extDropped == [])
    && (p.c.usage == ExtWrite && p.c.efd ==> p.h.extDropped == [])
    && (p.c.ostate != OutClosed ==> p.h.dropped == [])
    && (p.c.ostate == OutClosed ==> p.c.output == [])
    && (p.c.ostate == OutDrain ==> p.c.eofRcvd || p.c.closeRcvd)
    && (p.c.eofSent ==> p.c.istate == InClosed)
    && (p.c.closeSent ==> p.c.istate == InClosed && p.c.ostate == OutClosed)
    && (p.c.kind == Opening ==> p.c.remoteWindow == 0 && p.c.istate == InOpen)
  }

  /** Everything received so far, in order of arrival. */
  function Arrived(p: Peer): seq<u8> { p.h.wrote + p.h.dropped + p.c.output }
  function ExtArrived(p: Peer): seq<u8> { p.h.extWrote + HeldExt(p.c) + p.h.extDropped }

  /** Conservation of the window: what r is prepared to take is what s may still
      send, plus what is under way in either direction, plus refused stderr. */
  predicate LinkWindow(s: Peer, r: Peer, sr: seq<Msg>, rs: seq<Msg>) {
    r.c.localWindow ==
      s.c.remoteWindow + |DataBytes(sr)| + |ExtBytes(sr)| + Grants(rs) + |r.h.extDropped|
  }

  /** Conservation of the bytes: everything read at s is somewhere, in order. */
  predicate LinkBytes(s: Peer, r: Peer, sr: seq<Msg>) {
    && s.h.read == Arrived(r) + DataBytes(sr) + s.c.input
    && s.h.extRead == ExtArrived(r) + ExtBytes(sr) + UnsentExt(s.c)
  }

  /** Packet sizes and the opening handshake. */
  predicate LinkOpen(s: Peer, r: Peer, sr: seq<Msg>, rs: seq<Msg>) {
    && (forall m :: m in sr && m.Data? ==> |m.bytes| <= r.c.localMaxpacket)
    && (forall m :: m in sr && IsData(m) ==> m.bytes != [])
    && (forall m :: m in rs && m.Confirm? ==> m.maxpacket == r.c.localMaxpacket)
    && (if s.c.kind == Opening then rs != [] && rs[0].Confirm? && NoConfirm(rs[1..])
        else NoConfirm(rs) && s.c.remoteMaxpacket == r.c.localMaxpacket)
  }

  /** No data follows EOF, nothing follows CLOSE. */
  predicate LinkShape(s: Peer, r: Peer, sr: seq<Msg>) {
    && (Eof in sr || r.c.eofRcvd ==> s.c.eofSent)
    && (Close in sr || r.c.closeRcvd ==> s.c.closeSent)
    && (r.c.eofRcvd ==> NoData(sr))
    && (r.c.closeRcvd ==> sr == [])
    && EofOrder(sr)
  }

  /** Data flowing from s to r over sr, credit flowing back over rs. */
  predicate Link(s: Peer, r: Peer, sr: seq<Msg>, rs: seq<Msg>) {
    && LinkWindow(s, r, sr, rs)
    && LinkBytes(s, r, sr)
    && LinkOpen(s, r, sr, rs)
    && LinkShape(s, r, sr)
  }

  predicate NoConfirm(l: seq<Msg>) { forall m :: m in l ==> !m.Confirm? }
  predicate NoData(l: seq<Msg>) { forall m :: m in l ==> !IsData(m) }

  predicate EofOrder(l: seq<Msg>) {
    l != [] ==>
      && (l[0].Eof? ==> NoData(l[1..]))
      && (l[0].Close? ==> l[1..] == [])
      && EofOrder(l[1..])
  }

  predicate Inv(n: Net) {
    && PeerOk(n.a) && PeerOk(n.b)
    && Link(n.a, n.b, n.ab, n.ba) && Link(n.b, n.a, n.ba, n.ab)
  }

  lemma InitInv(n: Net)
    requires Init(n)
    ensures Inv(n)
  {
    assert n.ba[1..] == [];
  }

  // ---- what a single event may do --------------------------------------------------

  /** As a sender: the bytes taken from the descriptors, the credit received and the
      packets queued balance. */
  predicate Sends(p: Peer, q: Peer, newIn: seq<u8>, newExt: seq<u8>, credit: nat, sent: seq<Msg>) {
    && q.h.read == p.h.read + newIn
    && q.h.extRead == p.h.extRead + newExt
    && p.c.input + newIn == DataBytes(sent) + q.c.input
    && UnsentExt(p.c) + newExt == ExtBytes(sent) + UnsentExt(q.c)
    && p.c.remoteWindow + credit == q.c.remoteWindow + |DataBytes(sent)| + |ExtBytes(sent)|
    && (forall m :: m in sent && m.Data? ==> |m.bytes| <= p.c.remoteMaxpacket)
    && (forall m :: m in sent && IsData(m) ==> m.bytes != [])
    && NoConfirm(sent)
    && (p.c.kind == Opening ==> sent == [])
    && EofOrder(sent)
    && (p.c.eofSent ==> q.c.eofSent && NoData(sent))
    && (p.c.closeSent ==> q.c.closeSent && sent == [])
    && (Eof in sent ==> q.c.eofSent)
    && (Close in sent ==> q.c.closeSent)
  }

  /** As a receiver: `data` and `ext` came in, and every credit granted was sent. */
  predicate Takes(p: Peer, q: Peer, data: seq<u8>, ext: seq<u8>, sent: seq<Msg>) {
    && q.c.localWindow + |data| + |ext| + |p.h.extDropped|
       == p.c.localWindow + Grants(sent) + |q.h.extDropped|
    && Arrived(q) == Arrived(p) + data
    && ExtArrived(q) == ExtArrived(p) + ext
    && q.c.localMaxpacket == p.c.localMaxpacket
  }

  /** A descriptor event: nothing arrives, the handshake flags of the peer stand. */
  predicate LocalMove(p: Peer, q: Peer, newIn: seq<u8>, newExt: seq<u8>, sent: seq<Msg>) {
    && Sends(p, q, newIn, newExt, 0, sent)
    && Takes(p, q, [], [], sent)
    && PeerOk(q)
    && q.c.remoteMaxpacket == p.c.remoteMaxpacket
    && q.c.eofRcvd == p.c.eofRcvd && q.c.closeRcvd == p.c.closeRcvd
    && (q.c.kind == Opening <==> p.c.kind == Opening)
  }

  /** Some descriptor events in a row, queueing `sent`. */
  ghost predicate Moves(p: Peer, q: Peer, sent: seq<Msg>) {
    exists newIn, newExt :: LocalMove(p, q, newIn, newExt, sent)
  }

  lemma One(m: Msg)
    ensures DataBytes([m]) == if m.Data? then m.bytes else []
    ensures ExtBytes([m]) == if m.ExtData? then m.bytes else []
    ensures Grants([m]) == Granted(m)
    ensures EofOrder([m]) && NoData([m]) == !IsData(m) && NoConfirm([m]) == !m.Confirm?
  {
    assert [m][1..] == [];
    assert m in [m];
  }

  /** A packet that carries no data and ends nothing. */
  predicate Light(m: Msg) { m.Eow? || m.Adjust? }

  /** The sending side is as it was, and at most one such packet is queued. */
  lemma SendsQuietly(p: Peer, q: Peer, sent: seq<Msg>)
    requires sent == [] || (p.c.kind != Opening && !p.c.closeSent && |sent| == 1 && Light(sent[0]))
    requires q.h.read == p.h.read && q.h.extRead == p.h.extRead && q.c.input == p.c.input
    requires UnsentExt(q.c) == UnsentExt(p.c) && q.c.remoteWindow == p.c.remoteWindow
    requires q.c.eofSent == p.c.eofSent && q.c.closeSent == p.c.closeSent
    ensures Sends(p, q, [], [], 0, sent)
  {
    if sent != [] {
      One(sent[0]);
      assert sent == [sent[0]];
    }
    assert p.c.input + [] == DataBytes(sent) + p.c.input;
    assert UnsentExt(p.c) + [] == ExtBytes(sent) + UnsentExt(p.c);
    assert p.h.read + [] == p.h.read && p.h.extRead + [] == p.h.extRead;
  }

  /** One packet is queued, and what it carries leaves its buffer. */
  lemma SendsPacket(p: Peer, q: Peer, m: Msg)
    requires p.c.kind != Opening && !p.c.closeSent && !m.Confirm?
    requires q.h.read == p.h.read && q.h.extRead == p.h.extRead
    requires p.c.input == (if m.Data? then m.bytes else []) + q.c.input
    requires UnsentExt(p.c) == (if m.ExtData? then m.bytes else []) + UnsentExt(q.c)
    requires p.c.remoteWindow == q.c.remoteWindow + if IsData(m) then |m.bytes| else 0
    requires IsData(m) ==> m.bytes != [] && !p.c.eofSent
    requires m.Data? ==> |m.bytes| <= p.c.remoteMaxpacket
    requires (p.c.eofSent || m.Eof? ==> q.c.eofSent) && (m.Close? ==> q.c.closeSent)
    ensures Sends(p, q, [], [], 0, [m])
  {
    One(m);
    assert p.h.read + [] == p.h.read && p.h.extRead + [] == p.h.extRead;
    assert p.c.input + [] == p.c.input && UnsentExt(p.c) + [] == UnsentExt(p.c);
  }

  /** The receiving side is as it was. */
  lemma TakesNothing(p: Peer, q: Peer, sent: seq<Msg>)
    requires q.c.localWindow == p.c.localWindow && q.c.localMaxpacket == p.c.localMaxpacket && Grants(sent) == 0
    requires q.h == p.h && q.c.output == p.c.output && HeldExt(q.c) == HeldExt(p.c)
    ensures Takes(p, q, [], [], sent)
  {
    assert Arrived(p) + [] == Arrived(p) && ExtArrived(p) + [] == ExtArrived(p);
  }

  lemma MoveIdle(p: Peer)
    requires PeerOk(p)
    ensures Moves(p, p, [])
  {
    assert p.c.input + [] == DataBytes([]) + p.c.input;
    assert LocalMove(p, p, [], [], []);
  }

  lemma MoveRead(p: Peer, bs: seq<u8>)
    requires PeerOk(p) && p.c.kind == Open && p.c.istate == InOpen
    ensures Moves(p, Peer(DoRead(p.c, bs).c, p.h.(read := p.h.read + bs)), [])
  {
    assert p.c.input + bs == DataBytes([]) + (p.c.input + bs);
    assert LocalMove(p, Peer(DoRead(p.c, bs).c, p.h.(read := p.h.read + bs)), bs, [], []);
  }

  lemma MoveReadEnd(p: Peer)
    requires PeerOk(p) && p.c.istate == InOpen && p.c.kind != Opening
    ensures Moves(p, Peer(DoReadEnd(p.c).c, p.h), [])
  {
    assert p.c.input + [] == DataBytes([]) + p.c.input;
    assert LocalMove(p, Peer(DoReadEnd(p.c).c, p.h), [], [], []);
  }

  lemma MoveReadExt(p: Peer, bs: seq<u8>)
    requires PeerOk(p) && p.c.kind == Open && p.c.usage == ExtRead
    ensures Moves(p, Peer(DoReadExt(p.c, bs).c, p.h.(extRead := p.h.extRead + bs)), [])
  {
    assert p.c.input + [] == DataBytes([]) + p.c.input;
    assert p.c.extended + bs == ExtBytes([]) + (p.c.extended + bs);
    assert LocalMove(p, Peer(DoReadExt(p.c, bs).c, p.h.(extRead := p.h.extRead + bs)), [], bs, []);
  }

  lemma MoveCloseEfd(p: Peer)
    requires PeerOk(p)
    ensures Moves(p, Peer(DoCloseEfd(p.c).c, p.h), [])
  {
    assert p.c.input + [] == DataBytes([]) + p.c.input;
    assert LocalMove(p, Peer(DoCloseEfd(p.c).c, p.h), [], [], []);
  }

  lemma MoveWrite(p: Peer, k: nat)
    requires PeerOk(p) && p.c.ostate != OutClosed && k <= |p.c.output|
    ensures Moves(p, Peer(DoWrite(p.c, k).c, p.h.(wrote := p.h.wrote + p.c.output[..k])), [])
  {
    var q := Peer(DoWrite(p.c, k).c, p.h.(wrote := p.h.wrote + p.c.output[..k]));
    SendsQuietly(p, q, []);
    TakesWrite(p, k);
    assert LocalMove(p, q, [], [], []);
  }

  lemma TakesWrite(p: Peer, k: nat)
    requires PeerOk(p) && p.c.ostate != OutClosed && k <= |p.c.output|
    ensures Takes(p, Peer(DoWrite(p.c, k).c, p.h.(wrote := p.h.wrote + p.c.output[..k])), [], [], [])
  {
    assert p.h.dropped == [];
    Written(p.h.wrote, p.c.output, k);
  }

  lemma Written(w: seq<u8>, o: seq<u8>, k: nat)
    requires k <= |o|
    ensures w + o[..k] + [] + o[k..] == w + [] + o == w + [] + o + []
  {
    assert o == o[..k] + o[k..];
  }

  lemma TakesWriteExt(p: Peer, k: nat)
    requires PeerOk(p) && p.c.usage == ExtWrite && p.c.efd && k <= |p.c.extended|
    ensures Takes(p, Peer(DoWriteExt(p.c, k).c, p.h.(extWrote := p.h.extWrote + p.c.extended[..k])), [], [], [])
  {
    assert p.c.extended == p.c.extended[..k] + p.c.extended[k..];
    assert p.h.extDropped == [];
  }

  lemma MoveWriteExt(p: Peer, k: nat)
    requires PeerOk(p) && p.c.usage == ExtWrite && p.c.efd && k <= |p.c.extended|
    ensures Moves(p, Peer(DoWriteExt(p.c, k).c, p.h.(extWrote := p.h.extWrote + p.c.extended[..k])), [])
  {
    var q := Peer(DoWriteExt(p.c, k).c, p.h.(extWrote := p.h.extWrote + p.c.extended[..k]));
    SendsQuietly(p, q, []);
    TakesWriteExt(p, k);
    assert LocalMove(p, q, [], [], []);
  }

  /** The output is discarded; what was written stays written. */
  lemma TakesDiscard(p: Peer, q: Peer, sent: seq<Msg>)
    requires PeerOk(p) && p.c.ostate != OutClosed && (sent == [] || sent == [Eow])
    requires q == Peer(p.c.(output := [], ostate := OutClosed),
                       p.h.(dropped := p.h.dropped + p.c.output, lost := p.h.lost + |p.c.output|))
    ensures Takes(p, q, [], [], sent)
  {
    One(Eow);
    assert p.h.dropped == [];
    Discarded(p.h.wrote, p.c.output);
  }

  lemma Discarded(w: seq<u8>, o: seq<u8>)
    ensures w + ([] + o) + [] == w + [] + o == w + [] + o + []
  {
  }

  lemma MoveWriteFail(p: Peer, sent: seq<Msg>)
    requires PeerOk(p) && p.c.ostate != OutClosed && p.c.kind == Open
    requires sent == [] || sent == [Eow]
    ensures Moves(p, Peer(p.c.(output := [], ostate := OutClosed),
                          p.h.(dropped := p.h.dropped + p.c.output, lost := p.h.lost + |p.c.output|)), sent)
  {
    var q := Peer(p.c.(output := [], ostate := OutClosed),
                  p.h.(dropped := p.h.dropped + p.c.output, lost := p.h.lost + |p.c.output|));
    SendsQuietly(p, q, sent);
    TakesDiscard(p, q, sent);
    assert LocalMove(p, q, [], [], sent);
  }

  lemma MoveDrain(p: Peer)
    requires PeerOk(p)
    ensures Moves(p, Peer(DrainOutput(p.c), p.h), [])
  {
    MoveIdle(p);
    assert LocalMove(p, Peer(DrainOutput(p.c), p.h), [], [], []);
  }

  lemma MoveAdjust(p: Peer)
    requires PeerOk(p) && MustAdjust(p.c)
    ensures Moves(p, Peer(DoCheckWindow(p.c).c, p.h), DoCheckWindow(p.c).sent)
  {
    One(Adjust(p.c.localConsumed));
    assert p.c.input + [] == DataBytes(DoCheckWindow(p.c).sent) + p.c.input;
    assert LocalMove(p, Peer(DoCheckWindow(p.c).c, p.h), [], [], DoCheckWindow(p.c).sent);
  }

  lemma MoveClose(p: Peer)
    requires PeerOk(p) && p.c.istate == InClosed && p.c.ostate == OutClosed && !p.c.closeSent && p.c.kind != Opening
    ensures Moves(p, p.(c := p.c.(closeSent := true)), [Close])
  {
    var q := p.(c := p.c.(closeSent := true));
    assert p.c.input == [] + q.c.input && UnsentExt(p.c) == [] + UnsentExt(q.c);
    SendsPacket(p, q, Close);
    One(Close);
    TakesNothing(p, q, [Close]);
    assert LocalMove(p, q, [], [], [Close]);
  }

  lemma MoveSetFds(p: Peer, w: u32, u: ExtUsage, e: bool)
    requires PeerOk(p) && p.c.kind == Larval && !p.c.closeSent
    ensures Moves(p, Peer(DoSetFds(p.c, w, u, e).c, p.h), [Adjust(w)])
  {
    var q := Peer(DoSetFds(p.c, w, u, e).c, p.h);
    SendsQuietly(p, q, [Adjust(w)]);
    One(Adjust(w));
    assert LocalMove(p, q, [], [], [Adjust(w)]);
  }

  lemma MoveEof(p: Peer)
    requires PeerOk(p) && p.c.istate == InDrain && p.c.kind != Opening
    ensures Moves(p, p.(c := p.c.(istate := InClosed, eofSent := true)), [Eof])
  {
    var q := p.(c := p.c.(istate := InClosed, eofSent := true));
    assert p.c.input == [] + q.c.input && UnsentExt(p.c) == [] + UnsentExt(q.c);
    SendsPacket(p, q, Eof);
    One(Eof);
    TakesNothing(p, q, [Eof]);
    assert LocalMove(p, q, [], [], [Eof]);
  }

  lemma SendData(p: Peer, k: nat)
    requires PeerOk(p) && p.c.kind == Open && p.c.istate != InClosed
    requires 0 < k <= |p.c.input| && k <= p.c.remoteWindow && k <= p.c.remoteMaxpacket
    ensures Moves(p, p.(c := p.c.(input := p.c.input[k..], remoteWindow := p.c.remoteWindow - k)),
                  [Data(p.c.input[..k])])
  {
    var q := p.(c := p.c.(input := p.c.input[k..], remoteWindow := p.c.remoteWindow - k));
    assert p.c.input == p.c.input[..k] + q.c.input && UnsentExt(p.c) == [] + UnsentExt(q.c);
    SendsPacket(p, q, Data(p.c.input[..k]));
    One(Data(p.c.input[..k]));
    TakesNothing(p, q, [Data(p.c.input[..k])]);
    assert LocalMove(p, q, [], [], [Data(p.c.input[..k])]);
  }

  lemma SendExt(p: Peer, k: nat)
    requires PeerOk(p) && p.c.kind == Open && !p.c.eofSent && !p.c.closeSent && p.c.usage == ExtRead
    requires 0 < k <= |p.c.extended| && k <= p.c.remoteWindow
    ensures Moves(p, p.(c := p.c.(extended := p.c.extended[k..], remoteWindow := p.c.remoteWindow - k)),
                  [ExtData(p.c.extended[..k])])
  {
    var q := p.(c := p.c.(extended := p.c.extended[k..], remoteWindow := p.c.remoteWindow - k));
    assert p.c.input == [] + q.c.input && p.c.extended == p.c.extended[..k] + q.c.extended;
    SendsPacket(p, q, ExtData(p.c.extended[..k]));
    One(ExtData(p.c.extended[..k]));
    TakesNothing(p, q, [ExtData(p.c.extended[..k])]);
    assert LocalMove(p, q, [], [], [ExtData(p.c.extended[..k])]);
  }

  lemma MovePollInput(p: Peer)
    requires PeerOk(p) && p.c.kind == Open && p.c.istate != InClosed && !p.c.closeSent
    ensures Moves(p, Peer(DoPollInput(p.c).c, p.h), DoPollInput(p.c).sent)
  {
    if p.c.input != [] && Quota(p.c, |p.c.input|) > 0 {
      SendData(p, Quota(p.c, |p.c.input|));
    } else if p.c.input == [] && p.c.istate == InDrain && !EfdInputActive(p.c) {
      MoveEof(p);
    } else {
      MoveIdle(p);
    }
  }

  lemma MovePollExt(p: Peer)
    requires PeerOk(p) && p.c.kind == Open && !p.c.eofSent && !p.c.closeSent && p.c.usage == ExtRead
    ensures Moves(p, Peer(DoPollExt(p.c).c, p.h), DoPollExt(p.c).sent)
  {
    var n := Quota(p.c, |p.c.extended|);
    if n > 0 {
      SendExt(p, n);
      assert Sub32(p.c.remoteWindow, n) == p.c.remoteWindow - n;
    } else {
      MoveIdle(p);
    }
  }

  lemma {:induction false} EofOrderAppend(l: seq<Msg>, k: seq<Msg>)
    requires EofOrder(l) && EofOrder(k) && (Eof in l ==> NoData(k)) && (Close in l ==> k == [])
    ensures EofOrder(l + k)
  {
    if l != [] {
      assert (l + k)[1..] == l[1..] + k;
      assert l[0] in l;
      EofOrderAppend(l[1..], k);
    } else {
      assert l + k == k;
    }
  }

  lemma SendsThen(p: Peer, q: Peer, r: Peer, newIn: seq<u8>, newExt: seq<u8>, sent: seq<Msg>,
                  newIn': seq<u8>, newExt': seq<u8>, sent': seq<Msg>)
    requires Sends(p, q, newIn, newExt, 0, sent) && Sends(q, r, newIn', newExt', 0, sent')
    requires q.c.remoteMaxpacket == p.c.remoteMaxpacket && (p.c.kind == Opening ==> q.c.kind == Opening)
    ensures Sends(p, r, newIn + newIn', newExt + newExt', 0, sent + sent')
  {
    AppendData(sent, sent');
    AppendExt(sent, sent');
    EofOrderAppend(sent, sent');
    Regroup(p.c.input, newIn, newIn', DataBytes(sent), q.c.input, DataBytes(sent'), r.c.input);
    Regroup(UnsentExt(p.c), newExt, newExt', ExtBytes(sent), UnsentExt(q.c), ExtBytes(sent'), UnsentExt(r.c));
  }

  lemma Regroup(a: seq<u8>, b: seq<u8>, b': seq<u8>, d: seq<u8>, c: seq<u8>, d': seq<u8>, e: seq<u8>)
    requires a + b == d + c && c + b' == d' + e
    ensures a + (b + b') == (d + d') + e
  {
    assert a + (b + b') == (a + b) + b' == d + (c + b') == d + (d' + e);
  }

  lemma TakesThen(p: Peer, q: Peer, r: Peer, sent: seq<Msg>, sent': seq<Msg>)
    requires Takes(p, q, [], [], sent) && Takes(q, r, [], [], sent')
    ensures Takes(p, r, [], [], sent + sent')
  {
    AppendGrants(sent, sent');
    assert Arrived(p) + [] == Arrived(p) && ExtArrived(p) + [] == ExtArrived(p);
    assert Arrived(q) + [] == Arrived(q) && ExtArrived(q) + [] == ExtArrived(q);
  }

  lemma LocalMoveThen(p: Peer, q: Peer, r: Peer, newIn: seq<u8>, newExt: seq<u8>, sent: seq<Msg>,
                      newIn': seq<u8>, newExt': seq<u8>, sent': seq<Msg>)
    requires LocalMove(p, q, newIn, newExt, sent) && LocalMove(q, r, newIn', newExt', sent')
    ensures LocalMove(p, r, newIn + newIn', newExt + newExt', sent + sent')
  {
    SendsThen(p, q, r, newIn, newExt, sent, newIn', newExt', sent');
    TakesThen(p, q, r, sent, sent');
  }

  /** Moves of the same end compose. */
  lemma MovesThen(p: Peer, q: Peer, r: Peer, sent: seq<Msg>, sent': seq<Msg>)
    requires Moves(p, q, sent) && Moves(q, r, sent')
    ensures Moves(p, r, sent + sent')
  {
    var newIn, newExt :| LocalMove(p, q, newIn, newExt, sent);
    var newIn', newExt' :| LocalMove(q, r, newIn', newExt', sent');
    LocalMoveThen(p, q, r, newIn, newExt, sent, newIn', newExt', sent');
  }

  lemma MovesOk(p: Peer, q: Peer, sent: seq<Msg>)
    requires Moves(p, q, sent)
    ensures PeerOk(q) && (q.c.kind == Opening <==> p.c.kind == Opening)
  {
    var newIn, newExt :| LocalMove(p, q, newIn, newExt, sent);
  }

  lemma MovePollFirst(p: Peer)
    requires PeerOk(p) && p.c.kind == Open && !p.c.closeSent
    ensures Moves(p, Peer(DoPollFirst(p.c).c, p.h), DoPollFirst(p.c).sent)
  {
    if p.c.istate != InClosed { MovePollInput(p); } else { MoveIdle(p); }
  }

  lemma SentKeeps(c: Chan, n: nat, w: u32)
    requires n <= |c.input|
    ensures c.(input := c.input[n..], remoteWindow := w).kind == c.kind
    ensures c.(input := c.input[n..], remoteWindow := w).closeSent == c.closeSent
  {
  }

  lemma PollFirstKeeps(c: Chan)
    ensures DoPollFirst(c).c.kind == c.kind && DoPollFirst(c).c.closeSent == c.closeSent
  {
    if c.istate != InClosed && c.input != [] {
      var n := Quota(c, |c.input|);
      SentKeeps(c, n, Sub32(c.remoteWindow, n));
    }
  }

  lemma MovePollSecond(p: Peer, e: Effect)
    requires e.c.kind == Open && !e.c.closeSent
    requires Moves(p, Peer(e.c, p.h), e.sent)
    ensures Moves(p, Peer(DoPollSecond(e).c, p.h), DoPollSecond(e).sent)
  {
    if !e.c.eofSent && e.c.usage == ExtRead {
      var q := Peer(e.c, p.h);
      MovesOk(p, q, e.sent);
      MovePollExt(q);
      MovesThen(p, q, Peer(DoPollExt(e.c).c, p.h), e.sent, DoPollExt(e.c).sent);
    }
  }

  lemma MovePoll(p: Peer)
    requires PeerOk(p)
    ensures Moves(p, Peer(DoPoll(p.c).c, p.h), DoPoll(p.c).sent)
  {
    if p.c.kind != Open || p.c.closeSent || p.c.closeRcvd {
      MoveIdle(p);
    } else {
      MovePollFirst(p);
      PollFirstKeeps(p.c);
      MovePollSecond(p, DoPollFirst(p.c));
    }
  }

  predicate IsRead(a: Action) { a.Read? || a.ReadEnd? || a.ReadExt? || a.ReadExtEnd? }
  predicate IsWrite(a: Action) { a.Write? || a.WriteFail? || a.WriteExt? || a.WriteExtFail? }

  lemma ReadMoves(p: Peer, a: Action)
    requires PeerOk(p) && Enabled(p.c, a) && IsRead(a)
    ensures Moves(p, Peer(Act(p.c, a).c, RecordAct(p, a)), Act(p.c, a).sent)
  {
    match a
    case Read(bs) => MoveRead(p, bs);
    case ReadEnd => MoveReadEnd(p);
    case ReadExt(bs) => if p.c.usage == ExtRead { MoveReadExt(p, bs); } else { MoveIdle(p); }
    case ReadExtEnd => MoveCloseEfd(p);
  }

  lemma WriteMoves(p: Peer, a: Action)
    requires PeerOk(p) && Enabled(p.c, a) && IsWrite(a)
    ensures Moves(p, Peer(Act(p.c, a).c, RecordAct(p, a)), Act(p.c, a).sent)
  {
    match a
    case Write(k) => MoveWrite(p, k);
    case WriteFail => MoveWriteFail(p, DoWriteFail(p.c).sent);
    case WriteExt(k) => MoveWriteExt(p, k);
    case WriteExtFail => MoveCloseEfd(p);
  }

  lemma OtherMoves(p: Peer, a: Action)
    requires PeerOk(p) && Enabled(p.c, a) && !IsRead(a) && !IsWrite(a)
    ensures Moves(p, Peer(Act(p.c, a).c, RecordAct(p, a)), Act(p.c, a).sent)
  {
    match a
    case PreOpen => MoveDrain(p);
    case CheckWindow => if MustAdjust(p.c) { MoveAdjust(p); } else { MoveIdle(p); }
    case Poll => MovePoll(p);
    case Collect =>
      if DoCollect(p.c).sent != [] { MoveClose(p); } else { MoveIdle(p); }
    case SetFds(w, u, e) => MoveSetFds(p, w, u, e);
  }

  /** Every descriptor event is such a move. */
  lemma ActMoves(p: Peer, a: Action)
    requires PeerOk(p) && Enabled(p.c, a)
    ensures Moves(p, Peer(Act(p.c, a).c, RecordAct(p, a)), Act(p.c, a).sent)
  {
    if IsRead(a) { ReadMoves(p, a); } else if IsWrite(a) { WriteMoves(p, a); } else { OtherMoves(p, a); }
  }

  // ---- packets ----------------------------------------------------------------------

  function DataOf(m: Msg): seq<u8> { if m.Data? then m.bytes else [] }
  function ExtOf(m: Msg): seq<u8> { if m.ExtData? then m.bytes else [] }

  /** What the other end's half of the invariant says about the packet at the head of
      the link. */
  predicate Fits(c: Chan, m: Msg) {
    && (IsData(m) ==> m.bytes != [] && |m.bytes| <= c.localWindow && !c.eofRcvd && !c.closeRcvd)
    && (m.Data? ==> |m.bytes| <= c.localMaxpacket)
    && c.remoteWindow + Granted(m) < 0x1_0000_0000
    && (m.Confirm? <==> c.kind == Opening)
  }

  /** The primitive part of a packet event; nothing is queued yet. */
  predicate PacketMove(p: Peer, q: Peer, m: Msg) {
    && Sends(p, q, [], [], Granted(m), [])
    && Takes(p, q, DataOf(m), ExtOf(m), [])
    && PeerOk(q)
    && q.c.remoteMaxpacket == (if m.Confirm? then m.maxpacket else p.c.remoteMaxpacket)
    && q.c.eofRcvd == (p.c.eofRcvd || m.Eof?)
    && q.c.closeRcvd == (p.c.closeRcvd || m.Close?)
    && q.c.kind != Opening
  }

  lemma TakeData(p: Peer, m: Msg)
    requires PeerOk(p) && m.Data? && Fits(p.c, m) && p.c.ostate == OutOpen
    ensures PacketMove(p, p.(c := p.c.(localWindow := p.c.localWindow - |m.bytes|, output := p.c.output + m.bytes)), m)
  {
    assert p.c.input + [] == DataBytes([]) + p.c.input;
    assert p.h.wrote + [] + (p.c.output + m.bytes) == p.h.wrote + [] + p.c.output + m.bytes;
  }

  lemma DropData(p: Peer, m: Msg)
    requires PeerOk(p) && m.Data? && Fits(p.c, m) && p.c.ostate == OutClosed
    ensures PacketMove(p, Peer(p.c.(localWindow := p.c.localWindow - |m.bytes|,
                                    localConsumed := p.c.localConsumed + |m.bytes|),
                               p.h.(dropped := p.h.dropped + m.bytes)), m)
  {
    assert p.c.input + [] == DataBytes([]) + p.c.input;
    assert p.h.wrote + (p.h.dropped + m.bytes) + [] == p.h.wrote + p.h.dropped + [] + m.bytes;
  }

  lemma TakeExt(p: Peer, m: Msg)
    requires PeerOk(p) && m.ExtData? && Fits(p.c, m) && p.c.usage == ExtWrite && p.c.efd
    ensures PacketMove(p, p.(c := p.c.(localWindow := p.c.localWindow - |m.bytes|,
                                       extended := p.c.extended + m.bytes)), m)
  {
    assert p.c.input + [] == DataBytes([]) + p.c.input;
    assert p.h.extWrote + (p.c.extended + m.bytes) + [] == p.h.extWrote + p.c.extended + [] + m.bytes;
  }

  lemma RefuseExt(p: Peer, m: Msg)
    requires PeerOk(p) && m.ExtData? && Fits(p.c, m) && !(p.c.usage == ExtWrite && p.c.efd)
    ensures PacketMove(p, p.(h := p.h.(extDropped := p.h.extDropped + m.bytes)), m)
  {
    assert p.c.input + [] == DataBytes([]) + p.c.input;
    assert ExtArrived(p) + m.bytes == p.h.extWrote + HeldExt(p.c) + (p.h.extDropped + m.bytes);
  }

  lemma TakeAdjust(p: Peer, k: u32)
    requires PeerOk(p) && Fits(p.c, Adjust(k))
    ensures PacketMove(p, p.(c := p.c.(remoteWindow := p.c.remoteWindow + k)), Adjust(k))
  {
    assert p.c.input + [] == DataBytes([]) + p.c.input;
  }

  lemma TakeConfirm(p: Peer, w: u32, mp: u32)
    requires PeerOk(p) && Fits(p.c, Confirm(w, mp))
    ensures PacketMove(p, p.(c := p.c.(kind := Open, remoteWindow := w, remoteMaxpacket := mp)), Confirm(w, mp))
  {
    assert p.c.input + [] == DataBytes([]) + p.c.input;
  }

  lemma TakeNothing(p: Peer, m: Msg)
    requires PeerOk(p) && Fits(p.c, m) && m.Eow?
    ensures PacketMove(p, p.(h := RecordMsg(p, m)), m)
  {
    assert p.c.input + [] == DataBytes([]) + p.c.input;
  }

  lemma MoveStopReading(p: Peer)
    requires PeerOk(p) && p.c.kind != Opening
    ensures Moves(p, p.(c := p.c.(istate := InClosed)), [])
  {
    assert p.c.input + [] == DataBytes([]) + p.c.input;
    assert LocalMove(p, p.(c := p.c.(istate := InClosed)), [], [], []);
  }

  /** A flag of the handshake arrives and nothing else changes. */
  lemma TakeFlag(p: Peer, m: Msg, o: OutState)
    requires PeerOk(p) && Fits(p.c, m) && (m.Eof? || m.Close?)
    requires o == if p.c.ostate == OutOpen then OutDrain else p.c.ostate
    ensures PacketMove(p, p.(c := p.c.(eofRcvd := p.c.eofRcvd || m.Eof?,
                                       closeRcvd := p.c.closeRcvd || m.Close?, ostate := o)), m)
  {
    assert p.c.input + [] == DataBytes([]) + p.c.input;
  }

  /** A packet event: the packet is taken, then the end reacts on its own. */
  ghost predicate Handles(p: Peer, r: Peer, m: Msg, sent: seq<Msg>) {
    exists q :: PacketMove(p, q, m) && Moves(q, r, sent)
  }

  lemma MoveForceDrain(p: Peer)
    requires PeerOk(p) && p.c.kind != Opening
    ensures Moves(p, Peer(ForceDrain(p.c).c, p.h), ForceDrain(p.c).sent)
  {
    if p.c.forceDrain && p.c.istate == InOpen {
      MoveReadEnd(p);
      if p.c.input == [] {
        var q := Peer(p.c.(istate := InDrain), p.h);
        MoveEof(q);
        ThenMoves(p, q, q.(c := q.c.(istate := InClosed, eofSent := true)), [Eof]);
      }
    } else {
      MoveIdle(p);
    }
  }

  /** A silent move, then another. */
  lemma ThenMoves(p: Peer, q: Peer, r: Peer, sent: seq<Msg>)
    requires Moves(p, q, []) && Moves(q, r, sent)
    ensures Moves(p, r, sent)
  {
    MovesAll(p, q, r, [], sent, sent);
  }

  lemma MovesAll(p: Peer, q: Peer, r: Peer, sent: seq<Msg>, sent': seq<Msg>, all: seq<Msg>)
    requires Moves(p, q, sent) && Moves(q, r, sent') && sent + sent' == all
    ensures Moves(p, r, all)
  {
    MovesThen(p, q, r, sent, sent');
  }

  lemma MoveShutExtRead(p: Peer)
    requires PeerOk(p)
    ensures Moves(p, Peer(ShutExtRead(p.c), p.h), [])
  {
    if p.c.usage == ExtWrite { MoveIdle(p); } else { MoveCloseEfd(p); }
  }

  lemma MoveShutInput(p: Peer)
    requires PeerOk(p) && p.c.kind == Open
    ensures Moves(p, Peer(ShutInput(p.c).c, p.h), ShutInput(p.c).sent)
  {
    var q := Peer(ShutExtRead(p.c), p.h);
    MoveShutExtRead(p);
    MovesOk(p, q, []);
    if p.c.istate == InOpen {
      MoveStopReading(q);
      ThenMoves(p, q, q.(c := q.c.(istate := InClosed)), []);
    } else if p.c.istate == InDrain {
      MoveEof(q);
      ThenMoves(p, q, q.(c := q.c.(istate := InClosed, eofSent := true)), [Eof]);
    } else {
      MoveIdle(p);
    }
  }

  /** A packet that needs no reaction. */
  lemma HandleQuietly(p: Peer, q: Peer, m: Msg)
    requires PacketMove(p, q, m)
    ensures Handles(p, q, m, [])
  {
    MoveIdle(q);
  }

  /** The packet is handled, and never by a protective branch: it is accepted, or it is stderr
      for a descriptor that is not open. */
  ghost predicate HandledWell(p: Peer, m: Msg) {
    && Handles(p, Peer(Receive(p.c, m).c, RecordMsg(p, m)), m, Receive(p.c, m).sent)
    && Receive(p.c, m).verdict == if m.ExtData? && !(p.c.usage == ExtWrite && p.c.efd) then BadExt else Accepted
  }

  lemma HandleConfirm(p: Peer, m: Msg)
    requires PeerOk(p) && m.Confirm? && Fits(p.c, m)
    ensures HandledWell(p, m)
  {
    TakeConfirm(p, m.window, m.maxpacket);
    HandleQuietly(p, Peer(ReceiveConfirm(p.c, m.window, m.maxpacket).c, p.h), m);
  }

  lemma HandleAdjust(p: Peer, m: Msg)
    requires PeerOk(p) && m.Adjust? && Fits(p.c, m)
    ensures HandledWell(p, m)
  {
    TakeAdjust(p, m.n);
    HandleQuietly(p, Peer(ReceiveAdjust(p.c, m.n).c, p.h), m);
  }

  lemma HandleData(p: Peer, m: Msg)
    requires PeerOk(p) && m.Data? && Fits(p.c, m)
    ensures HandledWell(p, m)
  {
    var q := Peer(ReceiveData(p.c, m.bytes).c, RecordMsg(p, m));
    if p.c.ostate == OutOpen { TakeData(p, m); } else { DropData(p, m); }
    HandleQuietly(p, q, m);
  }

  lemma HandleExt(p: Peer, m: Msg)
    requires PeerOk(p) && m.ExtData? && Fits(p.c, m)
    ensures HandledWell(p, m)
  {
    var q := Peer(ReceiveExt(p.c, m.bytes).c, RecordMsg(p, m));
    if p.c.usage == ExtWrite && p.c.efd { TakeExt(p, m); } else { RefuseExt(p, m); }
    HandleQuietly(p, q, m);
  }

  lemma HandleEof(p: Peer)
    requires PeerOk(p) && Fits(p.c, Eof)
    ensures HandledWell(p, Eof)
  {
    var q := Peer(NoteFlag(p.c, true, false), p.h);
    TakeFlag(p, Eof, q.c.ostate);
    MoveDrain(q);
    var r := Peer(DrainOutput(q.c), p.h);
    MovesOk(q, r, []);
    MoveForceDrain(r);
    ThenMoves(q, r, Peer(ForceDrain(r.c).c, p.h), ForceDrain(r.c).sent);
  }

  lemma HandleClose(p: Peer)
    requires PeerOk(p) && Fits(p.c, Close)
    ensures HandledWell(p, Close)
  {
    if p.c.kind == Larval {
      TakeLarvalClose(p);
      HandleQuietly(p, Peer(ReceiveClose(p.c).c, p.h), Close);
    } else {
      var q := Peer(NoteFlag(p.c, false, true), p.h);
      TakeFlag(p, Close, q.c.ostate);
      MoveShutInput(q);
    }
  }

  lemma TakeLarvalClose(p: Peer)
    requires PeerOk(p) && Fits(p.c, Close) && p.c.kind == Larval
    ensures PacketMove(p, p.(c := p.c.(closeRcvd := true, ostate := OutClosed, istate := InClosed)), Close)
  {
    assert p.c.input + [] == DataBytes([]) + p.c.input;
  }

  lemma HandleEow(p: Peer)
    requires PeerOk(p) && Fits(p.c, Eow)
    ensures HandledWell(p, Eow)
  {
    TakeNothing(p, Eow);
    var q := p.(h := RecordMsg(p, Eow));
    if p.c.istate == InOpen { MoveStopReading(q); } else { MoveIdle(q); }
  }

  lemma ReceiveHandles(p: Peer, m: Msg)
    requires PeerOk(p) && Fits(p.c, m)
    ensures HandledWell(p, m)
  {
    match m
    case Confirm(_, _) => HandleConfirm(p, m);
    case Data(_) => HandleData(p, m);
    case ExtData(_) => HandleExt(p, m);
    case Adjust(_) => HandleAdjust(p, m);
    case Eof => HandleEof(p);
    case Close => HandleClose(p);
    case Eow => HandleEow(p);
  }

  // ---- the invariant is kept ---------------------------------------------------------

  lemma SenderMoved(s: Peer, q: Peer, r: Peer, sr: seq<Msg>, rs: seq<Msg>, sent: seq<Msg>)
    requires PeerOk(s) && Link(s, r, sr, rs) && Moves(s, q, sent)
    ensures Link(q, r, sr + sent, rs)
  {
    var newIn, newExt :| LocalMove(s, q, newIn, newExt, sent);
    AppendData(sr, sent);
    AppendExt(sr, sent);
    EofOrderAppend(sr, sent);
    assert LinkWindow(q, r, sr + sent, rs);
    assert LinkBytes(q, r, sr + sent) by {
      SenderBytes(Arrived(r), DataBytes(sr), s.c.input, newIn, DataBytes(sent), q.c.input);
      SenderBytes(ExtArrived(r), ExtBytes(sr), UnsentExt(s.c), newExt, ExtBytes(sent), UnsentExt(q.c));
    }
  }

  lemma SenderBytes(a: seq<u8>, d: seq<u8>, i: seq<u8>, n: seq<u8>, d': seq<u8>, i': seq<u8>)
    requires i + n == d' + i'
    ensures a + d + i + n == a + (d + d') + i'
  {
    assert a + d + i + n == a + d + (i + n);
    assert a + (d + d') + i' == a + d + (d' + i');
  }

  lemma ReceiverMoved(s: Peer, r: Peer, q: Peer, sr: seq<Msg>, rs: seq<Msg>, sent: seq<Msg>)
    requires Link(s, r, sr, rs) && Moves(r, q, sent)
    ensures Link(s, q, sr, rs + sent)
  {
    var newIn, newExt :| LocalMove(r, q, newIn, newExt, sent);
    AppendGrants(rs, sent);
    if s.c.kind == Opening {
      assert (rs + sent)[1..] == rs[1..] + sent;
    }
  }

  lemma ReceiverBytes(s: Peer, r: Peer, q: Peer, sr: seq<Msg>)
    requires sr != [] && LinkBytes(s, r, sr)
    requires Arrived(q) == Arrived(r) + DataOf(sr[0]) && ExtArrived(q) == ExtArrived(r) + ExtOf(sr[0])
    ensures LinkBytes(s, q, sr[1..])
  {
    assert Arrived(r) + (DataOf(sr[0]) + DataBytes(sr[1..])) == Arrived(q) + DataBytes(sr[1..]);
    assert ExtArrived(r) + (ExtOf(sr[0]) + ExtBytes(sr[1..])) == ExtArrived(q) + ExtBytes(sr[1..]);
  }

  lemma ReceiverTook(s: Peer, r: Peer, q: Peer, sr: seq<Msg>, rs: seq<Msg>)
    requires sr != [] && Link(s, r, sr, rs) && PacketMove(r, q, sr[0])
    ensures Link(s, q, sr[1..], rs)
  {
    assert sr[0] in sr;
    ReceiverBytes(s, r, q, sr);
    assert LinkWindow(s, q, sr[1..], rs);
  }

  lemma SenderTook(s: Peer, q: Peer, r: Peer, sr: seq<Msg>, rs: seq<Msg>)
    requires rs != [] && Link(s, r, sr, rs) && PacketMove(s, q, rs[0])
    requires rs[0].Confirm? <==> s.c.kind == Opening
    ensures Link(q, r, sr, rs[1..])
  {
    assert rs[0] in rs;
    assert s.c.input + [] == s.c.input && [] + q.c.input == q.c.input;
    assert UnsentExt(s.c) + [] == UnsentExt(s.c) && [] + UnsentExt(q.c) == UnsentExt(q.c);
    assert s.h.read + [] == s.h.read && s.h.extRead + [] == s.h.extRead;
  }

  /** The packet at the head of a link always fits. */
  lemma HeadFits(n: Net)
    requires Inv(n) && n.ba != []
    ensures Fits(n.a.c, n.ba[0])
  {
    assert n.ba[0] in n.ba;
  }

  lemma StepKeepsInv(n: Net, e: Event)
    requires Inv(n) && CanStep(n, e)
    ensures Inv(StepA(n, e))
  {
    match e
    case Local(act) =>
      ActMoves(n.a, act);
      EndMoved(n, Peer(Act(n.a.c, act).c, RecordAct(n.a, act)), Act(n.a.c, act).sent);
    case Deliver =>
      var m := n.ba[0];
      var r, sent := Peer(Receive(n.a.c, m).c, RecordMsg(n.a, m)), Receive(n.a.c, m).sent;
      HeadFits(n);
      ReceiveHandles(n.a, m);
      var q :| PacketMove(n.a, q, m) && Moves(q, r, sent);
      PacketTaken(n, q);
      EndMoved(Net(q, n.b, n.ab, n.ba[1..]), r, sent);
  }

  lemma EndMoved(n: Net, q: Peer, sent: seq<Msg>)
    requires Inv(n) && Moves(n.a, q, sent)
    ensures Inv(Net(q, n.b, n.ab + sent, n.ba))
  {
    MovesOk(n.a, q, sent);
    SenderMoved(n.a, q, n.b, n.ab, n.ba, sent);
    ReceiverMoved(n.b, n.a, q, n.ba, n.ab, sent);
  }

  lemma PacketTaken(n: Net, q: Peer)
    requires Inv(n) && n.ba != [] && PacketMove(n.a, q, n.ba[0]) && (n.ba[0].Confirm? <==> n.a.c.kind == Opening)
    ensures Inv(Net(q, n.b, n.ab, n.ba[1..]))
  {
    SenderTook(n.a, q, n.b, n.ab, n.ba);
    ReceiverTook(n.b, n.a, q, n.ba, n.ab);
  }

  // ---- what holds in every state of every run -----------------------------------------

  lemma SwapInv(n: Net)
    ensures Inv(Swap(n)) == Inv(n)
  {
  }

  lemma {:induction false} RunKeepsInv(ns: seq<Net>, i: nat)
    requires Run(ns) && i < |ns|
    ensures Inv(ns[i])
  {
    if i == 0 {
      InitInv(ns[0]);
    } else {
      RunKeepsInv(ns, i - 1);
      var n := ns[i - 1];
      assert Step(n, ns[i]);
      if e :| CanStep(n, e) && ns[i] == StepA(n, e) {
        StepKeepsInv(n, e);
      } else {
        var e :| CanStep(Swap(n), e) && ns[i] == Swap(StepA(Swap(n), e));
        SwapInv(n);
        StepKeepsInv(Swap(n), e);
        SwapInv(StepA(Swap(n), e));
      }
    }
  }

  /** A state some run reaches, seen from either end. */
  ghost predicate Reachable(n: Net) {
    exists ns, i: nat :: Run(ns) && i < |ns| && (ns[i] == n || ns[i] == Swap(n))
  }

  lemma ReachableInv(n: Net)
    requires Reachable(n)
    ensures Inv(n)
  {
    var ns, i: nat :| Run(ns) && i < |ns| && (ns[i] == n || ns[i] == Swap(n));
    RunKeepsInv(ns, i);
    SwapInv(n);
  }

  /** The last state of some run. */
  ghost predicate Reached(n: Net) {
    exists ns :: Run(ns) && ns[|ns| - 1] == n
  }

  lemma ReachedStep(n: Net, m: Net)
    requires Reached(n) && Step(n, m)
    ensures Reached(m)
  {
    var ns :| Run(ns) && ns[|ns| - 1] == n;
    var ms := ns + [m];
    forall i | 0 <= i < |ms| - 1 ensures Step(ms[i], ms[i + 1]) {
      if i < |ns| - 1 { assert Step(ns[i], ns[i + 1]); }
    }
    assert Run(ms) && ms[|ms| - 1] == m;
  }

  lemma ReachedInit(n: Net)
    requires Init(n)
    ensures Reached(n)
  {
    assert Run([n]) && [n][|[n]| - 1] == n;
  }

  lemma ReachedReachable(n: Net)
    requires Reached(n)
    ensures Reachable(n)
  {
    var ns :| Run(ns) && ns[|ns| - 1] == n;
    assert Run(ns) && |ns| - 1 < |ns| && ns[|ns| - 1] == n;
  }

  /** Conservation of the window over all runs, and hence no wrap-around: the
      receiver's books balance, and what may still arrive fits in its window. */
  lemma WindowConserved(n: Net)
    requires Reachable(n)
    ensures n.b.c.localWindow ==
              n.a.c.remoteWindow + |DataBytes(n.ab)| + |ExtBytes(n.ab)| + Grants(n.ba) + |n.b.h.extDropped|
    ensures n.b.c.localWindow + n.b.c.localConsumed + |n.b.c.output| + |HeldExt(n.b.c)| + n.b.h.lost
              == n.b.c.localWindowMax
  {
    ReachableInv(n);
  }

  lemma InvTakesPacket(n: Net)
    requires Inv(n) && n.ba != []
    ensures CanStep(n, Deliver)
    ensures Receive(n.a.c, n.ba[0]).verdict ==
              if n.ba[0].ExtData? && !(n.a.c.usage == ExtWrite && n.a.c.efd) then BadExt else Accepted
  {
    HeadFits(n);
    ReceiveHandles(n.a, n.ba[0]);
  }

  /** Every packet finds its channel alive, and is taken: the "big packet", "too much
      data", "too much extended data", adjust-overflow, data-after-EOF and
      not-opening branches are dead.  The only refusal left is stderr for a
      descriptor that is not open. */
  lemma EveryPacketIsTaken(n: Net)
    requires Reachable(n) && n.ba != []
    ensures CanStep(n, Deliver)
    ensures Receive(n.a.c, n.ba[0]).verdict ==
              if n.ba[0].ExtData? && !(n.a.c.usage == ExtWrite && n.a.c.efd) then BadExt else Accepted
  {
    ReachableInv(n);
    InvTakesPacket(n);
  }

  /** Nothing is lost, duplicated or reordered: until a write fails, the bytes read at
      one end are the bytes written at the other, then those it holds, then those in
      flight, then those still to be sent. */
  lemma StreamPreserved(n: Net)
    requires Reachable(n)
    ensures n.b.h.wrote <= n.a.h.read
    ensures n.b.c.ostate != OutClosed || n.b.h.dropped == [] ==>
              n.a.h.read == n.b.h.wrote + n.b.c.output + DataBytes(n.ab) + n.a.c.input
    ensures n.b.c.usage == ExtWrite && n.b.c.efd ==>
              n.a.h.extRead == n.b.h.extWrote + n.b.c.extended + ExtBytes(n.ab) + UnsentExt(n.a.c)
  {
    ReachableInv(n);
    SkipEmpty(n.a.h.read, n.b.h.wrote, n.b.h.dropped, n.b.c.output, DataBytes(n.ab), n.a.c.input);
    SkipEmpty(n.a.h.extRead, n.b.h.extWrote + HeldExt(n.b.c), n.b.h.extDropped, [], ExtBytes(n.ab), UnsentExt(n.a.c));
  }

  lemma SkipEmpty(all: seq<u8>, w: seq<u8>, d: seq<u8>, o: seq<u8>, f: seq<u8>, i: seq<u8>)
    ensures all == w + d + o + f + i ==> w <= all
    ensures all == w + d + o + f + i && d == [] ==> all == w + o + f + i
    ensures w + d + [] + f + i == w + d + f + i
    ensures w + [] + f + i == w + f + i
  {
    if all == w + d + o + f + i {
      assert all == w + (d + o + f + i);
    }
    assert w + [] == w && w + d + [] == w + d;
  }

  /** The sender is out of credit, nothing is under way, and the receiver has nothing
      left to write. */
  predicate Starved(n: Net) {
    && n.a.c.remoteWindow == 0
    && DataBytes(n.ab) == [] && ExtBytes(n.ab) == [] && Grants(n.ba) == 0
    && n.b.c.kind == Open && !n.b.c.closeSent && !n.b.c.closeRcvd
    && n.b.c.output == [] && HeldExt(n.b.c) == []
  }

  /** What the receiver of a starved sender has left. */
  lemma StarvedCredit(n: Net)
    requires Inv(n) && Starved(n)
    ensures n.b.c.localWindow == |n.b.h.extDropped|
    ensures n.b.c.localWindow + n.b.c.localConsumed + n.b.h.lost == n.b.c.localWindowMax
  {
  }

  lemma AdjustsExactly(c: Chan, lost: nat, refused: nat)
    requires c.kind == Open && !c.closeSent && !c.closeRcvd
    requires c.localWindow == refused && refused + c.localConsumed + lost == c.localWindowMax
    ensures MustAdjust(c) <==>
              && lost + refused < c.localWindowMax
              && (|| refused < c.localWindowMax / 2
                  || c.localWindowMax - refused > Mul32(c.localMaxpacket, 3))
  {
  }

  lemma CheckGrants(n: Net)
    requires MustAdjust(n.b.c)
    ensures Grants(Swap(StepA(Swap(n), Local(CheckWindow))).ba) == Grants(n.ba) + n.b.c.localConsumed
  {
    AppendGrants(n.ba, [Adjust(n.b.c.localConsumed)]);
    One(Adjust(n.b.c.localConsumed));
  }

  /** Exactly when channel_check_window revives a starved sender, in terms of the
      window size and the bytes whose credit was forgotten; and by how much. */
  lemma StarvedIsRevived(n: Net)
    requires Reachable(n) && Starved(n)
    ensures var c := n.b.c; var refused := |n.b.h.extDropped|;
            MustAdjust(c) <==>
              && n.b.h.lost + refused < c.localWindowMax
              && (|| refused < c.localWindowMax / 2
                  || c.localWindowMax - refused > Mul32(c.localMaxpacket, 3))
    ensures var n' := Swap(StepA(Swap(n), Local(CheckWindow)));
            MustAdjust(n.b.c) ==>
              Grants(n'.ba) == n.b.c.localWindowMax - n.b.h.lost - |n.b.h.extDropped|
  {
    ReachableInv(n);
    StarvedCredit(n);
    AdjustsExactly(n.b.c, n.b.h.lost, |n.b.h.extDropped|);
    if MustAdjust(n.b.c) { CheckGrants(n); }
  }

  /** So while no write failed and no stderr was refused, a window of at least two
      bytes never deadlocks and is restored in full. */
  lemma NoDeadlock(n: Net)
    requires Reachable(n) && Starved(n)
    requires n.b.h.lost == 0 && n.b.h.extDropped == [] && n.b.c.localWindowMax >= 2
    ensures MustAdjust(n.b.c)
    ensures Grants(Swap(StepA(Swap(n), Local(CheckWindow))).ba) == n.b.c.localWindowMax
  {
    StarvedIsRevived(n);
  }

  // ---- and when the window does not come back --------------------------------------------

  function Plain(kind: Kind, out: OutState, input: seq<u8>, output: seq<u8>, rwin: u32, rmax: u32, win: u32): Chan {
    Chan(kind, InOpen, out, false, false, false, false, false, false, ExtIgnore, false,
         input, output, [], rwin, rmax, win, 2, 0, 100)
  }

  function Witness(i: nat): Net
    requires i < 6
  {
    var b := Peer(Plain(Open, OutOpen, [], [], 2, 100, 2), NoHistory);
    var heard := NoHistory.(read := [1, 2, 3]);
    var sender := Peer(Plain(Open, OutOpen, [3], [], 0, 100, 2), heard);
    match i
    case 0 => Net(Peer(Plain(Opening, OutOpen, [], [], 0, 0, 2), NoHistory), b, [], [Confirm(2, 100)])
    case 1 => Net(Peer(Plain(Open, OutOpen, [], [], 2, 100, 2), NoHistory), b, [], [])
    case 2 => Net(Peer(Plain(Open, OutOpen, [1, 2, 3], [], 2, 100, 2), heard), b, [], [])
    case 3 => Net(sender, b, [Data([1, 2])], [])
    case 4 => Net(sender, Peer(Plain(Open, OutOpen, [], [1, 2], 2, 100, 0), NoHistory), [], [])
    case _ => Net(sender, Peer(Plain(Open, OutClosed, [], [], 2, 100, 0),
                               NoHistory.(dropped := [1, 2], lost := 2)), [], [])
  }

  lemma WitnessOpens()
    ensures Step(Witness(0), Witness(1)) && Step(Witness(1), Witness(2))
  {
    assert CanStep(Witness(0), Deliver) && Witness(1) == StepA(Witness(0), Deliver);
    var read := Local(Read([1, 2, 3]));
    assert CanStep(Witness(1), read) && Witness(2) == StepA(Witness(1), read);
  }

  lemma WitnessPolls()
    ensures Step(Witness(2), Witness(3))
  {
    PollTwoOfThree(Witness(2).a.c);
    assert CanStep(Witness(2), Local(Poll)) && Witness(3) == StepA(Witness(2), Local(Poll));
  }

  lemma WitnessDelivers()
    ensures Step(Witness(3), Witness(4))
  {
    var n := Swap(Witness(3));
    assert n.ba[1..] == [];
    assert CanStep(n, Deliver) && Witness(4) == Swap(StepA(n, Deliver));
  }

  lemma WitnessFails()
    ensures Step(Witness(4), Witness(5))
  {
    var n := Swap(Witness(4));
    assert CanStep(n, Local(WriteFail)) && Witness(5) == Swap(StepA(n, Local(WriteFail)));
  }

  lemma WitnessReachable()
    ensures Reachable(Witness(5))
  {
    WitnessOpens();
    WitnessPolls();
    WitnessDelivers();
    WitnessFails();
    ReachedInit(Witness(0));
    ReachedStep(Witness(0), Witness(1));
    ReachedStep(Witness(1), Witness(2));
    ReachedStep(Witness(2), Witness(3));
    ReachedStep(Witness(3), Witness(4));
    ReachedStep(Witness(4), Witness(5));
    ReachedReachable(Witness(5));
  }

  /** A window of two, both bytes in the receiver's buffer when its write fails: the
      credit is never returned, although the sender has more to send. */
  lemma LostWindowCanDeadlock()
    ensures exists n :: Reachable(n) && Starved(n) && n.a.c.input != [] && !MustAdjust(n.b.c)
  {
    WitnessReachable();
    WitnessStarves(Witness(5));
  }

  lemma WitnessStarves(n: Net)
    requires n == Witness(5)
    ensures Starved(n) && n.a.c.input != [] && !MustAdjust(n.b.c)
  {
  }

  lemma PollTwoOfThree(c: Chan)
    requires c == Plain(Open, OutOpen, [1, 2, 3], [], 2, 100, 2)
    ensures DoPoll(c) == Effect(Plain(Open, OutOpen, [3], [], 0, 100, 2), [Data([1, 2])])
  {
    assert c.input[..2] == [1, 2] && c.input[2..] == [3];
  }

  // ---- the same with stderr that is refused -------------------------------------------------

  function Noisy(kind: Kind, input: seq<u8>, extended: seq<u8>, rwin: u32, rmax: u32): Chan {
    Plain(kind, OutOpen, input, [], rwin, rmax, 2).(usage := ExtRead, efd := true, extended := extended)
  }

  function Refusal(i: nat): Net
    requires i < 6
  {
    var b := Peer(Plain(Open, OutOpen, [], [], 2, 100, 2), NoHistory);
    var heard := NoHistory.(extRead := [1, 2]);
    var refused := b.(h := NoHistory.(extDropped := [1, 2]));
    match i
    case 0 => Net(Peer(Noisy(Opening, [], [], 0, 0), NoHistory), b, [], [Confirm(2, 100)])
    case 1 => Net(Peer(Noisy(Open, [], [], 2, 100), NoHistory), b, [], [])
    case 2 => Net(Peer(Noisy(Open, [], [1, 2], 2, 100), heard), b, [], [])
    case 3 => Net(Peer(Noisy(Open, [], [], 0, 100), heard), b, [ExtData([1, 2])], [])
    case 4 => Net(Peer(Noisy(Open, [], [], 0, 100), heard), refused, [], [])
    case _ => Net(Peer(Noisy(Open, [3], [], 0, 100), heard.(read := [3])), refused, [], [])
  }

  lemma RefusalOpens()
    ensures Step(Refusal(0), Refusal(1)) && Step(Refusal(1), Refusal(2))
  {
    assert CanStep(Refusal(0), Deliver) && Refusal(1) == StepA(Refusal(0), Deliver);
    var read := Local(ReadExt([1, 2]));
    assert CanStep(Refusal(1), read) && Refusal(2) == StepA(Refusal(1), read);
  }

  lemma RefusalPolls()
    ensures Step(Refusal(2), Refusal(3))
  {
    var c := Refusal(2).a.c;
    assert c.extended[..2] == [1, 2] && c.extended[2..] == [];
    assert CanStep(Refusal(2), Local(Poll)) && Refusal(3) == StepA(Refusal(2), Local(Poll));
  }

  lemma RefusalDelivers()
    ensures Step(Refusal(3), Refusal(4))
  {
    var n := Swap(Refusal(3));
    assert n.ba[1..] == [];
    assert CanStep(n, Deliver) && Refusal(4) == Swap(StepA(n, Deliver));
  }

  lemma RefusalReads()
    ensures Step(Refusal(4), Refusal(5))
  {
    var read := Local(Read([3]));
    assert CanStep(Refusal(4), read) && Refusal(5) == StepA(Refusal(4), read);
  }

  lemma RefusalReachable()
    ensures Reachable(Refusal(5))
  {
    RefusalOpens();
    RefusalPolls();
    RefusalDelivers();
    RefusalReads();
    ReachedInit(Refusal(0));
    ReachedStep(Refusal(0), Refusal(1));
    ReachedStep(Refusal(1), Refusal(2));
    ReachedStep(Refusal(2), Refusal(3));
    ReachedStep(Refusal(3), Refusal(4));
    ReachedStep(Refusal(4), Refusal(5));
    ReachedReachable(Refusal(5));
  }

  /** A window of two, used up by stderr that the receiver refuses: no write failed, and yet the
      sender's data waits for credit that never comes. */
  lemma RefusedStderrCanDeadlock()
    ensures exists n :: Reachable(n) && Starved(n) && n.a.c.input != [] && n.b.h.lost == 0 && !MustAdjust(n.b.c)
  {
    RefusalReachable();
    RefusalStarves(Refusal(5));
  }

  lemma RefusalStarves(n: Net)
    requires n == Refusal(5)
    ensures Starved(n) && n.a.c.input != [] && n.b.h.lost == 0 && !MustAdjust(n.b.c)
  {
  }
}
