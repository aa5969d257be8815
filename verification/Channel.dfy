/** One end of an SSH channel: the fields of `struct Channel` that flow control
    and the closing handshake use, and what every handler does to them.  The
    functions here are the specification that class ChannelObject implements and
    that module Flow composes into a network of two ends. */
module ChannelSpec {
  import opened Ints

  const RBUF: int := 16 * 1024

  datatype Kind = Larval | Opening | Open
  datatype InState = InOpen | InDrain | InClosed
  datatype OutState = OutOpen | OutDrain | OutClosed
  datatype ExtUsage = ExtIgnore | ExtRead | ExtWrite

  datatype Msg =
    | Confirm(window: u32, maxpacket: u32)
    | Data(bytes: seq<u8>)
    | ExtData(bytes: seq<u8>)
    | Adjust(n: u32)
    | Eof
    | Close
    | Eow

  datatype Chan = Chan(
    kind: Kind,
    istate: InState,
    ostate: OutState,
    closeSent: bool,
    closeRcvd: bool,
    eofSent: bool,
    eofRcvd: bool,
    forceDrain: bool,
    eow: bool,  // a session, to a peer that understands EOW
    usage: ExtUsage,
    efd: bool,
    input: seq<u8>,
    output: seq<u8>,
    extended: seq<u8>,
    remoteWindow: u32,
    remoteMaxpacket: u32,
    localWindow: u32,
    localWindowMax: u32,
    localConsumed: u32,
    localMaxpacket: u32)

  /** What a handler leaves behind: the new channel and the packets it queued. */
  datatype Effect = Effect(c: Chan, sent: seq<Msg>)

  /** How an incoming packet was disposed of. */
  datatype Verdict =
    | Accepted
    | NotOpen
    | BadExt
    | BigPacket
    | TooMuchData
    | TooMuchExt
    | Fatal

  datatype Received = Received(c: Chan, sent: seq<Msg>, verdict: Verdict)

  /** CHANNEL_EFD_INPUT_ACTIVE and CHANNEL_EFD_OUTPUT_ACTIVE. */
  predicate EfdInputActive(c: Chan) {
    c.usage == ExtRead && (c.efd || c.extended != [])
  }

  predicate EfdOutputActive(c: Chan) {
    c.usage == ExtWrite && c.efd && (!(c.eofRcvd || c.closeRcvd) || c.extended != [])
  }

  /** The channel object still exists: it is freed once CLOSE went both ways. */
  predicate Live(c: Chan) {
    !(c.closeSent && c.closeRcvd)
  }

  // ---- file-descriptor side -------------------------------------------------

  datatype Action =
    | Read(bytes: seq<u8>)
    | ReadEnd
    | ReadExt(bytes: seq<u8>)
    | ReadExtEnd
    | Write(n: nat)
    | WriteFail
    | WriteExt(n: nat)
    | WriteExtFail
    | PreOpen
    | CheckWindow
    | Poll
    | Collect
    | SetFds(window: u32, use: ExtUsage, hasEfd: bool)

  /** When the event loop can take the action. */
  predicate Enabled(c: Chan, a: Action) {
    Live(c) &&
    match a
    case Read(bs) => c.kind == Open && c.istate == InOpen && 0 < |bs| <= RBUF
    case ReadEnd => c.kind == Open && c.istate == InOpen
    case ReadExt(bs) =>
      c.kind == Open && c.efd && c.usage != ExtWrite && !c.eofSent && 0 < |bs| <= RBUF
    case ReadExtEnd => c.kind == Open && c.efd && c.usage != ExtWrite
    case Write(n) => c.kind == Open && c.ostate != OutClosed && 0 < n <= |c.output|
    case WriteFail => c.kind == Open && c.ostate != OutClosed && c.output != []
    case WriteExt(n) => c.kind == Open && c.usage == ExtWrite && c.efd && 0 < n <= |c.extended|
    case WriteExtFail => c.kind == Open && c.usage == ExtWrite && c.efd && c.extended != []
    case PreOpen => c.kind == Open
    case CheckWindow => true
    case Poll => true
    case Collect => true
    case SetFds(_, _, _) => c.kind == Larval && !c.closeSent
  }

  /** The two tests of channel_check_window, with C's unsigned arithmetic. */
  predicate WindowLow(c: Chan) {
    || Sub32(c.localWindowMax, c.localWindow) > Mul32(c.localMaxpacket, 3)
    || c.localWindow < c.localWindowMax / 2
  }

  predicate MustAdjust(c: Chan) {
    c.kind == Open && !c.closeSent && !c.closeRcvd && WindowLow(c) && c.localConsumed > 0
  }

  function DoCheckWindow(c: Chan): Effect {
    if MustAdjust(c) then
      Effect(c.(localWindow := Add32(c.localWindow, c.localConsumed), localConsumed := 0),
             [Adjust(c.localConsumed)])
    else Effect(c, [])
  }

  /** chan_ibuf_empty: the input half is drained, announce end of data. */
  function DoIbufEmpty(c: Chan): Effect
    requires c.input == [] && c.istate == InDrain
  {
    if c.closeSent then Effect(c.(istate := InClosed), [])
    else Effect(c.(istate := InClosed, eofSent := true), [Eof])
  }

  /** How many bytes of a buffer one packet may carry. */
  function Quota(c: Chan, buffered: nat): (n: nat)
    ensures n <= buffered && n <= c.remoteWindow && n <= c.remoteMaxpacket
  {
    Min(Min(buffered, c.remoteWindow), c.remoteMaxpacket)
  }

  function DoPollInput(c: Chan): Effect {
    if c.input == [] then
      if c.istate == InDrain && !EfdInputActive(c) then DoIbufEmpty(c) else Effect(c, [])
    else
      var n := Quota(c, |c.input|);
      if n == 0 then Effect(c, [])
      else Effect(c.(input := c.input[n..], remoteWindow := Sub32(c.remoteWindow, n)),
                  [Data(c.input[..n])])
  }

  function DoPollExt(c: Chan): Effect {
    var n := Quota(c, |c.extended|);
    if n == 0 then Effect(c, [])
    else Effect(c.(extended := c.extended[n..], remoteWindow := Sub32(c.remoteWindow, n)),
                [ExtData(c.extended[..n])])
  }

  function DoPollFirst(c: Chan): Effect {
    if c.istate != InClosed then DoPollInput(c) else Effect(c, [])
  }

  function DoPollSecond(e: Effect): Effect {
    if !e.c.eofSent && e.c.usage == ExtRead then
      Effect(DoPollExt(e.c).c, e.sent + DoPollExt(e.c).sent)
    else e
  }

  /** channel_output_poll for one channel: input first, then stderr. */
  function DoPoll(c: Chan): Effect {
    if c.kind != Open || c.closeSent || c.closeRcvd then Effect(c, [])
    else DoPollSecond(DoPollFirst(c))
  }

  /** chan_write_failed: the output buffer is thrown away uncounted. */
  function DoWriteFail(c: Chan): Effect {
    Effect(c.(output := [], ostate := OutClosed), if c.eow then [Eow] else [])
  }

  /** The draining part of channel_pre_open and of chan_rcvd_ieof. */
  function DrainOutput(c: Chan): Chan {
    if c.ostate == OutDrain && c.output == [] && !EfdOutputActive(c)
    then c.(ostate := OutClosed) else c
  }

  /** What channel_pre_open waits for on the descriptors. */
  datatype Interest = Interest(read: bool, write: bool, extRead: bool, extWrite: bool)

  const SSHBUF_SIZE_MAX: int := 0x800_0000

  function Wants(c: Chan): Interest {
    var ext := c.efd && !(c.istate == InClosed && DrainOutput(c).ostate == OutClosed);
    Interest(
      c.istate == InOpen && 0 < c.remoteWindow && |c.input| < c.remoteWindow && |c.input| + RBUF <= SSHBUF_SIZE_MAX,
      c.ostate != OutClosed && c.output != [],
      ext && c.usage != ExtWrite && !c.eofSent && |c.extended| < c.remoteWindow,
      ext && c.usage == ExtWrite && c.extended != [])
  }

  /** Whatever an open channel waits for, the event loop can act on. */
  lemma WantedIsEnabled(c: Chan, bs: seq<u8>, n: nat)
    requires c.kind == Open && Live(c) && 0 < |bs| <= RBUF
    ensures var d := DrainOutput(c); var w := Wants(c);
            && (w.read ==> Enabled(d, Read(bs)) && Enabled(d, ReadEnd))
            && (w.write && 0 < n <= |c.output| ==> Enabled(d, Write(n)) && Enabled(d, WriteFail))
            && (w.extRead ==> Enabled(d, ReadExt(bs)) && Enabled(d, ReadExtEnd))
            && (w.extWrite && 0 < n <= |c.extended| ==> Enabled(d, WriteExt(n)) && Enabled(d, WriteExtFail))
  {
  }

  /** What else decides about the end of a channel: whether it was marked dead, whether it
      never speaks to the peer, and whether the peer may send stderr after EOF. */
  datatype Fate = Fate(zombie: bool, local: bool, extEofBug: bool)

  /** chan_is_dead: a zombie is; a channel with two closed halves is once CLOSE went both
      ways, or would be if it were sent. */
  function ChanIsDead(c: Chan, f: Fate, doSend: bool): (Effect, bool) {
    if f.zombie then (Effect(c, []), true)
    else if c.istate != InClosed || c.ostate != OutClosed then (Effect(c, []), false)
    else if f.extEofBug && c.usage == ExtWrite && c.efd && c.extended != [] then (Effect(c, []), false)
    else if f.local then (Effect(c, []), true)
    else if !c.closeSent && doSend then (Effect(c.(closeSent := true), [Close]), c.closeRcvd)
    else (Effect(c, []), c.closeRcvd)
  }

  /** chan_is_dead with do_send set, for a channel that is no zombie. */
  function DoCollect(c: Chan): Effect {
    if c.istate == InClosed && c.ostate == OutClosed && !c.closeSent
    then Effect(c.(closeSent := true), [Close]) else Effect(c, [])
  }

  function DoRead(c: Chan, bs: seq<u8>): Effect { Effect(c.(input := c.input + bs), []) }

  function DoReadEnd(c: Chan): Effect { Effect(c.(istate := InDrain), []) }

  function DoReadExt(c: Chan, bs: seq<u8>): Effect {
    if c.usage == ExtIgnore then Effect(c, []) else Effect(c.(extended := c.extended + bs), [])
  }

  function DoCloseEfd(c: Chan): Effect { Effect(c.(efd := false), []) }

  function DoWrite(c: Chan, n: nat): Effect
    requires n <= |c.output|
  {
    Effect(c.(output := c.output[n..], localConsumed := Add32(c.localConsumed, n)), [])
  }

  function DoWriteExt(c: Chan, n: nat): Effect
    requires n <= |c.extended|
  {
    Effect(c.(extended := c.extended[n..], localConsumed := Add32(c.localConsumed, n)), [])
  }

  /** channel_set_fds: a larval session channel gets descriptors and its first window. */
  function DoSetFds(c: Chan, w: u32, u: ExtUsage, e: bool): Effect {
    Effect(c.(kind := Open, usage := u, efd := e, localWindow := w, localWindowMax := w), [Adjust(w)])
  }

  function Act(c: Chan, a: Action): Effect
    requires Enabled(c, a)
  {
    match a
    case Read(bs) => DoRead(c, bs)
    case ReadEnd => DoReadEnd(c)
    case ReadExt(bs) => DoReadExt(c, bs)
    case ReadExtEnd => DoCloseEfd(c)
    case Write(n) => DoWrite(c, n)
    case WriteFail => DoWriteFail(c)
    case WriteExt(n) => DoWriteExt(c, n)
    case WriteExtFail => DoCloseEfd(c)
    case PreOpen => Effect(DrainOutput(c), [])
    case CheckWindow => DoCheckWindow(c)
    case Poll => DoPoll(c)
    case Collect => DoCollect(c)
    case SetFds(w, u, e) => DoSetFds(c, w, u, e)
  }

  // ---- packet side ----------------------------------------------------------

  function ReceiveData(c: Chan, bs: seq<u8>): Received {
    if c.kind != Open then Received(c, [], NotOpen)
    else if c.ostate != OutOpen then
      Received(c.(localWindow := Sub32(c.localWindow, |bs|),
                  localConsumed := Add32(c.localConsumed, |bs|)), [], Accepted)
    else if |bs| > c.localMaxpacket then Received(c, [], BigPacket)
    else if |bs| > c.localWindow then Received(c, [], TooMuchData)
    else Received(c.(localWindow := Sub32(c.localWindow, |bs|), output := c.output + bs), [], Accepted)
  }

  function ReceiveExt(c: Chan, bs: seq<u8>): Received {
    if c.kind != Open then Received(c, [], NotOpen)
    else if c.eofRcvd then Received(c, [], Fatal)
    else if !c.efd || c.usage != ExtWrite then Received(c, [], BadExt)
    else if |bs| > c.localWindow then Received(c, [], TooMuchExt)
    else Received(c.(localWindow := Sub32(c.localWindow, |bs|), extended := c.extended + bs), [], Accepted)
  }

  /** Extended data of any type, and with the leniency for peers that send it after EOF. */
  function ReceiveExtAs(c: Chan, bs: seq<u8>, stderr: bool, lenient: bool): Received {
    if c.kind != Open then Received(c, [], NotOpen)
    else if c.eofRcvd && !lenient then Received(c, [], Fatal)
    else if !c.efd || c.usage != ExtWrite || !stderr then Received(c, [], BadExt)
    else if |bs| > c.localWindow then Received(c, [], TooMuchExt)
    else Received(c.(localWindow := Sub32(c.localWindow, |bs|), extended := c.extended + bs), [], Accepted)
  }

  lemma PlainExt(c: Chan, bs: seq<u8>)
    ensures ReceiveExtAs(c, bs, true, false) == ReceiveExt(c, bs)
  {
  }

  function ReceiveAdjust(c: Chan, n: u32): Received {
    if Add32(c.remoteWindow, n) < c.remoteWindow then Received(c, [], Fatal)
    else Received(c.(remoteWindow := Add32(c.remoteWindow, n)), [], Accepted)
  }

  function ReceiveConfirm(c: Chan, w: u32, m: u32): Received {
    if c.kind != Opening then Received(c, [], Fatal)
    else Received(c.(kind := Open, remoteWindow := w, remoteMaxpacket := m), [], Accepted)
  }

  /** The peer's end of data is noted: an open output half starts draining. */
  function NoteFlag(c: Chan, eof: bool, close: bool): Chan {
    c.(eofRcvd := c.eofRcvd || eof, closeRcvd := c.closeRcvd || close,
       ostate := if c.ostate == OutOpen then OutDrain else c.ostate)
  }

  /** The forced input drain at the end of channel_input_ieof. */
  function ForceDrain(c: Chan): Effect {
    if c.forceDrain && c.istate == InOpen then
      var d := c.(istate := InDrain);
      if c.input == [] then DoIbufEmpty(d) else Effect(d, [])
    else Effect(c, [])
  }

  function ReceiveEof(c: Chan): Received {
    var e := ForceDrain(DrainOutput(NoteFlag(c, true, false)));
    Received(e.c, e.sent, Accepted)
  }

  /** chan_shutdown_extended_read. */
  function ShutExtRead(c: Chan): Chan {
    if c.usage == ExtWrite then c else c.(efd := false)
  }

  /** The input half of chan_rcvd_oclose. */
  function ShutInput(c: Chan): Effect {
    match c.istate
    case InOpen => Effect(ShutExtRead(c).(istate := InClosed), [])
    case InDrain => Effect(ShutExtRead(c).(istate := InClosed, eofSent := true), [Eof])
    case InClosed => Effect(c, [])
  }

  function ReceiveClose(c: Chan): Received {
    if c.kind == Larval then
      Received(c.(closeRcvd := true, ostate := OutClosed, istate := InClosed), [], Accepted)
    else
      var e := ShutInput(NoteFlag(c, false, true));
      Received(e.c, e.sent, Accepted)
  }

  /** chan_rcvd_eow. */
  function ReceiveEow(c: Chan): Received {
    Received(if c.istate == InOpen then c.(istate := InClosed) else c, [], Accepted)
  }

  function Receive(c: Chan, m: Msg): Received {
    match m
    case Confirm(w, mp) => ReceiveConfirm(c, w, mp)
    case Data(bs) => ReceiveData(c, bs)
    case ExtData(bs) => ReceiveExt(c, bs)
    case Adjust(n) => ReceiveAdjust(c, n)
    case Eof => ReceiveEof(c)
    case Close => ReceiveClose(c)
    case Eow => ReceiveEow(c)
  }
}
