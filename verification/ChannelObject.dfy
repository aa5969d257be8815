/** `struct Channel` as the mutable object the source has, and its handlers as the
    step-by-step code they are.  Each is proved to do what ChannelSpec says. */
module ChannelObject {
  import opened Ints
  import opened ChannelSpec

  /** What a read(2) on a channel descriptor gave. */
  datatype ReadResult = Got(bytes: seq<u8>) | ReadRetry | ReadFailed

  /** What a write(2) of the whole buffer gave. */
  datatype WriteResult = Wrote(n: nat) | WriteRetry | WriteFailed

  class Channel {
    var kind: Kind
    var istate: InState
    var ostate: OutState
    var closeSent: bool
    var closeRcvd: bool
    var eofSent: bool
    var eofRcvd: bool
    var forceDrain: bool
    const session: bool
    /** datafellows & SSH_NEW_OPENSSH. */
    const newOpenssh: bool
    var usage: ExtUsage
    var efd: bool
    var input: seq<u8>
    var output: seq<u8>
    var extended: seq<u8>
    var remoteWindow: u32
    var remoteMaxpacket: u32
    var localWindow: u32
    var localWindowMax: u32
    var localConsumed: u32
    var localMaxpacket: u32
    /** Marked dead, and the user callback of channel_register_cleanup. */
    var zombie: bool
    var detachUser: bool
    var detachClose: bool

    ghost function View(): Chan
      reads this
    {
      Chan(kind, istate, ostate, closeSent, closeRcvd, eofSent, eofRcvd, forceDrain, session && newOpenssh, usage, efd,
           input, output, extended, remoteWindow, remoteMaxpacket,
           localWindow, localWindowMax, localConsumed, localMaxpacket)
    }

    constructor (kind: Kind, window: u32, maxpack: u32, usage: ExtUsage, efd: bool,
                 forceDrain: bool, session: bool, newOpenssh: bool)
      ensures View() == Chan(kind, InOpen, OutOpen, false, false, false, false, forceDrain, session && newOpenssh,
                             usage, efd, [], [], [], 0, 0, window, window, 0, maxpack)
      ensures !zombie && !detachUser && !detachClose
    {
      this.kind, istate, ostate := kind, InOpen, OutOpen;
      closeSent, closeRcvd, eofSent, eofRcvd := false, false, false, false;
      this.session, this.newOpenssh := session, newOpenssh;
      this.forceDrain, this.usage, this.efd := forceDrain, usage, efd;
      input, output, extended := [], [], [];
      remoteWindow, remoteMaxpacket, localConsumed := 0, 0, 0;
      localWindow, localWindowMax, localMaxpacket := window, window, maxpack;
      zombie, detachUser, detachClose := false, false, false;
    }

    /** A failed read of a channel that is not open kills it. */
    method HandleRfd(r: ReadResult)
      requires r.Got? ==> 0 < |r.bytes| <= RBUF
      modifies this
      ensures View() == match r
                        case Got(bs) => DoRead(old(View()), bs).c
                        case ReadRetry => old(View())
                        case ReadFailed =>
                          if old(kind) == Open && old(istate) == InOpen then DoReadEnd(old(View())).c else old(View())
      ensures zombie == (old(zombie) || (r.ReadFailed? && old(kind) != Open))
      ensures unchanged(`detachUser, `detachClose)
    {
      if r.ReadRetry? { return; }
      if r.ReadFailed? {
        if kind != Open {
          zombie := true;
        } else if istate == InOpen {
          istate := InDrain;
        }
        return;
      }
      input := input + r.bytes;
    }

    /** chan_write_failed. */
    method WriteFailed() returns (sent: seq<Msg>)
      modifies this
      ensures Effect(View(), sent) ==
                if old(ostate) != OutClosed then DoWriteFail(old(View())) else Effect(old(View()), [])
      ensures unchanged(`zombie, `detachUser, `detachClose)
    {
      sent := [];
      if ostate == OutClosed { return; }
      output := [];
      if session { sent := SendEow(); }
      ostate := OutClosed;
    }

    /** chan_send_eow2. */
    method SendEow() returns (sent: seq<Msg>)
      ensures sent == if ostate != OutClosed && newOpenssh then [Eow] else []
    {
      if ostate == OutClosed || !newOpenssh { return []; }
      sent := [Eow];
    }

    /** Nothing is written from an empty buffer; a failed write of a channel that is not open
        kills it. */
    method HandleWfd(r: WriteResult) returns (sent: seq<Msg>)
      requires output != [] && r.Wrote? ==> 0 < r.n <= |output|
      modifies this
      ensures Effect(View(), sent) ==
                if old(output) == [] || r.WriteRetry? then Effect(old(View()), [])
                else if r.Wrote? then DoWrite(old(View()), r.n)
                else if old(kind) == Open && old(ostate) != OutClosed then DoWriteFail(old(View()))
                else Effect(old(View()), [])
      ensures zombie == (old(zombie) || (old(output) != [] && r.WriteFailed? && old(kind) != Open))
      ensures unchanged(`detachUser, `detachClose)
    {
      sent := [];
      if |output| == 0 || r.WriteRetry? { return; }
      if r.WriteFailed? {
        if kind != Open {
          zombie := true;
        } else {
          sent := WriteFailed();
        }
        return;
      }
      var olen := |output|;
      output := output[r.n..];
      localConsumed := Add32(localConsumed, olen - |output|);
    }

    method HandleEfdWrite(r: WriteResult)
      requires usage == ExtWrite && efd
      requires extended != [] && r.Wrote? ==> 0 < r.n <= |extended|
      modifies this
      ensures View() ==
                if old(extended) == [] || r.WriteRetry? then old(View())
                else if r.Wrote? then DoWriteExt(old(View()), r.n).c
                else DoCloseEfd(old(View())).c
      ensures unchanged(`zombie, `detachUser, `detachClose)
    {
      if |extended| == 0 || r.WriteRetry? { return; }
      if r.WriteFailed? {
        efd := false;
      } else {
        extended := extended[r.n..];
        localConsumed := Add32(localConsumed, r.n);
      }
    }

    method HandleEfdRead(r: ReadResult)
      requires usage != ExtWrite && efd
      requires r.Got? ==> 0 < |r.bytes| <= RBUF
      modifies this
      ensures View() == match r
                        case Got(bs) => DoReadExt(old(View()), bs).c
                        case ReadRetry => old(View())
                        case ReadFailed => DoCloseEfd(old(View())).c
      ensures unchanged(`zombie, `detachUser, `detachClose)
    {
      if r.ReadRetry? { return; }
      if r.ReadFailed? {
        efd := false;
      } else if usage != ExtIgnore {
        extended := extended + r.bytes;
      }
    }

    method CheckWindow() returns (sent: seq<Msg>)
      modifies this
      ensures Effect(View(), sent) == DoCheckWindow(old(View()))
      ensures unchanged(`zombie, `detachUser, `detachClose)
    {
      sent := [];
      if kind == Open && !(closeSent || closeRcvd) &&
         (Sub32(localWindowMax, localWindow) > Mul32(localMaxpacket, 3) ||
          localWindow < localWindowMax / 2) &&
         localConsumed > 0
      {
        sent := [Adjust(localConsumed)];
        localWindow := Add32(localWindow, localConsumed);
        localConsumed := 0;
      }
    }

    /** chan_ibuf_empty. */
    method IbufEmpty() returns (sent: seq<Msg>)
      requires input == [] && istate == InDrain
      modifies this
      ensures Effect(View(), sent) == DoIbufEmpty(old(View()))
      ensures unchanged(`zombie, `detachUser, `detachClose)
    {
      sent := [];
      if !closeSent {
        sent := [Eof];
        eofSent := true;
      }
      istate := InClosed;
    }

    method OutputPollInputOpen() returns (sent: seq<Msg>)
      modifies this
      ensures Effect(View(), sent) == DoPollInput(old(View()))
      ensures unchanged(`zombie, `detachUser, `detachClose)
    {
      sent := [];
      var len := |input|;
      if len == 0 {
        if istate == InDrain && !(usage == ExtRead && (efd || |extended| > 0)) {
          sent := IbufEmpty();
        }
        return;
      }
      if len > remoteWindow { len := remoteWindow; }
      if len > remoteMaxpacket { len := remoteMaxpacket; }
      if len == 0 { return; }
      sent := [Data(input[..len])];
      input := input[len..];
      remoteWindow := Sub32(remoteWindow, len);
    }

    method OutputPollExtendedRead() returns (sent: seq<Msg>)
      modifies this
      ensures Effect(View(), sent) == DoPollExt(old(View()))
      ensures unchanged(`zombie, `detachUser, `detachClose)
    {
      sent := [];
      var len := |extended|;
      if len == 0 { return; }
      if len > remoteWindow { len := remoteWindow; }
      if len > remoteMaxpacket { len := remoteMaxpacket; }
      if len == 0 { return; }
      sent := [ExtData(extended[..len])];
      extended := extended[len..];
      remoteWindow := Sub32(remoteWindow, len);
    }

    method OutputPoll() returns (sent: seq<Msg>)
      modifies this
      ensures Effect(View(), sent) == DoPoll(old(View()))
      ensures unchanged(`zombie, `detachUser, `detachClose)
    {
      sent := [];
      if kind != Open { return; }
      if closeSent || closeRcvd { return; }
      if istate == InOpen || istate == InDrain {
        sent := OutputPollInputOpen();
      }
      if !eofSent && usage == ExtRead {
        var more := OutputPollExtendedRead();
        sent := sent + more;
      }
    }

    /** chan_obuf_empty, unless stderr is still being written. */
    method DrainOutputHalf()
      modifies this
      ensures View() == DrainOutput(old(View()))
      ensures unchanged(`zombie, `detachUser, `detachClose)
    {
      if ostate == OutDrain && |output| == 0 {
        if !(usage == ExtWrite && efd && (!(eofRcvd || closeRcvd) || |extended| > 0)) {
          output := [];
          ostate := OutClosed;
        }
      }
    }

    /** The descriptor of extended data. */
    method WantsExt() returns (rd: bool, wr: bool)
      ensures var ext := efd && !(istate == InClosed && ostate == OutClosed);
              && wr == (ext && usage == ExtWrite && extended != [])
              && rd == (ext && usage != ExtWrite && !eofSent && |extended| < remoteWindow)
    {
      rd, wr := false, false;
      if efd && !(istate == InClosed && ostate == OutClosed) {
        if usage == ExtWrite && |extended| > 0 {
          wr := true;
        } else if !eofSent && (usage == ExtRead || usage == ExtIgnore) && |extended| < remoteWindow {
          rd := true;
        }
      }
    }

    /** channel_pre_open: what to wait for, and the drained output half is closed. */
    method PreOpen() returns (w: Interest)
      modifies this
      ensures w == Wants(old(View())) && View() == DrainOutput(old(View()))
      ensures unchanged(`zombie, `detachUser, `detachClose)
    {
      var rd := istate == InOpen && remoteWindow > 0 && |input| < remoteWindow && |input| + RBUF <= SSHBUF_SIZE_MAX;
      var wr := (ostate == OutOpen || ostate == OutDrain) && |output| > 0;
      if !wr { DrainOutputHalf(); }
      var extRd, extWr := WantsExt();
      w := Interest(rd, wr, extRd, extWr);
    }

    /** chan_is_dead; `local` is CHAN_LOCAL, which only mux clients have. */
    method IsDead(doSend: bool, local: bool, extEofBug: bool) returns (sent: seq<Msg>, dead: bool)
      modifies this
      ensures (Effect(View(), sent), dead) == ChanIsDead(old(View()), Fate(old(zombie), local, extEofBug), doSend)
      ensures unchanged(`zombie, `detachUser, `detachClose)
    {
      sent, dead := [], false;
      if zombie { return sent, true; }
      if istate != InClosed || ostate != OutClosed { return; }
      if extEofBug && usage == ExtWrite && efd && |extended| > 0 { return; }
      if local { return sent, true; }
      if !closeSent {
        if doSend {
          sent := [Close];
          closeSent := true;
        } else if closeRcvd {
          return sent, true;
        }
      }
      dead := closeSent && closeRcvd;
    }

    /** channel_garbage_collect. A user callback is notified once the channel is dead, and
        `detaches` says whether it lets go; the result says whether the channel is freed. A
        callback that stays keeps the channel; otherwise a dead channel is freed, and all it
        sends is the CLOSE it owes. */
    method GarbageCollect(detaches: bool, local: bool, extEofBug: bool) returns (sent: seq<Msg>, freed: bool)
      modifies this
      ensures var f := Fate(old(zombie), local, extEofBug);
              var kept := old(detachUser) && !(ChanIsDead(old(View()), f, old(detachClose)).1 && detaches);
              && detachUser == kept
              && freed == (!kept && ChanIsDead(old(View()), f, true).1)
              && Effect(View(), sent) == ChanIsDead(old(View()), f, if kept then old(detachClose) else true).0
      ensures freed ==> zombie || local || (closeSent && closeRcvd)
      ensures unchanged(`zombie, `detachClose)
    {
      sent, freed := [], false;
      if detachUser {
        var dead;
        sent, dead := IsDead(detachClose, local, extEofBug);
        if !dead { return; }
        if detaches { detachUser := false; }
        if detachUser { return; }
      }
      var more, dead := IsDead(true, local, extEofBug);
      sent := sent + more;
      freed := dead;
    }

    /** channel_register_fds, as far as it concerns the extended descriptor. */
    method RegisterFds(u: ExtUsage, e: bool)
      modifies this
      ensures View() == old(View()).(usage := u, efd := e)
      ensures unchanged(`zombie, `detachUser, `detachClose)
    {
      efd := e;
      usage := u;
    }

    /** The first window of a channel. */
    method GrantWindow(window: u32) returns (sent: seq<Msg>)
      modifies this
      ensures View() == old(View()).(localWindow := window, localWindowMax := window) && sent == [Adjust(window)]
      ensures unchanged(`zombie, `detachUser, `detachClose)
    {
      localWindowMax := window;
      localWindow := window;
      sent := [Adjust(localWindow)];
    }

    method SetFds(window: u32, u: ExtUsage, e: bool) returns (sent: seq<Msg>)
      requires kind == Larval
      modifies this
      ensures Effect(View(), sent) == DoSetFds(old(View()), window, u, e)
      ensures unchanged(`zombie, `detachUser, `detachClose)
    {
      RegisterFds(u, e);
      kind := Open;
      sent := GrantWindow(window);
    }

    method InputData(data: seq<u8>) returns (sent: seq<Msg>, v: Verdict)
      modifies this
      ensures Received(View(), sent, v) == ReceiveData(old(View()), data)
      ensures unchanged(`zombie, `detachUser, `detachClose)
    {
      sent := [];
      if kind != Open { v := NotOpen; return; }
      var winLen := |data|;
      if ostate != OutOpen {
        localWindow := Sub32(localWindow, winLen);
        localConsumed := Add32(localConsumed, winLen);
        v := Accepted;
        return;
      }
      if winLen > localMaxpacket { v := BigPacket; return; }
      if winLen > localWindow { v := TooMuchData; return; }
      localWindow := Sub32(localWindow, winLen);
      output := output + data;
      v := Accepted;
    }

    /** `tcode` is the type code of the data, `extEofBug` the SSH_BUG_EXTEOF leniency. */
    method InputExtendedData(data: seq<u8>, tcode: u32, extEofBug: bool) returns (sent: seq<Msg>, v: Verdict)
      modifies this
      ensures Received(View(), sent, v) == ReceiveExtAs(old(View()), data, tcode == 1, extEofBug)
      ensures unchanged(`zombie, `detachUser, `detachClose)
    {
      sent := [];
      if kind != Open { v := NotOpen; return; }
      if eofRcvd && !extEofBug { v := Fatal; return; }
      if !efd || usage != ExtWrite || tcode != 1 { v := BadExt; return; }
      if |data| > localWindow { v := TooMuchExt; return; }
      extended := extended + data;
      localWindow := Sub32(localWindow, |data|);
      v := Accepted;
    }

    method InputWindowAdjust(adjust: u32) returns (sent: seq<Msg>, v: Verdict)
      modifies this
      ensures Received(View(), sent, v) == ReceiveAdjust(old(View()), adjust)
      ensures unchanged(`zombie, `detachUser, `detachClose)
    {
      sent := [];
      var newRwin := Add32(remoteWindow, adjust);
      if newRwin < remoteWindow { v := Fatal; return; }
      remoteWindow := newRwin;
      v := Accepted;
    }

    method InputOpenConfirmation(window: u32, maxpacket: u32) returns (sent: seq<Msg>, v: Verdict)
      modifies this
      ensures Received(View(), sent, v) == ReceiveConfirm(old(View()), window, maxpacket)
      ensures unchanged(`zombie, `detachUser, `detachClose)
    {
      sent := [];
      if kind != Opening { v := Fatal; return; }
      remoteWindow := window;
      remoteMaxpacket := maxpacket;
      kind := Open;
      v := Accepted;
    }

    /** chan_rcvd_ieof. */
    method RcvdIeof()
      modifies this
      ensures View() == DrainOutput(NoteFlag(old(View()), true, false))
      ensures unchanged(`zombie, `detachUser, `detachClose)
    {
      eofRcvd := true;
      if ostate == OutOpen { ostate := OutDrain; }
      DrainOutputHalf();
    }

    method ForceInputDrain() returns (sent: seq<Msg>)
      modifies this
      ensures Effect(View(), sent) == ForceDrain(old(View()))
      ensures unchanged(`zombie, `detachUser, `detachClose)
    {
      sent := [];
      if forceDrain && istate == InOpen {
        istate := InDrain;
        if |input| == 0 {
          sent := IbufEmpty();
        }
      }
    }

    method InputIeof() returns (sent: seq<Msg>, v: Verdict)
      modifies this
      ensures Received(View(), sent, v) == ReceiveEof(old(View()))
      ensures unchanged(`zombie, `detachUser, `detachClose)
    {
      RcvdIeof();
      sent := ForceInputDrain();
      v := Accepted;
    }

    /** The input half of chan_rcvd_oclose. */
    method RcvdOcloseInput() returns (sent: seq<Msg>)
      modifies this
      ensures Effect(View(), sent) == ShutInput(old(View()))
      ensures unchanged(`zombie, `detachUser, `detachClose)
    {
      sent := [];
      if istate == InClosed { return; }
      if istate == InDrain {
        sent := [Eof];
        eofSent := true;
      }
      if usage != ExtWrite { efd := false; }
      istate := InClosed;
    }

    method InputOclose() returns (sent: seq<Msg>, v: Verdict)
      modifies this
      ensures Received(View(), sent, v) == ReceiveClose(old(View()))
      ensures unchanged(`zombie, `detachUser, `detachClose)
    {
      sent, v := [], Accepted;
      closeRcvd := true;
      if kind == Larval {
        ostate := OutClosed;
        istate := InClosed;
        return;
      }
      if ostate == OutOpen { ostate := OutDrain; }
      sent := RcvdOcloseInput();
    }

    method InputEow() returns (sent: seq<Msg>, v: Verdict)
      modifies this
      ensures Received(View(), sent, v) == ReceiveEow(old(View()))
      ensures unchanged(`zombie, `detachUser, `detachClose)
    {
      sent, v := [], Accepted;
      if istate == InOpen { istate := InClosed; }
    }
  }
}
