/** Two channel objects joined by two links, driven by their handlers: every event keeps the
    invariant of Flow and does what a step of Flow does. */
module NetworkObject {
  import opened Ints
  import opened ChannelSpec
  import opened ChannelObject
  import opened Flow

  /** One action of the event loop on a channel, through its handlers. */
  method Perform(c: Channel, act: Action) returns (sent: seq<Msg>)
    requires Enabled(c.View(), act) && !c.zombie && !c.detachUser
    modifies c
    ensures Effect(c.View(), sent) == Act(old(c.View()), act) && !c.zombie && !c.detachUser
  {
    sent := [];
    match act
    case Read(bs) => c.HandleRfd(Got(bs));
    case ReadEnd => c.HandleRfd(ReadFailed);
    case ReadExt(bs) => c.HandleEfdRead(Got(bs));
    case ReadExtEnd => c.HandleEfdRead(ReadFailed);
    case Write(n) => sent := c.HandleWfd(Wrote(n));
    case WriteFail => sent := c.HandleWfd(WriteFailed);
    case WriteExt(n) => c.HandleEfdWrite(Wrote(n));
    case WriteExtFail => c.HandleEfdWrite(WriteFailed);
    case PreOpen => var w := c.PreOpen();
    case CheckWindow => sent := c.CheckWindow();
    case Poll => sent := c.OutputPoll();
    case Collect =>
      var freed;
      sent, freed := c.GarbageCollect(false, false, false);
    case SetFds(w, u, e) => sent := c.SetFds(w, u, e);
  }

  /** The handler of a packet. */
  method Accept(c: Channel, m: Msg) returns (sent: seq<Msg>, v: Verdict)
    modifies c
    ensures Received(c.View(), sent, v) == Receive(old(c.View()), m)
    ensures c.zombie == old(c.zombie) && c.detachUser == old(c.detachUser)
  {
    match m
    case Confirm(w, mp) => sent, v := c.InputOpenConfirmation(w, mp);
    case Data(bs) => sent, v := c.InputData(bs);
    case ExtData(bs) =>
      PlainExt(c.View(), bs);
      sent, v := c.InputExtendedData(bs, 1, false);
    case Adjust(n) => sent, v := c.InputWindowAdjust(n);
    case Eof => sent, v := c.InputIeof();
    case Close => sent, v := c.InputOclose();
    case Eow => sent, v := c.InputEow();
  }

  /** One end moves: a run that ended before it goes on. */
  lemma EndMoves(n: Net, m: Net, atA: bool, e: Event)
    requires Reached(n)
    requires var v := if atA then n else Swap(n);
             CanStep(v, e) && (if atA then m else Swap(m)) == StepA(v, e)
    ensures Reached(m)
  {
    if atA {
      assert CanStep(n, e) && m == StepA(n, e);
    } else {
      assert CanStep(Swap(n), e) && m == Swap(StepA(Swap(n), e));
    }
    assert Step(n, m);
    ReachedStep(n, m);
  }

  /** The channel of the end that was asked: it knows the window of the other end. */
  method Answered(kind: Kind, window: u32, maxpack: u32, usage: ExtUsage, efd: bool, drain: bool, session: bool,
                  newOpenssh: bool, remoteWindow: u32, remoteMax: u32)
    returns (d: Channel)
    ensures fresh(d) && !d.zombie && !d.detachUser
    ensures d.View() == Chan(kind, InOpen, OutOpen, false, false, false, false, drain, session && newOpenssh,
                             usage, efd, [], [], [], remoteWindow, remoteMax, window, window, 0, maxpack)
  {
    d := new Channel(kind, window, maxpack, usage, efd, drain, session, newOpenssh);
    d.remoteWindow, d.remoteMaxpacket := remoteWindow, remoteMax;
  }

  class Network {
    const a: Channel
    const b: Channel
    var ab: seq<Msg>
    var ba: seq<Msg>
    ghost var ha: History
    ghost var hb: History

    ghost function View(): Net
      reads this, a, b
    {
      Net(Peer(a.View(), ha), Peer(b.View(), hb), ab, ba)
    }

    /** The network as end a or end b sees it. */
    ghost function From(atA: bool): Net
      reads this, a, b
    {
      if atA then View() else Swap(View())
    }

    ghost predicate Sound()
      reads a, b
    {
      a != b && !a.zombie && !b.zombie && !a.detachUser && !b.detachUser
    }

    /** The objects are in a state that a run of Flow reaches. */
    ghost predicate Valid()
      reads this, a, b
    {
      Sound() && Reached(View())
    }

    /** End a has asked for a channel and end b has answered; a session starts larval. */
    constructor (windowA: u32, maxA: u32, usageA: ExtUsage, efdA: bool,
                 windowB: u32, maxB: u32, usageB: ExtUsage, efdB: bool,
                 larval: bool, session: bool, newOpenssh: bool, drain: bool)
      requires larval ==> windowB == 0
      ensures Valid() && Init(View()) && fresh(a) && fresh(b)
    {
      var c := new Channel(Opening, windowA, maxA, usageA, efdA, drain, session, newOpenssh);
      var d := Answered(if larval then Larval else Open, windowB, maxB, usageB, efdB, drain, session, newOpenssh,
                        windowA, maxA);
      a, b := c, d;
      ab, ba := [], [Confirm(windowB, maxB)];
      ha, hb := NoHistory, NoHistory;
      new;
      ReachedInit(View());
    }

    /** Queues what one end sent, and takes the packet it received off its link. */
    method Post(atA: bool, sent: seq<Msg>, taken: nat, ghost h: History)
      requires taken <= if atA then |ba| else |ab|
      modifies this
      ensures From(atA) == Net(Peer(old(From(atA)).a.c, h), old(From(atA)).b, old(From(atA)).ab + sent,
                               old(From(atA)).ba[taken..])
    {
      if atA {
        ab, ba, ha := ab + sent, ba[taken..], h;
      } else {
        ba, ab, hb := ba + sent, ab[taken..], h;
      }
    }

    /** An action of the event loop at one end. */
    method Local(atA: bool, act: Action)
      requires Valid() && Enabled(From(atA).a.c, act)
      modifies this, a, b
      ensures Valid() && From(atA) == StepA(old(From(atA)), Event.Local(act))
    {
      ghost var n, v := View(), From(atA);
      var c := if atA then a else b;
      var sent := Perform(c, act);
      Post(atA, sent, 0, RecordAct(v.a, act));
      EndMoves(n, View(), atA, Event.Local(act));
    }

    /** The oldest packet on its way to one end arrives; it is never refused fatally. */
    method Deliver(atA: bool)
      requires Valid() && From(atA).ba != []
      modifies this, a, b
      ensures Valid() && CanStep(old(From(atA)), Event.Deliver)
      ensures From(atA) == StepA(old(From(atA)), Event.Deliver)
    {
      ghost var n, v := View(), From(atA);
      assert CanStep(v, Event.Deliver) by {
        ReachedReachable(n);
        ReachableInv(n);
        SwapInv(n);
        InvTakesPacket(v);
      }
      var c := if atA then a else b;
      var m := if atA then ba[0] else ab[0];
      var sent, verdict := Accept(c, m);
      Post(atA, sent, 1, RecordMsg(v.a, m));
      EndMoves(n, View(), atA, Event.Deliver);
    }

    /** Whatever was done to the objects, each end has written a prefix of what the other has
        read, and each receive window is accounted for. */
    lemma Delivers()
      requires Valid()
      ensures hb.wrote <= ha.read && ha.wrote <= hb.read
      ensures b.localWindow + b.localConsumed + |b.output| + |HeldExt(b.View())| + hb.lost == b.localWindowMax
      ensures a.localWindow + a.localConsumed + |a.output| + |HeldExt(a.View())| + ha.lost == a.localWindowMax
    {
      var n := View();
      ReachedReachable(n);
      ReachedSwap(n);
      StreamPreserved(n);
      StreamPreserved(Swap(n));
      WindowConserved(n);
      WindowConserved(Swap(n));
    }
  }

  lemma ReachedSwap(n: Net)
    requires Reachable(n)
    ensures Reachable(Swap(n))
  {
    var ns, i: nat :| Flow.Run(ns) && i < |ns| && (ns[i] == n || ns[i] == Swap(n));
    assert Swap(Swap(n)) == n;
  }
}
