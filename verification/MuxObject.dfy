/** The channel table as the source keeps it: an array of slots that channel_new searches
    and grows, channel_free clears, and the proxy code edits in place. */
module MuxObject {
  import opened Ints
  import opened MuxSpec
  import opened MuxRuns
  import opened Wrappers

  lemma {:induction false} FreeSlotIs(s: Slots, i: nat)
    requires i <= |s| && (forall j: nat :: j < i ==> s[j].Some?) && (i < |s| ==> s[i].None?)
    ensures FreeSlot(s) == i
  {
    if i > 0 { FreeSlotIs(s[1..], i - 1); }
  }

  lemma {:induction false} ByRemoteIdIs(s: Slots, r: u32, i: nat)
    requires i <= |s| && (i < |s| ==> s[i].Some? && s[i].value.remote == Some(r))
    requires forall j: nat :: j < i ==> !(s[j].Some? && s[j].value.remote == Some(r))
    ensures ByRemoteId(s, r) == i
  {
    if i > 0 { ByRemoteIdIs(s[1..], r, i - 1); }
  }

  lemma {:induction false} ByAddrIndex(s: Slots, a: nat, i: nat)
    requires i <= |s| && (i < |s| ==> s[i].Some? && s[i].value.addr == a)
    requires forall j: nat :: j < i ==> !(s[j].Some? && s[j].value.addr == a)
    ensures ByAddr(s, a) == i
  {
    if i > 0 { ByAddrIndex(s[1..], a, i - 1); }
  }

  class Channels {
    var channels: Slots
    var next: nat

    ghost function View(): Table
      reads this
    {
      Table(channels, next)
    }

    /** Each live channel sits in the slot of its own id, and so on. */
    ghost predicate Valid()
      reads this
    {
      WellFormed(View())
    }

    /** channel_init_channels. */
    constructor ()
      ensures Valid() && View() == Empty
    {
      channels, next := Nones(10), 0;
    }

    method FindFree() returns (i: nat)
      ensures i == FreeSlot(channels)
    {
      i := 0;
      while i < |channels|
        invariant i <= |channels| && forall j: nat :: j < i ==> channels[j].Some?
      {
        if channels[i].None? { break; }
        i := i + 1;
      }
      FreeSlotIs(channels, i);
    }

    /** channel_new; the false result is the source's fatal(). */
    method ChannelNew(kind: Kind, remote: Option<u32>, ctx: Option<nat>, downId: u32) returns (ok: bool, self: nat)
      requires Valid() && (kind == Proxy ==> ctx.Some? && ctx.value < next) && (kind == Client ==> remote.None?)
      modifies this
      ensures Valid() && ok == CanNew(old(View())) && self == FreeSlot(old(channels))
      ensures View() == if ok then New(old(View()), kind, remote, ctx, downId) else old(View())
    {
      var i := FindFree();
      NewKeepsWellFormed(View(), kind, remote, ctx, downId);
      self := i;
      if i >= |channels| {
        if |channels| > MAX_CHANNELS { return false, i; }
        channels := channels + Nones(10);
      }
      channels := channels[self := Some(Chan(next, self, kind, remote, ctx, downId, false, false, []))];
      next := next + 1;
      ok := true;
    }

    /** channel_free: cut the proxies of a client loose, then clear the slot. */
    method ChannelFree(c: Chan)
      requires Valid() && c.self < |channels|
      modifies this`channels
      ensures Valid() && channels == Free(old(channels), c)
    {
      FreeKeepsWellFormed(View(), c);
      for i := 0 to |channels|
        invariant |channels| == |old(channels)|
        invariant forall j :: 0 <= j < i ==>
          channels[j] == if c.kind == Client then DetachOne(old(channels)[j], c.addr) else old(channels)[j]
        invariant forall j :: i <= j < |channels| ==> channels[j] == old(channels)[j]
      {
        if channels[i].None? { continue; }
        var other := channels[i].value;
        if c.kind == Client && other.kind == Proxy && other.ctx == Some(c.addr) {
          channels := channels[i := Some(other.(ctx := None, kind := Detached))];
        }
      }
      assert c.kind == Client ==> channels == Detach(old(channels), c.addr);
      assert c.kind != Client ==> channels == old(channels);
      channels := channels[c.self := None];
    }

    method ChannelByRemoteId(remoteId: u32) returns (i: nat)
      ensures i == ByRemoteId(channels, remoteId)
    {
      i := 0;
      while i < |channels|
        invariant i <= |channels|
        invariant forall j: nat :: j < i ==> !(channels[j].Some? && channels[j].value.remote == Some(remoteId))
      {
        var c := channels[i];
        if c.Some? && c.value.remote == Some(remoteId) { break; }
        i := i + 1;
      }
      ByRemoteIdIs(channels, remoteId, i);
    }

    /** Follows a pointer to the object at an address. */
    method Deref(a: nat) returns (i: nat)
      ensures i == ByAddr(channels, a)
    {
      i := 0;
      while i < |channels|
        invariant i <= |channels| && forall j: nat :: j < i ==> !(channels[j].Some? && channels[j].value.addr == a)
      {
        if channels[i].Some? && channels[i].value.addr == a { break; }
        i := i + 1;
      }
      ByAddrIndex(channels, a, i);
    }

    /** channel_proxy_downstream, after the message has been parsed. */
    method ProxyDownstream(c: nat, m: DownMsg) returns (ok: bool)
      requires Valid() && LiveAt(channels, c)
      modifies this
      ensures Valid() && (ok <==> (m.DownOpen? || m.DownConfirm? ==> CanNew(old(View()))))
      ensures View() == if ok then Downstream(old(View()), c, m) else old(View())
    {
      DownstreamKeepsWellFormed(View(), c, m);
      var downstream := channels[c].value;
      ok := true;
      match m
      case DownOpen(id) =>
        var self;
        ok, self := ChannelNew(Proxy, None, Some(downstream.addr), id);
      case DownConfirm(remoteId, id) =>
        var self;
        ok, self := ChannelNew(Proxy, Some(remoteId), Some(downstream.addr), id);
      case DownClose(remoteId) =>
        var i := ChannelByRemoteId(remoteId);
        if i < |channels| {
          var x := channels[i].value;
          if x.closeRcvd {
            ChannelFree(x);
          } else {
            channels := channels[i := Some(x.(closeSent := true))];
          }
        }
      case DownOther(_) =>
    }

    /** The end of channel_proxy_upstream: note the remote id, or the CLOSE. */
    method NoteUpstream(k: nat, m: UpMsg)
      requires Valid() && LiveAt(channels, k)
      modifies this`channels
      ensures channels == Note(old(channels), k, m)
    {
      var c := channels[k].value;
      match m
      case UpConfirm(p) =>
        if |p| > 4 {
          channels := channels[k := Some(c.(remote := Some(PeekU32(p))))];
        }
      case UpClose =>
        if c.closeSent {
          ChannelFree(c);
        } else {
          channels := channels[k := Some(c.(closeRcvd := true))];
        }
      case UpOther(_, _) =>
    }

    /** channel_proxy_upstream for the proxy in slot k: through its pointer to its client. */
    method ProxyUpstream(k: nat, m: UpMsg)
      requires Valid() && Is(View(), k, Proxy) && HasClient(channels, k)
      modifies this`channels
      ensures Valid() && View() == Step(old(View()), Up(k, m))
    {
      ghost var t := View();
      StepKeepsWellFormed(t, Up(k, m));
      var c := channels[k].value;
      var d := Deref(c.ctx.value);
      var downstream := channels[d].value;
      var y := downstream.(output := downstream.output + [Delivered(c.downId, m)]);
      TouchKeepsWellFormed(t, d, y);
      channels := channels[d := Some(y)];
      NoteUpstream(k, m);
    }

    /** Everything that can happen to the table; the true result is a fatal end. */
    method Apply(e: Event) returns (fatal: bool)
      requires Valid() && Possible(View(), e)
      modifies this
      ensures fatal == Fatal(old(View()), e)
      ensures !fatal ==> Valid() && View() == Step(old(View()), e)
    {
      ghost var t := View();
      if !Fatal(t, e) { StepKeepsWellFormed(t, e); }
      var ok, self := true, 0;
      match e {
        case Connect => ok, self := ChannelNew(Client, None, None, 0);
        case Create(r) => ok, self := ChannelNew(Other, r, None, 0);
        case Identify(c, r) => channels := channels[c := Some(channels[c].value.(remote := Some(r)))];
        case Dispose(c) => ChannelFree(channels[c].value);
        case Down(c, m) => ok := ProxyDownstream(c, m);
        case Up(k, m) =>
          if channels[k].value.kind == Proxy {
            ProxyUpstream(k, m);
          } else {
            ok := !(m.UpConfirm? || (m.UpOther? && m.what == OPEN_FAILURE));
            if m.UpClose? { channels := channels[k := Some(channels[k].value.(closeRcvd := true))]; }
          }
        case Leave(c) => ChannelFree(channels[c].value);
        case Die(c) => channels := channels[c := Some(channels[c].value.(kind := Zombie))];
        case Reap(c) => ChannelFree(channels[c].value);
        case Settle(c) =>
          var x := channels[c].value;
          ok := x.closeSent || x.remote.Some?;
          if ok { Collect(c); }
      }
      fatal := !ok;
    }

    /** chan_is_dead and channel_free for a detached proxy: the CLOSE that is due is sent. */
    method Collect(c: nat)
      requires Valid() && LiveAt(channels, c)
      modifies this`channels
      ensures channels == Settled(old(channels), c)
    {
      var x := channels[c].value.(closeSent := true);
      if x.closeRcvd {
        ChannelFree(x);
      } else {
        channels := channels[c := Some(x)];
      }
    }

    /** Handles events until one cannot happen or is fatal; ts is the run it was. */
    method RunEvents(es: seq<Event>) returns (n: nat, ghost ts: seq<Table>)
      requires View() == Empty
      modifies this
      ensures n <= |es| && Run(ts, es[..n]) && (n < |es| ==> !Possible(ts[n], es[n]) || Fatal(ts[n], es[n]))
      ensures n == |es| || !Possible(ts[n], es[n]) ==> View() == ts[n]
    {
      n, ts := 0, [Empty];
      assert es[..0] == [];
      while n < |es|
        invariant n <= |es| && Valid() && Run(ts, es[..n]) && View() == ts[n]
      {
        var p := CanHappen(es[n]);
        if !p { return; }
        ghost var e := es[n];
        if !Fatal(ts[n], e) { RunExtends(ts, es[..n], e); }
        var fatal := Apply(es[n]);
        if fatal { return; }
        assert es[..n + 1] == es[..n] + [e];
        ts, n := ts + [View()], n + 1;
      }
    }

    method CanHappen(e: Event) returns (p: bool)
      ensures p == Possible(View(), e)
    {
      match e
      case Connect => p := true;
      case Create(_) => p := true;
      case Identify(c, _) => p := IsKind(c, Other);
      case Dispose(c) => p := IsKind(c, Other);
      case Down(c, _) => p := IsKind(c, Client);
      case Up(k, _) =>
        p := IsKind(k, Detached);
        if IsKind(k, Proxy) && channels[k].value.ctx.Some? {
          var d := Deref(channels[k].value.ctx.value);
          p := d < |channels| && d != k;
        }
      case Leave(c) => p := IsKind(c, Client);
      case Die(c) => p := IsKind(c, Client);
      case Reap(c) => p := IsKind(c, Zombie);
      case Settle(c) => p := IsKind(c, Detached);
    }

    predicate IsKind(i: nat, k: Kind)
      reads this
    {
      i < |channels| && channels[i].Some? && channels[i].value.kind == k
    }
  }
}
