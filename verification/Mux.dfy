/** The channel table and the multiplexing proxy: mux clients share one connection, so
    their channel ids are replaced by the ids of local proxy channels and translated back
    on the way down. */
module MuxSpec {
  import opened Ints
  import opened Wrappers

  const MAX_CHANNELS: int := 16 * 1024
  const OPEN_FAILURE: nat := 92

  /** Packets of the server, as a proxy forwards them after the channel id. */
  datatype UpMsg = UpConfirm(payload: seq<u8>) | UpClose | UpOther(what: nat, payload: seq<u8>)

  /** What a mux client finds in its output buffer. */
  datatype Delivered = Delivered(id: u32, msg: UpMsg)

  /** Packets of a mux client. */
  datatype DownMsg =
    | DownOpen(id: u32)
    | DownConfirm(remoteId: u32, id: u32)
    | DownClose(remoteId: u32)
    | DownOther(what: nat)

  datatype Kind = Client | Proxy | Detached | Zombie | Other

  /** `addr` stands for the address of the object; `ctx` is the mux_ctx pointer. */
  datatype Chan = Chan(
    addr: nat,
    self: nat,
    kind: Kind,
    remote: Option<u32>,
    ctx: Option<nat>,
    downId: u32,
    closeSent: bool,
    closeRcvd: bool,
    output: seq<Delivered>)

  type Slots = seq<Option<Chan>>

  /** `next` is an address no object has had yet. */
  datatype Table = Table(slots: Slots, next: nat)

  predicate LiveAt(s: Slots, i: nat) { i < |s| && s[i].Some? }

  // ---- channel_new and channel_free --------------------------------------------------

  /** The first free slot, or the end of the array. */
  function FreeSlot(s: Slots): (i: nat)
    ensures i <= |s| && (i < |s| ==> s[i].None?)
  {
    if s == [] || s[0].None? then 0 else 1 + FreeSlot(s[1..])
  }

  function Nones(n: nat): Slots { seq(n, _ => None) }

  predicate CanNew(t: Table) { FreeSlot(t.slots) < |t.slots| || |t.slots| <= MAX_CHANNELS }

  function Grown(s: Slots): Slots { if FreeSlot(s) < |s| then s else s + Nones(10) }

  function NewChan(t: Table, kind: Kind, remote: Option<u32>, ctx: Option<nat>, downId: u32): Chan {
    Chan(t.next, FreeSlot(t.slots), kind, remote, ctx, downId, false, false, [])
  }

  function New(t: Table, kind: Kind, remote: Option<u32>, ctx: Option<nat>, downId: u32): Table {
    var i := FreeSlot(t.slots);
    Table(Grown(t.slots)[i := Some(NewChan(t, kind, remote, ctx, downId))], t.next + 1)
  }

  /** Cut one proxy loose from a departing client. */
  function DetachOne(o: Option<Chan>, a: nat): Option<Chan> {
    if o.Some? && o.value.kind == Proxy && o.value.ctx == Some(a)
    then Some(o.value.(ctx := None, kind := Detached)) else o
  }

  function Detach(s: Slots, a: nat): (r: Slots)
    ensures |r| == |s| && forall i :: 0 <= i < |s| ==> r[i] == DetachOne(s[i], a)
  {
    seq(|s|, i requires 0 <= i < |s| => DetachOne(s[i], a))
  }

  function Free(s: Slots, c: Chan): Slots
    requires c.self < |s|
  {
    if c.kind == Client then Detach(s, c.addr)[c.self := None] else s[c.self := None]
  }

  /** channel_by_remote_id: the first match, or the end of the array. */
  function ByRemoteId(s: Slots, r: u32): (i: nat)
    ensures i <= |s| && (i < |s| ==> s[i].Some? && s[i].value.remote == Some(r))
  {
    if s == [] || (s[0].Some? && s[0].value.remote == Some(r)) then 0 else 1 + ByRemoteId(s[1..], r)
  }

  /** The slot of the object at an address, or the end of the array. */
  function ByAddr(s: Slots, a: nat): (i: nat)
    ensures i <= |s| && (i < |s| ==> s[i].Some? && s[i].value.addr == a)
  {
    if s == [] || (s[0].Some? && s[0].value.addr == a) then 0 else 1 + ByAddr(s[1..], a)
  }

  // ---- the proxy ------------------------------------------------------------------------

  predicate InRange(s: Slots, i: nat) { LiveAt(s, i) && s[i].value.self < |s| }

  /** channel_proxy_downstream for the client in slot c. */
  function Downstream(t: Table, c: nat, m: DownMsg): Table
    requires LiveAt(t.slots, c)
    requires m.DownClose? ==> forall i: nat :: i < |t.slots| && t.slots[i].Some? ==> t.slots[i].value.self < |t.slots|
  {
    var a := t.slots[c].value.addr;
    match m
    case DownOpen(id) => New(t, Proxy, None, Some(a), id)
    case DownConfirm(r, id) => New(t, Proxy, Some(r), Some(a), id)
    case DownClose(r) =>
      var i := ByRemoteId(t.slots, r);
      if i == |t.slots| then t
      else
        var x := t.slots[i].value;
        if x.closeRcvd then t.(slots := Free(t.slots, x))
        else t.(slots := t.slots[i := Some(x.(closeSent := true))])
    case DownOther(_) => t
  }

  function Append(o: Option<Chan>, d: Delivered): Option<Chan> {
    if o.Some? then Some(o.value.(output := o.value.output + [d])) else None
  }

  /** The last part of channel_proxy_upstream: note the remote id, or the CLOSE. */
  function Note(s: Slots, k: nat, m: UpMsg): Slots
    requires InRange(s, k)
  {
    var x := s[k].value;
    match m
    case UpConfirm(p) => if |p| > 4 then s[k := Some(x.(remote := Some(PeekU32(p))))] else s
    case UpClose => if x.closeSent then Free(s, x) else s[k := Some(x.(closeRcvd := true))]
    case UpOther(_, _) => s
  }

  /** channel_proxy_upstream for the proxy in slot k, whose client is in slot d. */
  function Upstream(s: Slots, k: nat, d: nat, m: UpMsg): Slots
    requires InRange(s, k) && LiveAt(s, d) && d != k
  {
    Note(s[d := Append(s[d], Delivered(s[k].value.downId, m))], k, m)
  }

  // ---- everything that can happen to the table ---------------------------------------------

  datatype Event =
    | Connect                                   // a mux client arrives
    | Create(remote: Option<u32>)               // some unrelated channel is created
    | Identify(c: nat, r: u32)                  // and learns its remote id
    | Dispose(c: nat)                           // and is freed
    | Down(c: nat, down: DownMsg)               // a packet of the client in slot c
    | Up(k: nat, up: UpMsg)                     // a packet of the server for slot k
    | Leave(c: nat)                             // a client channel is freed
    | Die(c: nat)                               // a client channel is marked dead
    | Reap(c: nat)                              // a dead channel is freed
    | Settle(c: nat)                            // a detached proxy is garbage collected

  predicate Is(t: Table, i: nat, k: Kind) { LiveAt(t.slots, i) && t.slots[i].value.kind == k }

  /** The proxy in slot k has a client to deliver to. */
  predicate HasClient(s: Slots, k: nat) {
    && LiveAt(s, k) && s[k].value.ctx.Some? && ByAddr(s, s[k].value.ctx.value) < |s|
    && ByAddr(s, s[k].value.ctx.value) != k
  }

  /** What the event loop, the clients and the server may do next. */
  predicate Possible(t: Table, e: Event) {
    match e
    case Connect => true
    case Create(_) => true
    case Identify(c, _) => Is(t, c, Other)
    case Dispose(c) => Is(t, c, Other)
    case Down(c, m) => Is(t, c, Client)
    case Up(k, m) => (Is(t, k, Proxy) && HasClient(t.slots, k)) || Is(t, k, Detached)
    case Leave(c) => Is(t, c, Client)
    case Die(c) => Is(t, c, Client)
    case Reap(c) => Is(t, c, Zombie)
    case Settle(c) => Is(t, c, Detached)
  }

  /** The process or the connection ends: no room for a channel; the answer to an open
      request for a proxy whose client has left, which is no longer waiting for one; and the
      CLOSE that is due for such a proxy while it has no remote id to send it to. */
  predicate Fatal(t: Table, e: Event)
    requires Possible(t, e)
  {
    match e
    case Connect => !CanNew(t)
    case Create(_) => !CanNew(t)
    case Down(_, m) => (m.DownOpen? || m.DownConfirm?) && !CanNew(t)
    case Up(k, m) => Is(t, k, Detached) && (m.UpConfirm? || (m.UpOther? && m.what == OPEN_FAILURE))
    case Settle(c) => !t.slots[c].value.closeSent && t.slots[c].value.remote.None?
    case _ => false
  }

  predicate Enabled(t: Table, e: Event) { Possible(t, e) && !Fatal(t, e) }

  /** chan_is_dead and channel_free for a detached proxy, whose two halves are closed. */
  function Settled(s: Slots, c: nat): Slots
    requires InRange(s, c)
  {
    var x := s[c].value.(closeSent := true);
    if x.closeRcvd then Free(s, x) else s[c := Some(x)]
  }

  /** Each live channel sits in the slot equal to its own id; addresses are unique; a proxy
      points at something else, and has not seen both CLOSEs; clients have no remote id. */
  ghost predicate WellFormed(t: Table) {
    && (forall i: nat :: LiveAt(t.slots, i) ==> t.slots[i].value.self == i && t.slots[i].value.addr < t.next)
    && (forall i: nat, j: nat :: i < j && LiveAt(t.slots, i) && LiveAt(t.slots, j) ==>
          t.slots[i].value.addr != t.slots[j].value.addr)
    && (forall i: nat :: Is(t, i, Proxy) ==>
          && t.slots[i].value.ctx.Some? && t.slots[i].value.ctx.value < t.next
          && t.slots[i].value.ctx.value != t.slots[i].value.addr
          && !(t.slots[i].value.closeSent && t.slots[i].value.closeRcvd))
    && (forall i: nat :: Is(t, i, Client) ==> t.slots[i].value.remote.None?)
  }

  function Step(t: Table, e: Event): Table
    requires WellFormed(t) && Enabled(t, e)
  {
    match e
    case Connect => New(t, Client, None, None, 0)
    case Create(r) => New(t, Other, r, None, 0)
    case Identify(c, r) => t.(slots := t.slots[c := Some(t.slots[c].value.(remote := Some(r)))])
    case Dispose(c) => t.(slots := Free(t.slots, t.slots[c].value))
    case Down(c, m) => Downstream(t, c, m)
    case Up(k, m) =>
      if Is(t, k, Proxy) then t.(slots := Upstream(t.slots, k, ByAddr(t.slots, t.slots[k].value.ctx.value), m))
      else if m.UpClose? then t.(slots := t.slots[k := Some(t.slots[k].value.(closeRcvd := true))])
      else t
    case Leave(c) => t.(slots := Free(t.slots, t.slots[c].value))
    case Die(c) => t.(slots := t.slots[c := Some(t.slots[c].value.(kind := Zombie))])
    case Reap(c) => t.(slots := Free(t.slots, t.slots[c].value))
    case Settle(c) => t.(slots := Settled(t.slots, c))
  }
}

/** What every run of the table keeps: slots, routing and the two CLOSEs. */
module MuxRuns {
  import opened Ints
  import opened MuxSpec
  import opened Wrappers

  lemma NewKeepsWellFormed(t: Table, kind: Kind, remote: Option<u32>, ctx: Option<nat>, downId: u32)
    requires WellFormed(t) && (kind == Proxy ==> ctx.Some? && ctx.value < t.next) && (kind == Client ==> remote.None?)
    ensures WellFormed(New(t, kind, remote, ctx, downId))
  {
    var u := New(t, kind, remote, ctx, downId);
    forall i: nat | LiveAt(u.slots, i) && i != FreeSlot(t.slots)
      ensures LiveAt(t.slots, i) && u.slots[i] == t.slots[i]
    {
    }
  }

  /** One channel changes, but not its identity. */
  predicate Touches(x: Chan, y: Chan) {
    && y.addr == x.addr && y.self == x.self && y.downId == x.downId
    && (y.kind == Proxy ==> x.kind == Proxy && y.ctx == x.ctx)
  }

  lemma TouchKeepsWellFormed(t: Table, i: nat, y: Chan)
    requires WellFormed(t) && LiveAt(t.slots, i) && Touches(t.slots[i].value, y)
    requires y.kind == Proxy ==> !(y.closeSent && y.closeRcvd)
    requires y.kind == Client ==> y.remote.None?
    ensures WellFormed(t.(slots := t.slots[i := Some(y)]))
  {
    var u := t.(slots := t.slots[i := Some(y)]);
    forall j: nat | LiveAt(u.slots, j) && j != i ensures LiveAt(t.slots, j) && u.slots[j] == t.slots[j] {}
  }

  lemma FreeKeepsWellFormed(t: Table, c: Chan)
    requires WellFormed(t) && c.self < |t.slots|
    ensures WellFormed(t.(slots := Free(t.slots, c)))
  {
    var u := t.(slots := Free(t.slots, c));
    forall j: nat | LiveAt(u.slots, j)
      ensures LiveAt(t.slots, j) && u.slots[j] in {t.slots[j], DetachOne(t.slots[j], c.addr)}
    {}
  }

  lemma DownstreamKeepsWellFormed(t: Table, c: nat, m: DownMsg)
    requires WellFormed(t) && LiveAt(t.slots, c)
    ensures WellFormed(Downstream(t, c, m))
  {
    var a := t.slots[c].value.addr;
    match m
    case DownOpen(id) => NewKeepsWellFormed(t, Proxy, None, Some(a), id);
    case DownConfirm(r, id) => NewKeepsWellFormed(t, Proxy, Some(r), Some(a), id);
    case DownClose(r) =>
      var i := ByRemoteId(t.slots, r);
      if i < |t.slots| {
        var x := t.slots[i].value;
        if x.closeRcvd { FreeKeepsWellFormed(t, x); } else { TouchKeepsWellFormed(t, i, x.(closeSent := true)); }
      }
    case DownOther(_) =>
  }

  lemma UpstreamKeepsWellFormed(t: Table, k: nat, d: nat, m: UpMsg)
    requires WellFormed(t) && Is(t, k, Proxy) && LiveAt(t.slots, d) && d != k
    ensures WellFormed(t.(slots := Upstream(t.slots, k, d, m)))
  {
    var y := Append(t.slots[d], Delivered(t.slots[k].value.downId, m)).value;
    TouchKeepsWellFormed(t, d, y);
    var u := t.(slots := t.slots[d := Some(y)]);
    var x := u.slots[k].value;
    match m
    case UpConfirm(p) => if |p| > 4 { TouchKeepsWellFormed(u, k, x.(remote := Some(PeekU32(p)))); }
    case UpClose =>
      if x.closeSent { FreeKeepsWellFormed(u, x); } else { TouchKeepsWellFormed(u, k, x.(closeRcvd := true)); }
    case UpOther(_, _) =>
  }

  /** Every step keeps each live channel in the slot of its own id. */
  lemma StepKeepsWellFormed(t: Table, e: Event)
    requires WellFormed(t) && Enabled(t, e)
    ensures WellFormed(Step(t, e))
  {
    match e
    case Connect => NewKeepsWellFormed(t, Client, None, None, 0);
    case Create(r) => NewKeepsWellFormed(t, Other, r, None, 0);
    case Identify(c, r) => TouchKeepsWellFormed(t, c, t.slots[c].value.(remote := Some(r)));
    case Dispose(c) => FreeKeepsWellFormed(t, t.slots[c].value);
    case Down(c, m) => DownstreamKeepsWellFormed(t, c, m);
    case Up(k, m) =>
      if Is(t, k, Proxy) {
        UpstreamKeepsWellFormed(t, k, ByAddr(t.slots, t.slots[k].value.ctx.value), m);
      } else {
        TouchKeepsWellFormed(t, k, t.slots[k].value.(closeRcvd := true));
      }
    case Leave(c) => FreeKeepsWellFormed(t, t.slots[c].value);
    case Die(c) => TouchKeepsWellFormed(t, c, t.slots[c].value.(kind := Zombie));
    case Reap(c) => FreeKeepsWellFormed(t, t.slots[c].value);
    case Settle(c) =>
      var x := t.slots[c].value.(closeSent := true);
      if x.closeRcvd { FreeKeepsWellFormed(t, x); } else { TouchKeepsWellFormed(t, c, x); }
  }

  // ---- an object keeps its slot, its client and its original id ---------------------------

  /** What is in slot k afterwards was there before, or is brand new. */
  predicate Follows(t: Table, u: Table, k: nat) {
    && t.next <= u.next
    && (LiveAt(u.slots, k) ==>
          || (LiveAt(t.slots, k) && Touches(t.slots[k].value, u.slots[k].value))
          || u.slots[k].value.addr == t.next)
  }

  lemma UpstreamFollows(t: Table, k: nat, d: nat, m: UpMsg, n: nat)
    requires WellFormed(t) && Is(t, k, Proxy) && LiveAt(t.slots, d) && d != k
    ensures Follows(t, t.(slots := Upstream(t.slots, k, d, m)), n)
  {
    var s := t.slots[d := Append(t.slots[d], Delivered(t.slots[k].value.downId, m))];
    assert LiveAt(s, n) ==> LiveAt(t.slots, n) && Touches(t.slots[n].value, s[n].value);
  }

  lemma FreeFollows(t: Table, c: Chan, n: nat)
    requires c.self < |t.slots|
    ensures Follows(t, t.(slots := Free(t.slots, c)), n)
  {
  }

  lemma DownstreamFollows(t: Table, c: nat, m: DownMsg, n: nat)
    requires WellFormed(t) && LiveAt(t.slots, c)
    ensures Follows(t, Downstream(t, c, m), n)
  {
    if m.DownClose? {
      var i := ByRemoteId(t.slots, m.remoteId);
      if i < |t.slots| { FreeFollows(t, t.slots[i].value, n); }
    }
  }

  lemma StepFollows(t: Table, e: Event, k: nat)
    requires WellFormed(t) && Enabled(t, e)
    ensures Follows(t, Step(t, e), k)
  {
    match e
    case Down(c, m) => DownstreamFollows(t, c, m, k);
    case Up(n, m) =>
      if Is(t, n, Proxy) { UpstreamFollows(t, n, ByAddr(t.slots, t.slots[n].value.ctx.value), m, k); }
    case Dispose(c) => FreeFollows(t, t.slots[c].value, k);
    case Leave(c) => FreeFollows(t, t.slots[c].value, k);
    case Reap(c) => FreeFollows(t, t.slots[c].value, k);
    case Settle(c) => FreeFollows(t, t.slots[c].value.(closeSent := true), k);
    case _ =>
  }

  const Empty := Table(Nones(10), 0)

  ghost predicate Goes(ts: seq<Table>, es: seq<Event>, i: nat)
    requires i < |es| < |ts|
  {
    WellFormed(ts[i]) && Enabled(ts[i], es[i]) && ts[i + 1] == Step(ts[i], es[i])
  }

  ghost predicate Run(ts: seq<Table>, es: seq<Event>) {
    |ts| == |es| + 1 && ts[0] == Empty && forall i: nat :: i < |es| ==> Goes(ts, es, i)
  }

  /** Well-formedness in Run is no restriction: a run stays well-formed as far as it goes. */
  lemma RunWellFormed(ts: seq<Table>, es: seq<Event>, i: nat)
    requires Run(ts, es) && i <= |es|
    ensures WellFormed(ts[i])
  {
    if i > 0 {
      assert Goes(ts, es, i - 1);
      StepKeepsWellFormed(ts[i - 1], es[i - 1]);
    }
  }

  /** ... and never gets stuck for want of it. */
  lemma RunExtends(ts: seq<Table>, es: seq<Event>, e: Event)
    requires Run(ts, es) && Enabled(ts[|es|], e)
    ensures WellFormed(ts[|es|]) && Run(ts + [Step(ts[|es|], e)], es + [e])
  {
    if es == [] {
      assert WellFormed(Empty);
    } else {
      RunWellFormed(ts, es, |es|);
    }
    var ts', es' := ts + [Step(ts[|es|], e)], es + [e];
    forall i: nat | i < |es'| ensures Goes(ts', es', i) {
      if i < |es| { assert Goes(ts, es, i) && ts'[i] == ts[i] && ts'[i + 1] == ts[i + 1] && es'[i] == es[i]; }
    }
  }

  /** The object at address x is in slot k. */
  predicate Holds(t: Table, k: nat, x: nat) { LiveAt(t.slots, k) && t.slots[k].value.addr == x }

  lemma {:induction false} Lineage(ts: seq<Table>, es: seq<Event>, i: nat, j: nat, k: nat, x: nat)
    requires Run(ts, es) && i <= j <= |es| && x < ts[i].next && Holds(ts[j], k, x)
    ensures ts[i].next <= ts[j].next
    ensures Holds(ts[i], k, x) && Touches(ts[i].slots[k].value, ts[j].slots[k].value)
    decreases j - i
  {
    if i < j {
      assert Goes(ts, es, i);
      StepFollows(ts[i], es[i], k);
      Lineage(ts, es, i + 1, j, k, x);
    }
  }

  /** The step that opens a channel for a client, under the client's own id d. */
  predicate Opens(t: Table, e: Event, d: u32) {
    e.Down? && Is(t, e.c, Client) && (e.down.DownOpen? || e.down.DownConfirm?) && e.down.id == d
  }

  /** In every run, the proxy made for an open request keeps pointing at the client that
      made it, with that client's original id. */
  lemma ProxyKeepsOrigin(ts: seq<Table>, es: seq<Event>, i: nat, j: nat, d: u32)
    requires Run(ts, es) && i < j <= |es| && Opens(ts[i], es[i], d)
    requires Holds(ts[j], FreeSlot(ts[i].slots), ts[i].next) && Is(ts[j], FreeSlot(ts[i].slots), Proxy)
    ensures var p := ts[j].slots[FreeSlot(ts[i].slots)].value;
            p.ctx == Some(ts[i].slots[es[i].c].value.addr) && p.downId == d
  {
    var k := FreeSlot(ts[i].slots);
    assert Goes(ts, es, i);
    assert Holds(ts[i + 1], k, ts[i].next);
    Lineage(ts, es, i + 1, j, k, ts[i].next);
  }

  lemma {:induction false} ByAddrFirst(s: Slots, a: nat, i: nat)
    requires LiveAt(s, i) && s[i].value.addr == a
    ensures ByAddr(s, a) <= i
  {
    if i > 0 { ByAddrFirst(s[1..], a, i - 1); }
  }

  lemma {:induction false} ByAddrIs(t: Table, a: nat, i: nat)
    requires WellFormed(t) && Holds(t, i, a)
    ensures ByAddr(t.slots, a) == i
  {
    ByAddrFirst(t.slots, a, i);
  }

  function Mail(x: Chan, a: nat, d: u32, m: UpMsg): seq<Delivered> {
    if x.addr == a then [Delivered(d, m)] else []
  }

  /** A packet for a proxy is put, with the original id, into the output of the client
      the proxy points at, and into no other output. */
  lemma UpstreamDelivers(t: Table, k: nat, m: UpMsg, n: nat)
    requires WellFormed(t) && Is(t, k, Proxy) && Enabled(t, Up(k, m))
    ensures var u := Step(t, Up(k, m)); var p := t.slots[k].value;
            && (LiveAt(u.slots, n) ==> LiveAt(t.slots, n))
            && (LiveAt(u.slots, n) ==>
                  u.slots[n].value.output == t.slots[n].value.output + Mail(t.slots[n].value, p.ctx.value, p.downId, m))
            && (LiveAt(t.slots, n) && n != k ==> LiveAt(u.slots, n))
  {
    var a := t.slots[k].value.ctx.value;
    if LiveAt(t.slots, n) && t.slots[n].value.addr == a { ByAddrIs(t, a, n); }
  }

  /** Routing over whole runs: whatever happened since client c opened a channel under
      id d, a server packet for its proxy reaches that client under d and no one else. */
  lemma PacketsReachTheirClient(ts: seq<Table>, es: seq<Event>, i: nat, j: nat, d: u32, n: nat)
    requires Run(ts, es) && i < j < |es| && Opens(ts[i], es[i], d)
    requires Holds(ts[j], FreeSlot(ts[i].slots), ts[i].next) && Is(ts[j], FreeSlot(ts[i].slots), Proxy)
    requires es[j].Up? && es[j].k == FreeSlot(ts[i].slots)
    requires LiveAt(ts[j + 1].slots, n)
    ensures LiveAt(ts[j].slots, n)
    ensures ts[j + 1].slots[n].value.output ==
              ts[j].slots[n].value.output
                + Mail(ts[j].slots[n].value, ts[i].slots[es[i].c].value.addr, d, es[j].up)
  {
    ProxyKeepsOrigin(ts, es, i, j, d);
    assert Goes(ts, es, j);
    UpstreamDelivers(ts[j], es[j].k, es[j].up, n);
  }

  // ---- the two CLOSEs --------------------------------------------------------------------------

  /** A CLOSE of some client that is taken to be for slot k. */
  predicate ClosesDown(t: Table, e: Event, k: nat) {
    e.Down? && e.down.DownClose? && ByRemoteId(t.slots, e.down.remoteId) == k
  }

  predicate UniqueRemotes(s: Slots) {
    forall i, j :: 0 <= i < j < |s| && s[i].Some? && s[j].Some? && s[i].value.remote.Some? ==>
      s[i].value.remote != s[j].value.remote
  }

  lemma {:induction false} ByRemoteFirst(s: Slots, r: u32, i: nat)
    requires LiveAt(s, i) && s[i].value.remote == Some(r)
    ensures ByRemoteId(s, r) <= i
  {
    if i > 0 { ByRemoteFirst(s[1..], r, i - 1); }
  }

  /** While live remote ids are unique, such a CLOSE is the one that names k's remote id. */
  lemma CloseFindsItsChannel(t: Table, e: Event, k: nat)
    requires UniqueRemotes(t.slots) && LiveAt(t.slots, k) && e.Down? && e.down.DownClose?
    ensures ClosesDown(t, e, k) <==> t.slots[k].value.remote == Some(e.down.remoteId)
  {
    if t.slots[k].value.remote == Some(e.down.remoteId) { ByRemoteFirst(t.slots, e.down.remoteId, k); }
  }

  predicate ClosesUp(e: Event, k: nat) { e == Up(k, UpClose) }

  predicate Gone(t: Table, u: Table, k: nat)
    requires LiveAt(t.slots, k)
  {
    !Holds(u, k, t.slots[k].value.addr)
  }

  /** What one step does to a proxy's life and its CLOSE flags. */
  predicate CloseStep(t: Table, e: Event, u: Table, k: nat)
    requires LiveAt(t.slots, k)
  {
    var x := t.slots[k].value;
    && (Gone(t, u, k) <==> (ClosesUp(e, k) && x.closeSent) || (ClosesDown(t, e, k) && x.closeRcvd))
    && (Holds(u, k, x.addr) && u.slots[k].value.kind == Proxy ==>
          && u.slots[k].value.closeRcvd == (x.closeRcvd || ClosesUp(e, k))
          && u.slots[k].value.closeSent == (x.closeSent || ClosesDown(t, e, k)))
  }

  lemma UpstreamCloses(t: Table, n: nat, m: UpMsg, k: nat)
    requires WellFormed(t) && Is(t, k, Proxy) && Is(t, n, Proxy) && Enabled(t, Up(n, m))
    ensures CloseStep(t, Up(n, m), Step(t, Up(n, m)), k)
  {
  }

  lemma DownstreamCloses(t: Table, c: nat, m: DownMsg, k: nat)
    requires WellFormed(t) && Is(t, k, Proxy) && Enabled(t, Down(c, m))
    ensures CloseStep(t, Down(c, m), Step(t, Down(c, m)), k)
  {
  }

  lemma DetachedCloses(t: Table, n: nat, m: UpMsg, k: nat)
    requires WellFormed(t) && Is(t, k, Proxy) && Is(t, n, Detached) && Enabled(t, Up(n, m))
    ensures CloseStep(t, Up(n, m), Step(t, Up(n, m)), k)
  {
  }

  lemma GrowthCloses(t: Table, e: Event, k: nat)
    requires WellFormed(t) && Is(t, k, Proxy) && Enabled(t, e) && (e.Connect? || e.Create? || e.Identify? || e.Die?)
    ensures CloseStep(t, e, Step(t, e), k)
  {
  }

  lemma ReleaseCloses(t: Table, e: Event, c: nat, k: nat)
    requires WellFormed(t) && Is(t, k, Proxy) && Enabled(t, e) && (e == Dispose(c) || e == Reap(c))
    ensures CloseStep(t, e, Step(t, e), k)
  {
  }

  lemma LeaveCloses(t: Table, c: nat, k: nat)
    requires WellFormed(t) && Is(t, k, Proxy) && Enabled(t, Leave(c))
    ensures CloseStep(t, Leave(c), Step(t, Leave(c)), k)
  {
  }

  lemma SettleCloses(t: Table, c: nat, k: nat)
    requires WellFormed(t) && Is(t, k, Proxy) && Enabled(t, Settle(c))
    ensures CloseStep(t, Settle(c), Step(t, Settle(c)), k)
  {
  }

  lemma StepCloses(t: Table, e: Event, k: nat)
    requires WellFormed(t) && Enabled(t, e) && Is(t, k, Proxy)
    ensures CloseStep(t, e, Step(t, e), k)
  {
    match e
    case Up(n, m) => if Is(t, n, Proxy) { UpstreamCloses(t, n, m, k); } else { DetachedCloses(t, n, m, k); }
    case Down(c, m) => DownstreamCloses(t, c, m, k);
    case Connect => GrowthCloses(t, e, k);
    case Create(_) => GrowthCloses(t, e, k);
    case Identify(_, _) => GrowthCloses(t, e, k);
    case Die(_) => GrowthCloses(t, e, k);
    case Dispose(c) => ReleaseCloses(t, e, c, k);
    case Reap(c) => ReleaseCloses(t, e, c, k);
    case Leave(c) => LeaveCloses(t, c, k);
    case Settle(c) => SettleCloses(t, c, k);
  }

  lemma {:induction false} NextGrows(ts: seq<Table>, es: seq<Event>, i: nat, j: nat)
    requires Run(ts, es) && i <= j <= |es|
    ensures ts[i].next <= ts[j].next
    decreases j - i
  {
    if i < j {
      assert Goes(ts, es, i);
      StepFollows(ts[i], es[i], 0);
      NextGrows(ts, es, i + 1, j);
    }
  }

  /** A CLOSE for slot k from the server (up) or from a client. */
  predicate Closes(t: Table, e: Event, k: nat, up: bool) {
    if up then ClosesUp(e, k) else ClosesDown(t, e, k)
  }

  predicate Flag(x: Chan, up: bool) { if up then x.closeRcvd else x.closeSent }

  /** The proxy at address x, in slot k, with one of its CLOSE flags. */
  predicate Flagged(t: Table, k: nat, x: nat, up: bool, f: bool) {
    Holds(t, k, x) && t.slots[k].value.kind == Proxy && Flag(t.slots[k].value, up) == f
  }

  lemma FlagBefore(t: Table, e: Event, k: nat, x: nat, up: bool, f: bool)
    requires WellFormed(t) && Enabled(t, e) && x < t.next && Flagged(Step(t, e), k, x, up, f)
    ensures if f && !Closes(t, e, k, up) then Flagged(t, k, x, up, true)
            else if f then Flagged(t, k, x, up, true) || Flagged(t, k, x, up, false)
            else Flagged(t, k, x, up, false) && !Closes(t, e, k, up)
  {
    StepFollows(t, e, k);
    StepCloses(t, e, k);
  }

  lemma ClearBefore(ts: seq<Table>, es: seq<Event>, n: nat, m: nat, k: nat, x: nat, up: bool)
    requires Run(ts, es) && m < |es| && n == m + 1 && x < ts[m].next && Flagged(ts[n], k, x, up, false)
    ensures Flagged(ts[m], k, x, up, false) && !Closes(ts[m], es[m], k, up)
  {
    assert Goes(ts, es, m);
    FlagBefore(ts[m], es[m], k, x, up, false);
  }

  lemma SetBefore(ts: seq<Table>, es: seq<Event>, n: nat, m: nat, k: nat, x: nat, up: bool)
    requires Run(ts, es) && m < |es| && n == m + 1 && x < ts[m].next && Flagged(ts[n], k, x, up, true)
    ensures Flagged(ts[m], k, x, up, true) || Closes(ts[m], es[m], k, up)
  {
    assert Goes(ts, es, m);
    FlagBefore(ts[m], es[m], k, x, up, true);
  }

  /** A set flag was set at the start, or by a CLOSE since. */
  lemma {:induction false} FlagHasCause(ts: seq<Table>, es: seq<Event>, i: nat, j: nat, k: nat, x: nat, up: bool)
    requires Run(ts, es) && i <= j <= |es| && x < ts[i].next && Flagged(ts[j], k, x, up, true)
    ensures Flagged(ts[i], k, x, up, true) || exists n :: i <= n < j && Closes(ts[n], es[n], k, up)
    decreases j
  {
    if i < j {
      NextGrows(ts, es, i, j - 1);
      SetBefore(ts, es, j, j - 1, k, x, up);
      if !Closes(ts[j - 1], es[j - 1], k, up) { FlagHasCause(ts, es, i, j - 1, k, x, up); }
    }
  }

  /** While a flag is clear there was no such CLOSE. */
  lemma {:induction false} ClearHasNoCause(ts: seq<Table>, es: seq<Event>, n: nat, j: nat, k: nat, x: nat, up: bool)
    requires Run(ts, es) && n < j <= |es| && x < ts[n].next && Flagged(ts[j], k, x, up, false)
    ensures !Closes(ts[n], es[n], k, up)
    decreases j
  {
    NextGrows(ts, es, n, j - 1);
    ClearBefore(ts, es, j, j - 1, k, x, up);
    if n < j - 1 { ClearHasNoCause(ts, es, n, j - 1, k, x, up); }
  }

  lemma FlagsFirst(t: Table, e: Event, d: u32, up: bool)
    requires WellFormed(t) && Enabled(t, e) && Opens(t, e, d)
    ensures Flagged(Step(t, e), FreeSlot(t.slots), t.next, up, false) && Step(t, e).next > t.next
  {
  }

  /** A CLOSE in the given direction came for slot k strictly between steps i and j. */
  ghost predicate Saw(ts: seq<Table>, es: seq<Event>, i: nat, j: nat, k: nat, up: bool)
    requires j <= |es| <= |ts|
  {
    exists n :: i < n < j && Closes(ts[n], es[n], k, up)
  }

  /** The flags of a proxy tell which CLOSEs it has seen since it was made. */
  lemma FlagsTellHistory(ts: seq<Table>, es: seq<Event>, i: nat, j: nat, d: u32, up: bool, f: bool)
    requires Run(ts, es) && i < j <= |es| && Opens(ts[i], es[i], d)
    requires Flagged(ts[j], FreeSlot(ts[i].slots), ts[i].next, up, f)
    ensures f <==> Saw(ts, es, i, j, FreeSlot(ts[i].slots), up)
  {
    var k, x := FreeSlot(ts[i].slots), ts[i].next;
    assert Goes(ts, es, i);
    FlagsFirst(ts[i], es[i], d, up);
    if f {
      FlagHasCause(ts, es, i + 1, j, k, x, up);
    } else {
      forall n | i < n < j ensures !Closes(ts[n], es[n], k, up) {
        NextGrows(ts, es, i + 1, n);
        ClearHasNoCause(ts, es, n, j, k, x, up);
      }
    }
  }

  /** In every run a proxy is freed at exactly the second of the two directions' CLOSEs. */
  lemma FreedAtSecondClose(ts: seq<Table>, es: seq<Event>, i: nat, j: nat, d: u32)
    requires Run(ts, es) && i < j < |es| && Opens(ts[i], es[i], d)
    requires Holds(ts[j], FreeSlot(ts[i].slots), ts[i].next) && Is(ts[j], FreeSlot(ts[i].slots), Proxy)
    ensures var k := FreeSlot(ts[i].slots);
            Gone(ts[j], ts[j + 1], k) <==>
              || (ClosesUp(es[j], k) && Saw(ts, es, i, j, k, false))
              || (ClosesDown(ts[j], es[j], k) && Saw(ts, es, i, j, k, true))
  {
    var k := FreeSlot(ts[i].slots);
    FlagsTellHistory(ts, es, i, j, d, true, ts[j].slots[k].value.closeRcvd);
    FlagsTellHistory(ts, es, i, j, d, false, ts[j].slots[k].value.closeSent);
    assert Goes(ts, es, j);
    StepCloses(ts[j], es[j], k);
  }

  /** A client's CLOSE for the channel in slot k, told by the remote id it names. */
  predicate NamesProxy(t: Table, e: Event, k: nat) {
    e.Down? && e.down.DownClose? && LiveAt(t.slots, k) && t.slots[k].value.remote == Some(e.down.remoteId)
  }

  ghost predicate SawNamed(ts: seq<Table>, es: seq<Event>, i: nat, j: nat, k: nat)
    requires j <= |es| <= |ts|
  {
    exists n :: i < n < j && NamesProxy(ts[n], es[n], k)
  }

  /** A proxy that is there at step j was there at every step since it was made. */
  lemma ThereSince(ts: seq<Table>, es: seq<Event>, i: nat, n: nat, j: nat, d: u32)
    requires Run(ts, es) && i < n <= j <= |es| && Opens(ts[i], es[i], d)
    requires Holds(ts[j], FreeSlot(ts[i].slots), ts[i].next)
    ensures LiveAt(ts[n].slots, FreeSlot(ts[i].slots))
  {
    assert Goes(ts, es, i);
    FlagsFirst(ts[i], es[i], d, true);
    NextGrows(ts, es, i + 1, n);
    Lineage(ts, es, n, j, FreeSlot(ts[i].slots), ts[i].next);
  }

  /** While live remote ids are unique, the client's half is the CLOSE that names the id the
      proxy has recorded. */
  lemma FreedAtRecordedClose(ts: seq<Table>, es: seq<Event>, i: nat, j: nat, d: u32)
    requires Run(ts, es) && i < j < |es| && Opens(ts[i], es[i], d)
    requires Holds(ts[j], FreeSlot(ts[i].slots), ts[i].next) && Is(ts[j], FreeSlot(ts[i].slots), Proxy)
    requires forall n :: i < n <= j ==> UniqueRemotes(ts[n].slots)
    ensures var k := FreeSlot(ts[i].slots);
            Gone(ts[j], ts[j + 1], k) <==>
              || (ClosesUp(es[j], k) && SawNamed(ts, es, i, j, k))
              || (NamesProxy(ts[j], es[j], k) && Saw(ts, es, i, j, k, true))
  {
    var k := FreeSlot(ts[i].slots);
    forall n: nat | i < n <= j ensures ClosesDown(ts[n], es[n], k) <==> NamesProxy(ts[n], es[n], k) {
      ThereSince(ts, es, i, n, j, d);
      if es[n].Down? && es[n].down.DownClose? { CloseFindsItsChannel(ts[n], es[n], k); }
    }
    assert Saw(ts, es, i, j, k, false) <==> SawNamed(ts, es, i, j, k) by {
      forall n: nat | i < n < j ensures Closes(ts[n], es[n], k, false) <==> NamesProxy(ts[n], es[n], k) {}
    }
    FreedAtSecondClose(ts, es, i, j, d);
  }

  // ---- departing clients -------------------------------------------------------------------------

  predicate PointsAt(s: Slots, k: nat, a: nat) {
    LiveAt(s, k) && s[k].value.kind == Proxy && s[k].value.ctx == Some(a)
  }

  /** Freeing a channel leaves no proxy pointing at it exactly when it is still typed as a
      mux client, or had no proxies to begin with. */
  lemma FreeDetachesExactly(t: Table, c: nat)
    requires WellFormed(t) && LiveAt(t.slots, c)
    ensures var x := t.slots[c].value;
            (forall k: nat :: !PointsAt(Free(t.slots, x), k, x.addr)) <==>
              x.kind == Client || forall k: nat :: !PointsAt(t.slots, k, x.addr)
  {
    var x := t.slots[c].value;
    if x.kind != Client {
      forall k: nat ensures PointsAt(t.slots, k, x.addr) <==> PointsAt(Free(t.slots, x), k, x.addr) {}
    }
  }

  /** The server confirms the channel of the proxy in slot k, with a payload long enough to
      hold its id. */
  predicate Confirms(e: Event, k: nat) { e.Up? && e.k == k && e.up.UpConfirm? && |e.up.payload| > 4 }

  /** The proxy at address x, in slot k, and whether its remote id is known. */
  predicate Known(t: Table, k: nat, x: nat, f: bool) {
    Holds(t, k, x) && t.slots[k].value.kind == Proxy && t.slots[k].value.remote.Some? == f
  }

  /** A CLOSE is only ever noted for a channel whose remote id is known. */
  ghost predicate CloseIsAddressed(t: Table) {
    forall k: nat :: LiveAt(t.slots, k) && t.slots[k].value.closeSent ==> t.slots[k].value.remote.Some?
  }

  lemma UpKeepsAddressed(t: Table, k: nat, m: UpMsg)
    requires WellFormed(t) && Enabled(t, Up(k, m)) && CloseIsAddressed(t)
    ensures CloseIsAddressed(Step(t, Up(k, m)))
  {
  }

  lemma DownKeepsAddressed(t: Table, c: nat, m: DownMsg)
    requires WellFormed(t) && Enabled(t, Down(c, m)) && CloseIsAddressed(t)
    ensures CloseIsAddressed(Step(t, Down(c, m)))
  {
  }

  lemma StepKeepsAddressed(t: Table, e: Event)
    requires WellFormed(t) && Enabled(t, e) && CloseIsAddressed(t)
    ensures CloseIsAddressed(Step(t, e))
  {
    match e
    case Up(k, m) => UpKeepsAddressed(t, k, m);
    case Down(c, m) => DownKeepsAddressed(t, c, m);
    case _ =>
  }

  lemma KnownBefore(t: Table, e: Event, k: nat, x: nat, f: bool)
    requires WellFormed(t) && Enabled(t, e) && x < t.next && Known(Step(t, e), k, x, f)
    ensures if f && !Confirms(e, k) then Known(t, k, x, true)
            else if f then Known(t, k, x, true) || Known(t, k, x, false)
            else Known(t, k, x, false) && !Confirms(e, k)
  {
    StepFollows(t, e, k);
    RemoteStep(t, e, k);
  }

  /** One step and what proxy k knows of its remote id. */
  predicate RemoteOk(t: Table, e: Event, u: Table, k: nat) {
    LiveAt(t.slots, k) && LiveAt(u.slots, k) && u.slots[k].value.addr == t.slots[k].value.addr ==>
      (u.slots[k].value.remote.Some? <==> t.slots[k].value.remote.Some? || Confirms(e, k))
  }

  lemma UpRemote(t: Table, n: nat, m: UpMsg, k: nat)
    requires WellFormed(t) && Enabled(t, Up(n, m)) && Is(t, k, Proxy)
    ensures RemoteOk(t, Up(n, m), Step(t, Up(n, m)), k)
  {
  }

  lemma DownRemote(t: Table, c: nat, m: DownMsg, k: nat)
    requires WellFormed(t) && Enabled(t, Down(c, m)) && Is(t, k, Proxy)
    ensures RemoteOk(t, Down(c, m), Step(t, Down(c, m)), k)
  {
  }

  lemma RemoteStep(t: Table, e: Event, k: nat)
    requires WellFormed(t) && Enabled(t, e) && Is(t, k, Proxy)
    ensures RemoteOk(t, e, Step(t, e), k)
  {
    match e
    case Up(n, m) => UpRemote(t, n, m, k);
    case Down(c, m) => DownRemote(t, c, m, k);
    case _ =>
  }

  /** The server confirmed slot k strictly between steps i and j. */
  ghost predicate Confirmed(es: seq<Event>, i: nat, j: nat, k: nat)
    requires j <= |es|
  {
    exists n :: i < n < j && Confirms(es[n], k)
  }

  lemma KnownPrevious(ts: seq<Table>, es: seq<Event>, n: nat, m: nat, k: nat, x: nat)
    requires Run(ts, es) && m < |es| && n == m + 1 && x < ts[m].next && Known(ts[n], k, x, true)
    ensures Known(ts[m], k, x, true) || Confirms(es[m], k)
  {
    assert Goes(ts, es, m);
    KnownBefore(ts[m], es[m], k, x, true);
  }

  lemma {:induction false} KnownHasCause(ts: seq<Table>, es: seq<Event>, i: nat, j: nat, k: nat, x: nat)
    requires Run(ts, es) && i <= j <= |es| && x < ts[i].next && Known(ts[j], k, x, true)
    ensures Known(ts[i], k, x, true) || exists n :: i <= n < j && Confirms(es[n], k)
    decreases j
  {
    if i < j {
      NextGrows(ts, es, i, j - 1);
      KnownPrevious(ts, es, j, j - 1, k, x);
      if !Confirms(es[j - 1], k) { KnownHasCause(ts, es, i, j - 1, k, x); }
    }
  }

  lemma {:induction false} UnknownHasNoCause(ts: seq<Table>, es: seq<Event>, n: nat, j: nat, k: nat, x: nat)
    requires Run(ts, es) && n < j <= |es| && x < ts[n].next && Known(ts[j], k, x, false)
    ensures !Confirms(es[n], k) && Known(ts[n], k, x, false)
    decreases j
  {
    NextGrows(ts, es, n, j - 1);
    assert Goes(ts, es, j - 1);
    KnownBefore(ts[j - 1], es[j - 1], k, x, false);
    if n < j - 1 { UnknownHasNoCause(ts, es, n, j - 1, k, x); }
  }

  lemma KnownFirst(t: Table, e: Event, d: u32)
    requires WellFormed(t) && Enabled(t, e) && Opens(t, e, d)
    ensures Known(Step(t, e), FreeSlot(t.slots), t.next, e.down.DownConfirm?) && Step(t, e).next > t.next
  {
  }

  /** A proxy knows its remote id exactly if its client accepted the channel, or the server
      has confirmed it since. */
  lemma RemoteTellsHistory(ts: seq<Table>, es: seq<Event>, i: nat, j: nat, d: u32, f: bool)
    requires Run(ts, es) && i < j <= |es| && Opens(ts[i], es[i], d)
    requires Known(ts[j], FreeSlot(ts[i].slots), ts[i].next, f)
    ensures f <==> es[i].down.DownConfirm? || Confirmed(es, i, j, FreeSlot(ts[i].slots))
  {
    var k, x := FreeSlot(ts[i].slots), ts[i].next;
    assert Goes(ts, es, i);
    KnownFirst(ts[i], es[i], d);
    if f {
      KnownHasCause(ts, es, i + 1, j, k, x);
    } else {
      if i + 1 < j { UnknownHasNoCause(ts, es, i + 1, j, k, x); }
      forall n | i < n < j ensures !Confirms(es[n], k) {
        NextGrows(ts, es, i + 1, n);
        UnknownHasNoCause(ts, es, n, j, k, x);
      }
    }
  }

  lemma {:induction false} RunAddressed(ts: seq<Table>, es: seq<Event>, j: nat)
    requires Run(ts, es) && j <= |es|
    ensures CloseIsAddressed(ts[j])
  {
    if j > 0 {
      RunAddressed(ts, es, j - 1);
      assert Goes(ts, es, j - 1);
      StepKeepsAddressed(ts[j - 1], es[j - 1]);
    }
  }

  /** A departing client's proxy k, right after it was cut loose. */
  lemma CutLoose(t: Table, c: nat, k: nat)
    requires WellFormed(t) && Is(t, c, Client) && PointsAt(t.slots, k, t.slots[c].value.addr)
    ensures var u := Step(t, Leave(c));
            Is(u, k, Detached) && u.slots[k].value == t.slots[k].value.(ctx := None, kind := Detached)
  {
  }

  /** A client that leaves takes the process with it exactly if the server has yet to confirm
      one of the channels it asked for: the CLOSE due for that proxy has nowhere to go. */
  lemma DepartureIsFatal(ts: seq<Table>, es: seq<Event>, i: nat, j: nat, d: u32)
    requires Run(ts, es) && i < j < |es| && Opens(ts[i], es[i], d)
    requires Holds(ts[j], FreeSlot(ts[i].slots), ts[i].next)
    requires es[j].Leave? && Is(ts[j], es[j].c, Client)
    requires PointsAt(ts[j].slots, FreeSlot(ts[i].slots), ts[j].slots[es[j].c].value.addr)
    ensures var k := FreeSlot(ts[i].slots);
            && Possible(ts[j + 1], Settle(k))
            && (Fatal(ts[j + 1], Settle(k)) <==> es[i].down.DownOpen? && !Confirmed(es, i, j, k))
  {
    var k := FreeSlot(ts[i].slots);
    RunWellFormed(ts, es, j);
    assert Goes(ts, es, j);
    CutLoose(ts[j], es[j].c, k);
    RemoteTellsHistory(ts, es, i, j, d, ts[j].slots[k].value.remote.Some?);
    RunAddressed(ts, es, j);
  }

  /** Every proxy points at a live mux client. */
  ghost predicate Linked(t: Table) {
    forall k: nat :: Is(t, k, Proxy) ==>
      exists d: nat :: Is(t, d, Client) && PointsAt(t.slots, k, t.slots[d].value.addr)
  }

  /** A client with open channels is marked dead. */
  ghost predicate Abandons(t: Table, e: Event) {
    e.Die? && Is(t, e.c, Client) && exists k: nat :: PointsAt(t.slots, k, t.slots[e.c].value.addr)
  }

  /** A client is in slot d, before and after. */
  predicate SameClient(s: Slots, r: Slots, d: nat) {
    LiveAt(s, d) && LiveAt(r, d) && s[d].value.kind == Client == r[d].value.kind && s[d].value.addr == r[d].value.addr
  }

  lemma FreeKeepsClient(t: Table, x: Chan, d: nat)
    requires Is(t, d, Client) && x.self < |t.slots| && x.self != d
    ensures SameClient(t.slots, Free(t.slots, x), d)
  {
  }

  lemma DownstreamKeepsClient(t: Table, c: nat, m: DownMsg, d: nat)
    requires WellFormed(t) && LiveAt(t.slots, c) && Is(t, d, Client)
    ensures SameClient(t.slots, Downstream(t, c, m).slots, d)
  {
    if m.DownClose? {
      var i := ByRemoteId(t.slots, m.remoteId);
      if i < |t.slots| { FreeKeepsClient(t, t.slots[i].value, d); }
    }
  }

  lemma UpstreamKeepsClient(t: Table, k: nat, m: UpMsg, d: nat)
    requires WellFormed(t) && Enabled(t, Up(k, m)) && Is(t, d, Client)
    ensures SameClient(t.slots, Step(t, Up(k, m)).slots, d)
  {
  }

  /** Slot d keeps its client unless the client leaves or dies. */
  lemma ClientStays(t: Table, e: Event, d: nat)
    requires WellFormed(t) && Enabled(t, e) && Is(t, d, Client) && e != Leave(d) && e != Die(d)
    ensures SameClient(t.slots, Step(t, e).slots, d)
  {
    match e
    case Down(c, m) => DownstreamKeepsClient(t, c, m, d);
    case Up(k, m) => UpstreamKeepsClient(t, k, m, d);
    case Dispose(c) => FreeKeepsClient(t, t.slots[c].value, d);
    case Leave(c) => FreeKeepsClient(t, t.slots[c].value, d);
    case Reap(c) => FreeKeepsClient(t, t.slots[c].value, d);
    case Settle(c) => FreeKeepsClient(t, t.slots[c].value.(closeSent := true), d);
    case _ =>
  }

  /** Slot k has a proxy for the client at address a: from before, or just opened. */
  predicate FromBefore(t: Table, e: Event, k: nat, a: nat) {
    || PointsAt(t.slots, k, a)
    || (e.Down? && Is(t, e.c, Client) && t.slots[e.c].value.addr == a)
  }

  lemma NewProxyOrigin(t: Table, c: nat, m: DownMsg, k: nat, a: nat)
    requires WellFormed(t) && Enabled(t, Down(c, m)) && !m.DownClose? && PointsAt(Downstream(t, c, m).slots, k, a)
    ensures FromBefore(t, Down(c, m), k, a)
  {
  }

  lemma ProxyOrigin(t: Table, e: Event, k: nat, a: nat)
    requires WellFormed(t) && Enabled(t, e) && PointsAt(Step(t, e).slots, k, a)
    ensures FromBefore(t, e, k, a)
  {
    match e
    case Down(c, m) => DownOrigin(t, c, m, k, a);
    case Up(n, m) => UpOrigin(t, n, m, k, a);
    case Dispose(c) => FreeOrigin(t, t.slots[c].value, k, a);
    case Leave(c) => FreeOrigin(t, t.slots[c].value, k, a);
    case Reap(c) => FreeOrigin(t, t.slots[c].value, k, a);
    case Settle(c) => SettleOrigin(t, c, k, a);
    case Connect => GrowthOrigin(t, e, k, a);
    case Create(_) => GrowthOrigin(t, e, k, a);
    case Identify(_, _) => GrowthOrigin(t, e, k, a);
    case Die(_) => GrowthOrigin(t, e, k, a);
  }

  lemma DownOrigin(t: Table, c: nat, m: DownMsg, k: nat, a: nat)
    requires WellFormed(t) && Enabled(t, Down(c, m)) && PointsAt(Step(t, Down(c, m)).slots, k, a)
    ensures FromBefore(t, Down(c, m), k, a)
  {
    if m.DownClose? { DownstreamFollows(t, c, m, k); } else { NewProxyOrigin(t, c, m, k, a); }
  }

  lemma GrowthOrigin(t: Table, e: Event, k: nat, a: nat)
    requires WellFormed(t) && Enabled(t, e) && (e.Connect? || e.Create? || e.Identify? || e.Die?)
    requires PointsAt(Step(t, e).slots, k, a)
    ensures PointsAt(t.slots, k, a)
  {
  }

  lemma FreeOrigin(t: Table, x: Chan, k: nat, a: nat)
    requires x.self < |t.slots| && PointsAt(Free(t.slots, x), k, a)
    ensures PointsAt(t.slots, k, a)
  {
  }

  lemma SettleOrigin(t: Table, c: nat, k: nat, a: nat)
    requires WellFormed(t) && Enabled(t, Settle(c)) && PointsAt(Step(t, Settle(c)).slots, k, a)
    ensures PointsAt(t.slots, k, a)
  {
  }

  lemma UpOrigin(t: Table, n: nat, m: UpMsg, k: nat, a: nat)
    requires WellFormed(t) && Enabled(t, Up(n, m)) && PointsAt(Step(t, Up(n, m)).slots, k, a)
    ensures PointsAt(t.slots, k, a)
  {
    StepFollows(t, Up(n, m), k);
  }

  lemma LeaveCuts(t: Table, c: nat, k: nat)
    requires WellFormed(t) && Is(t, c, Client)
    ensures !PointsAt(Step(t, Leave(c)).slots, k, t.slots[c].value.addr)
  {
  }

  lemma FindClient(t: Table, e: Event, k: nat, a: nat) returns (d: nat)
    requires WellFormed(t) && Linked(t) && FromBefore(t, e, k, a)
    ensures Is(t, d, Client) && t.slots[d].value.addr == a
  {
    if PointsAt(t.slots, k, a) {
      assert Is(t, k, Proxy);
      d :| Is(t, d, Client) && PointsAt(t.slots, k, t.slots[d].value.addr);
    } else {
      d := e.c;
    }
  }

  lemma ProxyStaysLinked(t: Table, e: Event, k: nat)
    requires WellFormed(t) && Enabled(t, e) && Linked(t) && !Abandons(t, e)
    requires WellFormed(Step(t, e)) && Is(Step(t, e), k, Proxy)
    ensures exists d: nat :: Is(Step(t, e), d, Client) && PointsAt(Step(t, e).slots, k, Step(t, e).slots[d].value.addr)
  {
    var u := Step(t, e);
    var a := u.slots[k].value.ctx.value;
    ProxyOrigin(t, e, k, a);
    var d := FindClient(t, e, k, a);
    if e == Leave(d) { LeaveCuts(t, d, k); }
    ClientStays(t, e, d);
    assert Is(u, d, Client) && PointsAt(u.slots, k, u.slots[d].value.addr);
  }

  /** Every step but one keeps each proxy linked to a live client. */
  lemma StepKeepsLinked(t: Table, e: Event)
    requires WellFormed(t) && Enabled(t, e) && Linked(t) && !Abandons(t, e)
    ensures Linked(Step(t, e))
  {
    StepKeepsWellFormed(t, e);
    forall k: nat | Is(Step(t, e), k, Proxy)
      ensures exists d: nat ::
                Is(Step(t, e), d, Client) && PointsAt(Step(t, e).slots, k, Step(t, e).slots[d].value.addr)
    {
      ProxyStaysLinked(t, e, k);
    }
  }

  /** So in every run where no client is marked dead while it has channels open, each proxy
      always has its client to deliver to. */
  lemma {:induction false} RunKeepsLinked(ts: seq<Table>, es: seq<Event>, j: nat, k: nat)
    requires Run(ts, es) && j <= |es| && forall n :: 0 <= n < j ==> !Abandons(ts[n], es[n])
    ensures Linked(ts[j])
    ensures Is(ts[j], k, Proxy) ==> HasClient(ts[j].slots, k)
  {
    if j > 0 {
      RunKeepsLinked(ts, es, j - 1, k);
      assert Goes(ts, es, j - 1);
      StepKeepsLinked(ts[j - 1], es[j - 1]);
    }
    if Is(ts[j], k, Proxy) {
      RunWellFormed(ts, es, j);
      LinkedHasClient(ts[j], k);
    }
  }

  lemma LinkedHasClient(t: Table, k: nat)
    requires WellFormed(t) && Linked(t) && Is(t, k, Proxy)
    ensures HasClient(t.slots, k)
  {
    var d: nat :| Is(t, d, Client) && PointsAt(t.slots, k, t.slots[d].value.addr);
    ByAddrIs(t, t.slots[d].value.addr, d);
  }

  /** The one exception: once a dead client is freed, its proxies have nobody left. */
  lemma DeadClientStrands(t: Table, c: nat, k: nat)
    requires WellFormed(t) && Is(t, c, Client) && PointsAt(t.slots, k, t.slots[c].value.addr)
    ensures WellFormed(Step(t, Die(c))) && Enabled(Step(t, Die(c)), Reap(c))
    ensures var u := Step(Step(t, Die(c)), Reap(c)); Is(u, k, Proxy) && !HasClient(u.slots, k)
  {
    StepKeepsWellFormed(t, Die(c));
    var v := Step(t, Die(c));
    var u := Step(v, Reap(c));
    var a := t.slots[c].value.addr;
    forall n: nat | LiveAt(u.slots, n) ensures LiveAt(t.slots, n) && u.slots[n].value.addr != a {}
  }

  /** A client connects and opens a channel. */
  lemma OneChannel(id: u32)
    ensures Enabled(Empty, Connect) && WellFormed(Empty)
    ensures var t := Step(Empty, Connect); WellFormed(t) && Enabled(t, Down(0, DownOpen(id)))
    ensures var u := Step(Step(Empty, Connect), Down(0, DownOpen(id)));
            && WellFormed(u) && Is(u, 0, Client) && PointsAt(u.slots, 1, u.slots[0].value.addr)
            && !u.slots[1].value.closeSent && u.slots[1].value.remote.None?
  {
    assert FreeSlot(Empty.slots) == 0;
    StepKeepsWellFormed(Empty, Connect);
    var t := Step(Empty, Connect);
    assert t.slots[0].Some? && t.slots[1].None?;
    assert t.slots[1..][0].None?;
    assert FreeSlot(t.slots) == 1;
    StepKeepsWellFormed(t, Down(0, DownOpen(id)));
  }

  /** Some run ends in t. */
  ghost predicate Reaches(t: Table) {
    exists ts: seq<Table>, es: seq<Event> :: Run(ts, es) && ts[|es|] == t
  }

  lemma ReachesEmpty()
    ensures Reaches(Empty)
  {
    var ts, es: seq<Event> := [Empty], [];
    assert Run(ts, es) && ts[|es|] == Empty;
  }

  lemma ReachesNext(t: Table, e: Event)
    requires Reaches(t) && Enabled(t, e)
    ensures WellFormed(t) && Reaches(Step(t, e))
  {
    var ts: seq<Table>, es: seq<Event> :| Run(ts, es) && ts[|es|] == t;
    RunExtends(ts, es, e);
    var ts', es' := ts + [Step(t, e)], es + [e];
    assert Run(ts', es') && ts'[|es'|] == Step(t, e);
  }

  /** A run that ends with a proxy nobody receives for: a client connects, opens a channel, is
      marked dead and freed. */
  lemma DeadClientStrandsProxies(id: u32)
    ensures exists t, k: nat :: Reaches(t) && Is(t, k, Proxy) && !HasClient(t.slots, k)
  {
    OneChannel(id);
    ReachesEmpty();
    ReachesNext(Empty, Connect);
    var t1 := Step(Empty, Connect);
    ReachesNext(t1, Down(0, DownOpen(id)));
    StrandsFrom(Step(t1, Down(0, DownOpen(id))), 0, 1);
  }

  lemma StrandsFrom(t: Table, c: nat, k: nat)
    requires Reaches(t) && WellFormed(t) && Is(t, c, Client) && PointsAt(t.slots, k, t.slots[c].value.addr)
    ensures exists u, n: nat :: Reaches(u) && Is(u, n, Proxy) && !HasClient(u.slots, n)
  {
    DeadClientStrands(t, c, k);
    ReachesNext(t, Die(c));
    var v := Step(t, Die(c));
    ReachesNext(v, Reap(c));
    assert Reaches(Step(v, Reap(c)));
  }

  /** A run that ends fatally: a client connects, asks for a channel and leaves before the
      server has answered; then the CLOSE for that channel is due. */
  lemma DepartureCanBeFatal(id: u32)
    ensures exists t, k: nat :: Reaches(t) && Possible(t, Settle(k)) && Fatal(t, Settle(k))
  {
    OneChannel(id);
    ReachesEmpty();
    ReachesNext(Empty, Connect);
    var t1 := Step(Empty, Connect);
    ReachesNext(t1, Down(0, DownOpen(id)));
    LeavesTooEarly(Step(t1, Down(0, DownOpen(id))), 0, 1);
  }

  lemma LeavesTooEarly(t: Table, c: nat, k: nat)
    requires Reaches(t) && WellFormed(t) && Is(t, c, Client) && PointsAt(t.slots, k, t.slots[c].value.addr)
    requires !t.slots[k].value.closeSent && t.slots[k].value.remote.None?
    ensures exists u, n: nat :: Reaches(u) && Possible(u, Settle(n)) && Fatal(u, Settle(n))
  {
    ReachesNext(t, Leave(c));
    CutLoose(t, c, k);
    var u := Step(t, Leave(c));
    assert Reaches(u) && Possible(u, Settle(k)) && Fatal(u, Settle(k));
  }
}
