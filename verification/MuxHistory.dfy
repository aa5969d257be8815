/** The proxy as the messages tell it: which remote id a channel has, when it goes away, and
    how many channels there can be, read off the events of a run and not off the table. */
module MuxHistory {
  import opened Ints
  import opened MuxSpec
  import opened MuxRuns
  import opened Wrappers

  // ---- the remote id is the one in the messages --------------------------------------------

  /** The server accepts the channel in slot k as its own r: the answer starts with r and
      goes on. */
  ghost predicate Answers(e: Event, k: nat, r: u32) {
    && e.Up? && e.k == k && e.up.UpConfirm?
    && exists more: seq<u8> :: more != [] && e.up.payload == PokeU32(r) + more
  }

  /** Step n gives the id r to the channel that step i opened in slot k: the client's own
      acceptance, or an answer of the server. */
  ghost predicate Told(es: seq<Event>, i: nat, n: nat, k: nat, r: u32)
    requires i <= n < |es|
  {
    if n == i then es[i].Down? && es[i].down.DownConfirm? && es[i].down.remoteId == r else Answers(es[n], k, r)
  }

  /** No answer for slot k strictly between steps n and j. */
  ghost predicate Silent(es: seq<Event>, n: nat, j: nat, k: nat)
    requires j <= |es|
  {
    forall m, q :: n < m < j ==> !Answers(es[m], k, q)
  }

  /** The last of steps i to j - 1 to give the channel an id gave it r. */
  ghost predicate LastTold(es: seq<Event>, i: nat, j: nat, k: nat, r: u32)
    requires j <= |es|
  {
    exists n :: i <= n < j && Told(es, i, n, k, r) && Silent(es, n, j, k)
  }

  lemma AnswerIs(e: Event, k: nat, r: u32)
    ensures Answers(e, k, r) <==> Confirms(e, k) && PeekU32(e.up.payload) == r
  {
    if Answers(e, k, r) {
      var more: seq<u8> :| more != [] && e.up.payload == PokeU32(r) + more;
      PeekOfPoke(r, more);
    }
    if Confirms(e, k) {
      PokeOfPeek(e.up.payload);
      assert e.up.payload[4..] != [];
    }
  }

  /** A channel of some client, whether or not that client is still there. */
  predicate Ours(x: Chan) { x.kind == Proxy || x.kind == Detached }

  predicate Persists(t: Table, u: Table, k: nat) {
    LiveAt(t.slots, k) && LiveAt(u.slots, k) && u.slots[k].value.addr == t.slots[k].value.addr
  }

  /** One step and the remote id of the channel in slot k. */
  predicate RemoteMoves(t: Table, e: Event, u: Table, k: nat) {
    Persists(t, u, k) && Ours(t.slots[k].value) ==>
      && Ours(u.slots[k].value)
      && u.slots[k].value.remote == if Confirms(e, k) then Some(PeekU32(e.up.payload)) else t.slots[k].value.remote
  }

  lemma NoteMoves(s: Slots, k: nat, n: nat, m: UpMsg)
    requires InRange(s, n) && s[n].value.self == n && Ours(s[n].value)
    requires LiveAt(s, k) && LiveAt(Note(s, n, m), k)
    ensures var x, y := s[k].value, Note(s, n, m)[k].value;
            && y.addr == x.addr && y.kind == x.kind
            && y.remote == (if Confirms(Up(n, m), k) then Some(PeekU32(m.payload)) else x.remote)
            && y.closeRcvd == (x.closeRcvd || Up(n, m) == Up(k, UpClose))
  {
  }

  lemma UpMoves(t: Table, n: nat, m: UpMsg, k: nat)
    requires WellFormed(t) && Enabled(t, Up(n, m))
    ensures RemoteMoves(t, Up(n, m), Step(t, Up(n, m)), k)
  {
    if Is(t, n, Proxy) {
      var d := ByAddr(t.slots, t.slots[n].value.ctx.value);
      var s := t.slots[d := Append(t.slots[d], Delivered(t.slots[n].value.downId, m))];
      if LiveAt(t.slots, k) && LiveAt(Note(s, n, m), k) { NoteMoves(s, k, n, m); }
    }
  }

  lemma DownMoves(t: Table, c: nat, m: DownMsg, k: nat)
    requires WellFormed(t) && Enabled(t, Down(c, m))
    ensures RemoteMoves(t, Down(c, m), Step(t, Down(c, m)), k)
  {
  }

  lemma StepMoves(t: Table, e: Event, k: nat)
    requires WellFormed(t) && Enabled(t, e)
    ensures RemoteMoves(t, e, Step(t, e), k)
  {
    match e
    case Up(n, m) => UpMoves(t, n, m, k);
    case Down(c, m) => DownMoves(t, c, m, k);
    case _ =>
  }

  /** What is known after step j - 1, from what was known before it. */
  lemma ToldSoFar(es: seq<Event>, i: nat, j: nat, k: nat, r: u32)
    requires i + 1 < j <= |es|
    ensures LastTold(es, i, j, k, r) <==>
              if Confirms(es[j - 1], k) then PeekU32(es[j - 1].up.payload) == r else LastTold(es, i, j - 1, k, r)
  {
    var e := es[j - 1];
    forall q: u32 ensures Answers(e, k, q) <==> Confirms(e, k) && PeekU32(e.up.payload) == q { AnswerIs(e, k, q); }
    if Confirms(es[j - 1], k) {
      var q := PeekU32(es[j - 1].up.payload);
      assert Answers(es[j - 1], k, q);
      if r == q { assert Told(es, i, j - 1, k, r) && Silent(es, j - 1, j, k); }
    } else {
      forall n: nat | i <= n < j - 1 ensures Silent(es, n, j, k) <==> Silent(es, n, j - 1, k) {
        if Silent(es, n, j - 1, k) {
          forall m, q | n < m < j ensures !Answers(es[m], k, q) {}
        }
      }
    }
  }

  lemma ToldAtFirst(es: seq<Event>, i: nat, k: nat, r: u32)
    requires i < |es|
    ensures LastTold(es, i, i + 1, k, r) <==> Told(es, i, i, k, r)
  {
    assert Silent(es, i, i + 1, k);
  }

  lemma FirstRemote(t: Table, e: Event, d: u32)
    requires WellFormed(t) && Enabled(t, e) && Opens(t, e, d)
    ensures var u := Step(t, e); var k := FreeSlot(t.slots);
            && Holds(u, k, t.next) && Ours(u.slots[k].value) && u.next > t.next
            && u.slots[k].value.remote == if e.down.DownConfirm? then Some(e.down.remoteId) else None
  {
  }

  /** The channel that step i opened, if it is still there at step j, was there before. */
  lemma ThereBefore(ts: seq<Table>, es: seq<Event>, i: nat, j: nat, d: u32)
    requires Run(ts, es) && i + 1 < j <= |es| && Opens(ts[i], es[i], d)
    requires Holds(ts[j], FreeSlot(ts[i].slots), ts[i].next)
    ensures Holds(ts[j - 1], FreeSlot(ts[i].slots), ts[i].next)
  {
    assert Goes(ts, es, i);
    FirstRemote(ts[i], es[i], d);
    NextGrows(ts, es, i + 1, j - 1);
    Lineage(ts, es, j - 1, j, FreeSlot(ts[i].slots), ts[i].next);
  }

  /** In every run the remote id of a proxy is the one in the messages: the one its client
      accepted it with, or the one that opens the last long enough answer since. */
  lemma {:induction false} RemoteIsLastTold(ts: seq<Table>, es: seq<Event>, i: nat, j: nat, d: u32, r: u32)
    requires Run(ts, es) && i < j <= |es| && Opens(ts[i], es[i], d)
    requires Holds(ts[j], FreeSlot(ts[i].slots), ts[i].next)
    ensures Ours(ts[j].slots[FreeSlot(ts[i].slots)].value)
    ensures ts[j].slots[FreeSlot(ts[i].slots)].value.remote == Some(r) <==>
              LastTold(es, i, j, FreeSlot(ts[i].slots), r)
    decreases j
  {
    var k := FreeSlot(ts[i].slots);
    assert Goes(ts, es, j - 1);
    if j == i + 1 {
      FirstRemote(ts[i], es[i], d);
      ToldAtFirst(es, i, k, r);
    } else {
      ThereBefore(ts, es, i, j, d);
      RemoteIsLastTold(ts, es, i, j - 1, d, r);
      RemoteNext(ts[j - 1], ts[j], es, i, j, k, r);
    }
  }

  lemma RemoteNext(t: Table, u: Table, es: seq<Event>, i: nat, j: nat, k: nat, r: u32)
    requires i + 1 < j <= |es| && WellFormed(t) && Enabled(t, es[j - 1]) && u == Step(t, es[j - 1])
    requires Persists(t, u, k) && Ours(t.slots[k].value)
    requires t.slots[k].value.remote == Some(r) <==> LastTold(es, i, j - 1, k, r)
    ensures Ours(u.slots[k].value)
    ensures u.slots[k].value.remote == Some(r) <==> LastTold(es, i, j, k, r)
  {
    StepMoves(t, es[j - 1], k);
    ToldSoFar(es, i, j, k, r);
  }

  /** Step n is a client's CLOSE, and the id it names is the one last told for the channel
      that step i opened in slot k. */
  ghost predicate ClosesTold(es: seq<Event>, i: nat, n: nat, k: nat)
    requires n < |es|
  {
    es[n].Down? && es[n].down.DownClose? && LastTold(es, i, n, k, es[n].down.remoteId)
  }

  ghost predicate SawTold(es: seq<Event>, i: nat, j: nat, k: nat)
    requires j <= |es|
  {
    exists n :: i < n < j && ClosesTold(es, i, n, k)
  }

  lemma NamedIsTold(ts: seq<Table>, es: seq<Event>, i: nat, n: nat, j: nat, d: u32)
    requires Run(ts, es) && i < n <= j < |es| && Opens(ts[i], es[i], d)
    requires Holds(ts[j], FreeSlot(ts[i].slots), ts[i].next)
    ensures var k := FreeSlot(ts[i].slots); NamesProxy(ts[n], es[n], k) <==> ClosesTold(es, i, n, k)
    decreases j
  {
    if n < j {
      ThereBefore(ts, es, i, j, d);
      NamedIsTold(ts, es, i, n, j - 1, d);
    } else if es[n].Down? && es[n].down.DownClose? {
      RemoteIsLastTold(ts, es, i, n, d, es[n].down.remoteId);
    }
  }

  /** While live remote ids are unique, a proxy is freed at exactly the second of two CLOSEs:
      the server's for its slot, and a client's that names the id the messages gave it. */
  lemma FreedAtSecondNamedClose(ts: seq<Table>, es: seq<Event>, i: nat, j: nat, d: u32)
    requires Run(ts, es) && i < j < |es| && Opens(ts[i], es[i], d)
    requires Holds(ts[j], FreeSlot(ts[i].slots), ts[i].next) && Is(ts[j], FreeSlot(ts[i].slots), Proxy)
    requires forall n :: i < n <= j ==> UniqueRemotes(ts[n].slots)
    ensures var k := FreeSlot(ts[i].slots);
            Gone(ts[j], ts[j + 1], k) <==>
              || (es[j] == Up(k, UpClose) && SawTold(es, i, j, k))
              || (ClosesTold(es, i, j, k) && exists n :: i < n < j && es[n] == Up(k, UpClose))
  {
    var k := FreeSlot(ts[i].slots);
    forall n: nat | i < n <= j ensures NamesProxy(ts[n], es[n], k) <==> ClosesTold(es, i, n, k) {
      NamedIsTold(ts, es, i, n, j, d);
    }
    assert SawNamed(ts, es, i, j, k) <==> SawTold(es, i, j, k);
    assert Saw(ts, es, i, j, k, true) <==> exists n :: i < n < j && es[n] == Up(k, UpClose) by {
      forall n: nat | i < n < j ensures Closes(ts[n], es[n], k, true) <==> es[n] == Up(k, UpClose) {}
    }
    FreedAtRecordedClose(ts, es, i, j, d);
  }

  // ---- channels whose client has left ------------------------------------------------------

  ghost predicate ServerClosed(es: seq<Event>, i: nat, j: nat, k: nat)
    requires j <= |es|
  {
    exists n :: i < n < j && es[n] == Up(k, UpClose)
  }

  /** One step and the received CLOSE of the channel in slot k. */
  predicate RcvdMoves(t: Table, e: Event, u: Table, k: nat) {
    Persists(t, u, k) && Ours(t.slots[k].value) ==>
      Ours(u.slots[k].value) && u.slots[k].value.closeRcvd == (t.slots[k].value.closeRcvd || e == Up(k, UpClose))
  }

  lemma UpRcvd(t: Table, n: nat, m: UpMsg, k: nat)
    requires WellFormed(t) && Enabled(t, Up(n, m))
    ensures RcvdMoves(t, Up(n, m), Step(t, Up(n, m)), k)
  {
    if Is(t, n, Proxy) {
      var d := ByAddr(t.slots, t.slots[n].value.ctx.value);
      var s := t.slots[d := Append(t.slots[d], Delivered(t.slots[n].value.downId, m))];
      if LiveAt(t.slots, k) && LiveAt(Note(s, n, m), k) { NoteMoves(s, k, n, m); }
    }
  }

  lemma DownRcvd(t: Table, c: nat, m: DownMsg, k: nat)
    requires WellFormed(t) && Enabled(t, Down(c, m))
    ensures RcvdMoves(t, Down(c, m), Step(t, Down(c, m)), k)
  {
  }

  lemma StepRcvd(t: Table, e: Event, k: nat)
    requires WellFormed(t) && Enabled(t, e)
    ensures RcvdMoves(t, e, Step(t, e), k)
  {
    match e
    case Up(n, m) => UpRcvd(t, n, m, k);
    case Down(c, m) => DownRcvd(t, c, m, k);
    case _ =>
  }

  lemma ClosedSoFar(es: seq<Event>, i: nat, j: nat, k: nat)
    requires i + 1 < j <= |es|
    ensures ServerClosed(es, i, j, k) <==> ServerClosed(es, i, j - 1, k) || es[j - 1] == Up(k, UpClose)
  {
  }

  lemma {:induction false} RcvdIsClosed(ts: seq<Table>, es: seq<Event>, i: nat, j: nat, d: u32)
    requires Run(ts, es) && i < j <= |es| && Opens(ts[i], es[i], d)
    requires Holds(ts[j], FreeSlot(ts[i].slots), ts[i].next)
    ensures Ours(ts[j].slots[FreeSlot(ts[i].slots)].value)
    ensures ts[j].slots[FreeSlot(ts[i].slots)].value.closeRcvd <==> ServerClosed(es, i, j, FreeSlot(ts[i].slots))
    decreases j
  {
    var k := FreeSlot(ts[i].slots);
    assert Goes(ts, es, j - 1);
    if j == i + 1 {
      FirstRemote(ts[i], es[i], d);
      FlagsFirst(ts[i], es[i], d, true);
    } else {
      ThereBefore(ts, es, i, j, d);
      RcvdIsClosed(ts, es, i, j - 1, d);
      RcvdNext(ts[j - 1], ts[j], es, i, j, k);
    }
  }

  lemma RcvdNext(t: Table, u: Table, es: seq<Event>, i: nat, j: nat, k: nat)
    requires i + 1 < j <= |es| && WellFormed(t) && Enabled(t, es[j - 1]) && u == Step(t, es[j - 1])
    requires Persists(t, u, k) && Ours(t.slots[k].value)
    requires t.slots[k].value.closeRcvd <==> ServerClosed(es, i, j - 1, k)
    ensures Ours(u.slots[k].value)
    ensures u.slots[k].value.closeRcvd <==> ServerClosed(es, i, j, k)
  {
    StepRcvd(t, es[j - 1], k);
    ClosedSoFar(es, i, j, k);
  }

  /** What ends the channel in slot k once its client has left. */
  predicate EndsDetached(t: Table, e: Event, u: Table, k: nat)
    requires LiveAt(t.slots, k)
  {
    Gone(t, u, k) <==> (e == Settle(k) || ClosesDown(t, e, k)) && t.slots[k].value.closeRcvd
  }

  lemma UpEnds(t: Table, n: nat, m: UpMsg, k: nat)
    requires WellFormed(t) && Enabled(t, Up(n, m)) && Is(t, k, Detached)
    ensures EndsDetached(t, Up(n, m), Step(t, Up(n, m)), k)
  {
  }

  lemma DownEnds(t: Table, c: nat, m: DownMsg, k: nat)
    requires WellFormed(t) && Enabled(t, Down(c, m)) && Is(t, k, Detached)
    ensures EndsDetached(t, Down(c, m), Step(t, Down(c, m)), k)
  {
  }

  lemma SettleEnds(t: Table, c: nat, k: nat)
    requires WellFormed(t) && Enabled(t, Settle(c)) && Is(t, k, Detached)
    ensures EndsDetached(t, Settle(c), Step(t, Settle(c)), k)
  {
  }

  lemma ReleaseEnds(t: Table, e: Event, c: nat, k: nat)
    requires WellFormed(t) && Enabled(t, e) && Is(t, k, Detached)
    requires e == Dispose(c) || e == Reap(c) || e == Leave(c)
    ensures EndsDetached(t, e, Step(t, e), k)
  {
  }

  lemma DetachedGone(t: Table, e: Event, k: nat)
    requires WellFormed(t) && Enabled(t, e) && Is(t, k, Detached)
    ensures EndsDetached(t, e, Step(t, e), k)
  {
    match e
    case Up(n, m) => UpEnds(t, n, m, k);
    case Down(c, m) => DownEnds(t, c, m, k);
    case Settle(c) => SettleEnds(t, c, k);
    case Dispose(c) => ReleaseEnds(t, e, c, k);
    case Reap(c) => ReleaseEnds(t, e, c, k);
    case Leave(c) => ReleaseEnds(t, e, c, k);
    case _ =>
  }

  /** A channel whose client has left is freed at exactly the first collection, or the first
      client's CLOSE found to be for it, that follows the server's CLOSE. */
  lemma FreedAfterDeparture(ts: seq<Table>, es: seq<Event>, i: nat, j: nat, d: u32)
    requires Run(ts, es) && i < j < |es| && Opens(ts[i], es[i], d)
    requires Holds(ts[j], FreeSlot(ts[i].slots), ts[i].next) && Is(ts[j], FreeSlot(ts[i].slots), Detached)
    ensures var k := FreeSlot(ts[i].slots);
            Gone(ts[j], ts[j + 1], k) <==>
              (es[j] == Settle(k) || ClosesDown(ts[j], es[j], k)) && ServerClosed(es, i, j, k)
  {
    assert Goes(ts, es, j);
    RcvdIsClosed(ts, es, i, j, d);
    DetachedGone(ts[j], es[j], FreeSlot(ts[i].slots));
  }

  // ---- how many channels there can be ------------------------------------------------------

  predicate Full(s: Slots) { forall i :: 0 <= i < |s| ==> s[i].Some? }

  lemma {:induction false} FreeSlotIsFirst(s: Slots)
    ensures FreeSlot(s) == |s| <==> Full(s)
    ensures Full(s[..FreeSlot(s)])
  {
    if s != [] && s[0].Some? {
      FreeSlotIsFirst(s[1..]);
      var n := FreeSlot(s[1..]);
      assert forall i :: 0 < i < |s| ==> s[i] == s[1..][i - 1];
      assert s[1..][..n] == s[1..n + 1];
      forall i | 0 <= i < n + 1 ensures s[i].Some? {
        if i > 0 { assert s[1..][..n][i - 1].Some?; }
      }
    }
  }

  /** The table after a step: as long as before, or ten slots longer for want of a free one. */
  predicate Grows(t: Table, u: Table) {
    || |u.slots| == |t.slots|
    || (Full(t.slots) && |t.slots| <= 16384 && |u.slots| == |t.slots| + 10)
  }

  lemma NewGrows(t: Table, kind: Kind, remote: Option<u32>, ctx: Option<nat>, downId: u32)
    requires CanNew(t)
    ensures Grows(t, New(t, kind, remote, ctx, downId))
  {
    FreeSlotIsFirst(t.slots);
  }

  lemma DownGrows(t: Table, c: nat, m: DownMsg)
    requires WellFormed(t) && Enabled(t, Down(c, m))
    ensures Grows(t, Step(t, Down(c, m)))
  {
    var a := t.slots[c].value.addr;
    match m
    case DownOpen(id) => NewGrows(t, Proxy, None, Some(a), id);
    case DownConfirm(r, id) => NewGrows(t, Proxy, Some(r), Some(a), id);
    case _ =>
  }

  lemma StepGrows(t: Table, e: Event)
    requires WellFormed(t) && Enabled(t, e)
    ensures Grows(t, Step(t, e))
  {
    match e
    case Connect => NewGrows(t, Client, None, None, 0);
    case Create(r) => NewGrows(t, Other, r, None, 0);
    case Down(c, m) => DownGrows(t, c, m);
    case _ =>
  }

  lemma {:induction false} RunSize(ts: seq<Table>, es: seq<Event>, j: nat)
    requires Run(ts, es) && j <= |es|
    ensures |ts[j].slots| % 10 == 0 && |ts[j].slots| <= 16390
  {
    if j > 0 {
      RunSize(ts, es, j - 1);
      assert Goes(ts, es, j - 1);
      StepGrows(ts[j - 1], es[j - 1]);
    }
  }

  /** The step makes a new channel. */
  predicate Makes(e: Event) { e.Connect? || e.Create? || (e.Down? && (e.down.DownOpen? || e.down.DownConfirm?)) }

  /** In every run a new channel is refused exactly if there are 16390 live ones already. */
  lemma RefusedWhenFull(ts: seq<Table>, es: seq<Event>, j: nat, e: Event)
    requires Run(ts, es) && j <= |es| && Makes(e) && Possible(ts[j], e)
    ensures Fatal(ts[j], e) <==> |ts[j].slots| == 16390 && Full(ts[j].slots)
    ensures |ts[j].slots| <= 16390
  {
    RunSize(ts, es, j);
    FreeSlotIsFirst(ts[j].slots);
  }

  // ---- the life of one channel ---------------------------------------------------------------

  /** The channel of slot 1 belongs to the client of slot 0, and nothing else is there. */
  predicate Alone(t: Table, id: u32, remote: Option<u32>, closed: bool, mail: seq<Delivered>) {
    && |t.slots| == 10 && t.next == 2 && (forall i :: 2 <= i < 10 ==> t.slots[i].None?)
    && t.slots[0] == Some(Chan(0, 0, Client, None, None, 0, false, false, mail))
    && t.slots[1] == Some(Chan(1, 1, Proxy, remote, Some(0), id, closed, false, []))
  }

  /** Some run gets there. */
  ghost predicate Stage(id: u32, remote: Option<u32>, closed: bool, mail: seq<Delivered>) {
    exists t :: Reaches(t) && WellFormed(t) && Alone(t, id, remote, closed, mail)
  }

  lemma OpensAlone(id: u32)
    ensures Stage(id, None, false, [])
  {
    OneChannel(id);
    ReachesEmpty();
    ReachesNext(Empty, Connect);
    var t := Step(Empty, Connect);
    ReachesNext(t, Down(0, DownOpen(id)));
    assert t.slots[1..][0].None?;
    assert Alone(Step(t, Down(0, DownOpen(id))), id, None, false, []);
  }

  lemma AnswerAlone(t: Table, id: u32, r: u32, more: seq<u8>)
    requires WellFormed(t) && Alone(t, id, None, false, []) && more != []
    ensures var e := Up(1, UpConfirm(PokeU32(r) + more));
            Enabled(t, e) && Alone(Step(t, e), id, Some(r), false, [Delivered(id, e.up)])
  {
    var p := PokeU32(r) + more;
    assert |p| > 4 && PeekU32(p) == r by { PeekOfPoke(r, more); }
    var d := Delivered(id, UpConfirm(p));
    assert ByAddr(t.slots, 0) == 0;
    var u := Step(t, Up(1, UpConfirm(p)));
    assert u.slots == Upstream(t.slots, 1, 0, UpConfirm(p));
    assert u.slots[1].value.remote == Some(r);
    assert u.slots[0].value.output == [d];
    assert Alone(u, id, Some(r), false, [d]);
  }

  lemma CloseAlone(t: Table, id: u32, r: u32, mail: seq<Delivered>)
    requires WellFormed(t) && Alone(t, id, Some(r), false, mail)
    ensures Enabled(t, Down(0, DownClose(r))) && Alone(Step(t, Down(0, DownClose(r))), id, Some(r), true, mail)
  {
    ByRemoteFirst(t.slots, r, 1);
    assert ByRemoteId(t.slots, r) == 1;
  }

  lemma EndAlone(t: Table, id: u32, r: u32, mail: seq<Delivered>)
    requires WellFormed(t) && Alone(t, id, Some(r), true, mail)
    ensures var u := Step(t, Up(1, UpClose));
            && Enabled(t, Up(1, UpClose)) && |u.slots| == 10 && (forall i :: 1 <= i < 10 ==> u.slots[i].None?)
            && Is(u, 0, Client) && u.slots[0].value.output == mail + [Delivered(id, UpClose)]
  {
    assert ByAddr(t.slots, 0) == 0;
  }

  /** Nothing is left but the client of slot 0, with this mail. */
  predicate OnlyClient(t: Table, mail: seq<Delivered>) {
    && |t.slots| == 10 && (forall i :: 1 <= i < 10 ==> t.slots[i].None?)
    && Is(t, 0, Client) && t.slots[0].value.output == mail
  }

  lemma StageNext(t: Table, e: Event, id: u32, remote: Option<u32>, closed: bool, mail: seq<Delivered>)
    requires Reaches(t) && WellFormed(t) && Enabled(t, e) && Alone(Step(t, e), id, remote, closed, mail)
    ensures Stage(id, remote, closed, mail)
  {
    ReachesNext(t, e);
    StepKeepsWellFormed(t, e);
  }

  lemma StageAnswer(id: u32, r: u32, more: seq<u8>)
    requires more != []
    ensures Stage(id, Some(r), false, [Delivered(id, UpConfirm(PokeU32(r) + more))])
  {
    OpensAlone(id);
    var t :| Reaches(t) && WellFormed(t) && Alone(t, id, None, false, []);
    AnswerAlone(t, id, r, more);
    var m := UpConfirm(PokeU32(r) + more);
    StageNext(t, Up(1, m), id, Some(r), false, [Delivered(id, m)]);
  }

  lemma StageClose(id: u32, r: u32, mail: seq<Delivered>)
    requires Stage(id, Some(r), false, mail)
    ensures Stage(id, Some(r), true, mail)
  {
    var t :| Reaches(t) && WellFormed(t) && Alone(t, id, Some(r), false, mail);
    CloseAlone(t, id, r, mail);
    StageNext(t, Down(0, DownClose(r)), id, Some(r), true, mail);
  }

  /** Some run gives every channel this life: a client opens it under its own id, the server
      accepts it as r, the client closes r, the server closes it; then the slot is free, and
      the client has received the two messages of the server under its own id. */
  lemma OneChannelLife(id: u32, r: u32, more: seq<u8>)
    requires more != []
    ensures exists t :: Reaches(t)
                        && OnlyClient(t, [Delivered(id, UpConfirm(PokeU32(r) + more)), Delivered(id, UpClose)])
  {
    var mail := [Delivered(id, UpConfirm(PokeU32(r) + more))];
    StageAnswer(id, r, more);
    StageClose(id, r, mail);
    var t :| Reaches(t) && WellFormed(t) && Alone(t, id, Some(r), true, mail);
    EndAlone(t, id, r, mail);
    ReachesNext(t, Up(1, UpClose));
    assert mail + [Delivered(id, UpClose)] == [mail[0], Delivered(id, UpClose)];
    assert OnlyClient(Step(t, Up(1, UpClose)), [mail[0], Delivered(id, UpClose)]);
  }
}
