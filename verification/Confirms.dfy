/** The client's queue of global requests awaiting a reply (section 4 of RFC 4254): runs of
    equal callbacks are kept once, with a count. */
module ConfirmSpec {
  import opened Ints
  import opened Wrappers

  /** A callback and its context; a keepalive registers no callback. */
  datatype Confirm = Confirm(cb: Option<nat>, ctx: nat)

  const PLACEHOLDER := Confirm(None, 0)

  datatype Entry = Entry(c: Confirm, refCount: int)

  function Repeat(c: Confirm, n: nat): (s: seq<Confirm>)
    ensures |s| == n && forall i :: 0 <= i < n ==> s[i] == c
  {
    if n == 0 then [] else [c] + Repeat(c, n - 1)
  }

  /** Counts stay positive and below the fatal limit, and neighbours differ. */
  ghost predicate Valid(q: seq<Entry>) {
    && (forall i :: 0 <= i < |q| ==> 1 <= q[i].refCount < INT_MAX)
    && (forall i :: 0 < i < |q| ==> q[i - 1].c != q[i].c)
  }

  /** The plain first-in first-out queue that is meant. */
  ghost function Fifo(q: seq<Entry>): seq<Confirm>
    requires Valid(q)
  {
    if q == [] then [] else Repeat(q[0].c, q[0].refCount) + Fifo(q[1..])
  }

  /** One more registration; None is the fatal exit. */
  function Register(q: seq<Entry>, c: Confirm): Option<seq<Entry>> {
    if q != [] && q[|q| - 1].c == c then
      var n := q[|q| - 1].refCount + 1;
      if n >= INT_MAX then None else Some(q[|q| - 1 := Entry(c, n)])
    else Some(q + [Entry(c, 1)])
  }

  function RegisterAll(q: seq<Entry>, cs: seq<Confirm>): (r: Option<seq<Entry>>)
    ensures r.Some? && q != [] ==> r.value != []
    decreases |cs|
  {
    if cs == [] then Some(q)
    else var q' := Register(q, cs[0]); if q'.None? then None else RegisterAll(q'.value, cs[1..])
  }

  /** After the callback of the first entry: one reference less. */
  function Unref(q: seq<Entry>): seq<Entry>
    requires q != []
  {
    var n := q[0].refCount - 1;
    if n <= 0 then q[1..] else q[0 := q[0].(refCount := n)]
  }

  /** A reply: the first entry's callback, if it has one, may register `cs`; then its count
      drops. A reply nobody waits for is ignored. */
  function Reply(q: seq<Entry>, cs: seq<Confirm>): Option<seq<Entry>> {
    if q == [] then Some(q)
    else
      var q' := RegisterAll(q, if q[0].c.cb.Some? then cs else []);
      if q'.None? then None else Some(Unref(q'.value))
  }

  // ---- runs -------------------------------------------------------------------------------

  datatype Event = Registered(c: Confirm) | Keepalive | Replied(cs: seq<Confirm>)

  /** The queue, everything registered so far, and what each answered reply stood for. */
  datatype State = State(q: seq<Entry>, registered: seq<Confirm>, answered: seq<Confirm>)

  function Step(s: State, e: Event): Option<State> {
    match e
    case Registered(c) => Note(Register(s.q, c), s.registered + [c], s.answered)
    case Keepalive => Note(Register(s.q, PLACEHOLDER), s.registered + [PLACEHOLDER], s.answered)
    case Replied(cs) =>
      if s.q == [] then Some(s)
      else Note(Reply(s.q, cs), s.registered + if s.q[0].c.cb.Some? then cs else [], s.answered + [s.q[0].c])
  }

  function Note(q: Option<seq<Entry>>, registered: seq<Confirm>, answered: seq<Confirm>): Option<State> {
    if q.None? then None else Some(State(q.value, registered, answered))
  }

  function Run(s: State, es: seq<Event>): Option<State>
    decreases |es|
  {
    if es == [] then Some(s)
    else var s' := Step(s, es[0]); if s'.None? then None else Run(s'.value, es[1..])
  }
}

module ConfirmRuns {
  import opened Ints
  import opened ConfirmSpec

  lemma {:induction false} RepeatMore(c: Confirm, n: nat)
    ensures Repeat(c, n + 1) == Repeat(c, n) + [c]
  {
    if n > 0 { RepeatMore(c, n - 1); }
  }

  lemma ValidTail(q: seq<Entry>)
    requires Valid(q) && q != []
    ensures Valid(q[1..])
  {
    forall i | 0 < i < |q| - 1 ensures q[1..][i - 1].c != q[1..][i].c {
      assert q[i].c != q[i + 1].c;
    }
  }

  /** A registration goes to the end; it is fatal exactly when it would make a run of
      INT_MAX equal registrations. */
  lemma {:induction false} RegisterAppends(q: seq<Entry>, c: Confirm)
    requires Valid(q)
    ensures Register(q, c).None? <==> q != [] && q[|q| - 1] == Entry(c, INT_MAX - 1)
    ensures Register(q, c).Some? ==> var q' := Register(q, c).value;
              Valid(q') && q' != [] && Fifo(q') == Fifo(q) + [c] && (q != [] ==> q'[0].c == q[0].c)
    decreases |q|
  {
    if Register(q, c).Some? {
      var q' := Register(q, c).value;
      if q == [] {
        assert Fifo(q') == Repeat(c, 1) + Fifo(q'[1..]);
      } else if |q| == 1 && q[0].c == c {
        RepeatMore(c, q[0].refCount);
        assert q'[1..] == q[1..];
      } else {
        ValidTail(q);
        RegisterAppends(q[1..], c);
        assert q'[1..] == Register(q[1..], c).value;
        RegisterKeeps(q, c);
      }
    }
  }

  lemma RegisterKeeps(q: seq<Entry>, c: Confirm)
    requires Valid(q) && Register(q, c).Some?
    ensures Valid(Register(q, c).value)
  {
    var q' := Register(q, c).value;
    forall i | 0 < i < |q'| ensures q'[i - 1].c != q'[i].c {
      if i < |q| { assert q[i - 1].c != q[i].c; }
    }
  }

  lemma {:induction false} RegisterAllAppends(q: seq<Entry>, cs: seq<Confirm>)
    requires Valid(q) && RegisterAll(q, cs).Some?
    ensures var q' := RegisterAll(q, cs).value;
            Valid(q') && Fifo(q') == Fifo(q) + cs && (q != [] ==> q' != [] && q'[0].c == q[0].c)
    decreases |cs|
  {
    if cs != [] {
      RegisterAppends(q, cs[0]);
      RegisterAllAppends(Register(q, cs[0]).value, cs[1..]);
      assert Fifo(q) + [cs[0]] + cs[1..] == Fifo(q) + cs;
    }
  }

  lemma {:induction false} OneFewer(c: Confirm, n: nat, rest: seq<Confirm>)
    ensures Repeat(c, n + 1) + rest == [c] + (Repeat(c, n) + rest)
  {
    assert [c] + Repeat(c, n) + rest == [c] + (Repeat(c, n) + rest);
  }

  /** Dropping a reference removes the front of the queue. */
  lemma {:induction false} UnrefDequeues(q: seq<Entry>)
    requires Valid(q) && q != []
    ensures Valid(Unref(q)) && Fifo(q) == [q[0].c] + Fifo(Unref(q))
  {
    ValidTail(q);
    var n := q[0].refCount - 1;
    var q' := Unref(q);
    if n > 0 {
      forall i | 0 < i < |q'| ensures q'[i - 1].c != q'[i].c { assert q[i - 1].c != q[i].c; }
      assert q'[1..] == q[1..];
      OneFewer(q[0].c, n, Fifo(q[1..]));
    } else {
      assert Repeat(q[0].c, 1) == [q[0].c];
    }
  }

  ghost predicate Inv(s: State) {
    Valid(s.q) && s.registered == s.answered + Fifo(s.q)
  }

  lemma Moves(answered: seq<Confirm>, fifo: seq<Confirm>, more: seq<Confirm>, c: Confirm, rest: seq<Confirm>)
    requires fifo + more == [c] + rest
    ensures answered + fifo + more == answered + [c] + rest
  {
    assert answered + fifo + more == answered + (fifo + more);
    assert answered + ([c] + rest) == answered + [c] + rest;
  }

  lemma ReplyKeepsInv(s: State, cs: seq<Confirm>)
    requires Inv(s) && Step(s, Replied(cs)).Some?
    ensures Inv(Step(s, Replied(cs)).value)
  {
    if s.q != [] {
      var more := if s.q[0].c.cb.Some? then cs else [];
      RegisterAllAppends(s.q, more);
      var q' := RegisterAll(s.q, more).value;
      UnrefDequeues(q');
      Moves(s.answered, Fifo(s.q), more, s.q[0].c, Fifo(Unref(q')));
    }
  }

  lemma StepKeepsInv(s: State, e: Event)
    requires Inv(s) && Step(s, e).Some?
    ensures Inv(Step(s, e).value)
  {
    match e
    case Registered(c) => RegisterAppends(s.q, c);
    case Keepalive => RegisterAppends(s.q, PLACEHOLDER);
    case Replied(cs) => ReplyKeepsInv(s, cs);
  }

  /** Over every run that does not end fatally, replies are matched to registrations in
      order: the k-th answered reply stands for the k-th registration, those made inside a
      callback and keepalive placeholders included, and what is still queued is exactly what
      is still unanswered. */
  lemma {:induction false} RepliesInOrder(s: State, es: seq<Event>)
    requires Inv(s) && Run(s, es).Some?
    ensures Inv(Run(s, es).value)
    decreases |es|
  {
    if es != [] {
      StepKeepsInv(s, es[0]);
      RepliesInOrder(Step(s, es[0]).value, es[1..]);
    }
  }

  lemma {:induction false} KthReply(es: seq<Event>, k: nat)
    requires Run(State([], [], []), es).Some? && k < |Run(State([], [], []), es).value.answered|
    ensures var s := Run(State([], [], []), es).value;
            k < |s.registered| && s.answered[k] == s.registered[k]
  {
    RepliesInOrder(State([], [], []), es);
  }

  // ---- the counts are forced -----------------------------------------------------------------

  lemma {:induction false} FirstRun(q: seq<Entry>)
    requires Valid(q) && q != []
    ensures Fifo(q)[..q[0].refCount] == Repeat(q[0].c, q[0].refCount)
    ensures q[0].refCount < |Fifo(q)| ==> Fifo(q)[q[0].refCount] != q[0].c
    ensures q[0].refCount <= |Fifo(q)| && Fifo(q)[q[0].refCount..] == Fifo(q[1..])
  {
    ValidTail(q);
    if |q| > 1 { assert q[0].c != q[1].c; }
  }

  /** The compressed queue is determined by the plain one: its entries are the maximal runs
      of equal registrations. */
  lemma {:induction false} Canonical(p: seq<Entry>, q: seq<Entry>)
    requires Valid(p) && Valid(q) && Fifo(p) == Fifo(q)
    ensures p == q
    decreases |p|
  {
    if p != [] && q != [] {
      FirstRun(p);
      FirstRun(q);
      assert Fifo(p)[0] == p[0].c == q[0].c;
      assert p[0].refCount == q[0].refCount;
      ValidTail(p);
      ValidTail(q);
      Canonical(p[1..], q[1..]);
      assert p == [p[0]] + p[1..] && q == [q[0]] + q[1..];
    }
  }
}

/** The queue as the client keeps it, changed in place. */
module ConfirmObject {
  import opened Ints
  import opened Wrappers
  import opened ConfirmSpec
  import opened ConfirmRuns

  const Start := State([], [], [])

  datatype Ending = Finished | GaveUp | Fatal

  lemma {:induction false} RunSnoc(s: State, es: seq<Event>, e: Event)
    requires Run(s, es).Some?
    ensures Run(s, es + [e]) == Step(Run(s, es).value, e)
    decreases |es|
  {
    if es == [] {
      assert es + [e] == [e] && [e][1..] == [];
    } else {
      assert (es + [e])[1..] == es[1..] + [e];
      RunSnoc(Step(s, es[0]).value, es[1..], e);
    }
  }

  lemma {:induction false} RunNext(es: seq<Event>, n: nat, s: State, t: State)
    requires n < |es| && Run(Start, es[..n]) == Some(s) && Step(s, es[n]) == Some(t)
    ensures Run(Start, es[..n + 1]) == Some(t)
  {
    RunSnoc(Start, es[..n], es[n]);
    assert es[..n + 1] == es[..n] + [es[n]];
  }

  lemma {:induction false} InOrder(es: seq<Event>, s: State)
    requires Run(Start, es) == Some(s)
    ensures Valid(s.q) && s.registered == s.answered + Fifo(s.q) && s.answered <= s.registered
  {
    RepliesInOrder(Start, es);
  }

  class Client {
    var confirms: seq<Entry>
    var aliveTimeouts: nat

    constructor ()
      ensures confirms == [] && aliveTimeouts == 0
    {
      confirms, aliveTimeouts := [], 0;
    }

    /** client_register_global_confirm. */
    method RegisterGlobalConfirm(c: Confirm) returns (fatal: bool)
      requires Valid(confirms)
      modifies `confirms
      ensures fatal == Register(old(confirms), c).None?
      ensures !fatal ==> && Some(confirms) == Register(old(confirms), c)
                         && Valid(confirms) && Fifo(confirms) == Fifo(old(confirms)) + [c]
    {
      RegisterAppends(confirms, c);
      fatal := false;
      if confirms != [] && confirms[|confirms| - 1].c == c {
        var last := |confirms| - 1;
        confirms := confirms[last := confirms[last].(refCount := confirms[last].refCount + 1)];
        fatal := confirms[last].refCount >= INT_MAX;
        return;
      }
      confirms := confirms + [Entry(c, 1)];
    }

    /** What a callback does: register further requests. */
    method Callback(cs: seq<Confirm>) returns (fatal: bool)
      requires Valid(confirms)
      modifies `confirms
      ensures fatal == RegisterAll(old(confirms), cs).None?
      ensures !fatal ==> Some(confirms) == RegisterAll(old(confirms), cs) && Valid(confirms)
    {
      fatal := false;
      var i := 0;
      while i < |cs|
        invariant 0 <= i <= |cs| && Valid(confirms)
        invariant RegisterAll(old(confirms), cs) == RegisterAll(confirms, cs[i..])
      {
        assert cs[i..][1..] == cs[i + 1..];
        fatal := RegisterGlobalConfirm(cs[i]);
        if fatal { return; }
        i := i + 1;
      }
    }

    /** Drops a reference to the first entry. */
    method Dequeue()
      requires Valid(confirms) && confirms != []
      modifies `confirms
      ensures confirms == Unref(old(confirms))
      ensures Valid(confirms) && Fifo(old(confirms)) == [old(confirms)[0].c] + Fifo(confirms)
    {
      UnrefDequeues(confirms);
      confirms := confirms[0 := confirms[0].(refCount := confirms[0].refCount - 1)];
      if confirms[0].refCount <= 0 { confirms := confirms[1..]; }
    }

    /** client_global_request_reply: answers the oldest request. `invoked` is the callback that
        ran, and `behaviour` what each callback registers. */
    method GlobalRequestReply(behaviour: Confirm -> seq<Confirm>) returns (invoked: Option<Confirm>, fatal: bool)
      requires Valid(confirms)
      modifies this
      ensures old(confirms) == [] ==> confirms == [] && invoked == None && !fatal
      ensures old(confirms) != [] ==>
                var c := Fifo(old(confirms))[0];
                var more := if c.cb.Some? then behaviour(c) else [];
                && fatal == Reply(old(confirms), more).None?
                && invoked == (if c.cb.Some? then Some(c) else None)
                && (!fatal ==> Some(confirms) == Reply(old(confirms), more) && Valid(confirms) && aliveTimeouts == 0
                               && [c] + Fifo(confirms) == Fifo(old(confirms)) + more)
    {
      invoked, fatal := None, false;
      if confirms == [] { return; }
      var c := confirms[0].c;
      assert Fifo(confirms)[0] == c;
      if c.cb.Some? {
        invoked := Some(c);
        fatal := Callback(behaviour(c));
        if fatal { return; }
        RegisterAllAppends(old(confirms), behaviour(c));
      }
      Dequeue();
      aliveTimeouts := 0;
    }

    /** server_alive_check: gives up after too many silent rounds, and otherwise sends a
        keepalive and queues a placeholder for its reply. */
    method ServerAliveCheck(countMax: nat) returns (timedOut: bool, fatal: bool)
      requires Valid(confirms)
      modifies this
      ensures aliveTimeouts == old(aliveTimeouts) + 1 && timedOut == (aliveTimeouts > countMax)
      ensures timedOut ==> confirms == old(confirms)
      ensures fatal == (!timedOut && Register(old(confirms), PLACEHOLDER).None?)
      ensures !timedOut && !fatal ==> Some(confirms) == Register(old(confirms), PLACEHOLDER)
      ensures !timedOut && !fatal ==> Valid(confirms) && Fifo(confirms) == Fifo(old(confirms)) + [PLACEHOLDER]
    {
      aliveTimeouts := aliveTimeouts + 1;
      timedOut, fatal := aliveTimeouts > countMax, false;
      if timedOut { return; }
      fatal := RegisterGlobalConfirm(PLACEHOLDER);
    }

    /** One event, in a run that has registered `reg` and answered `ans` so far. */
    method Handle(e: Event, countMax: nat, ghost reg: seq<Confirm>, ghost ans: seq<Confirm>)
      returns (registered: seq<Confirm>, answered: seq<Confirm>, end: Ending)
      requires Valid(confirms)
      modifies this
      ensures end == Fatal <==> Step(State(old(confirms), reg, ans), e).None? && !end.GaveUp?
      ensures end == GaveUp ==> e.Keepalive? && aliveTimeouts > countMax && confirms == old(confirms)
      ensures end == Finished ==>
                Step(State(old(confirms), reg, ans), e) == Some(State(confirms, reg + registered, ans + answered))
                && Valid(confirms)
    {
      registered, answered, end := [], [], Finished;
      assert reg + [] == reg && ans + [] == ans;
      var fatal := false;
      match e {
        case Registered(c) =>
          fatal := RegisterGlobalConfirm(c);
          registered := [c];
        case Keepalive =>
          var timedOut;
          timedOut, fatal := ServerAliveCheck(countMax);
          if timedOut { return [], [], GaveUp; }
          registered := [PLACEHOLDER];
        case Replied(cs) =>
          if confirms != [] {
            var c := confirms[0].c;
            answered := [c];
            registered := if c.cb.Some? then cs else [];
            assert Fifo(confirms)[0] == c && Reply(confirms, cs) == Reply(confirms, registered);
          }
          var invoked;
          invoked, fatal := GlobalRequestReply(_ => cs);
      }
      if fatal { end := Fatal; }
    }

    /** A whole session: events are handled until the client gives up on the server or a queue
        overflows. What is returned is the run it was, and the answers came in the order of the
        registrations. */
    method Converse(es: seq<Event>, countMax: nat)
      returns (n: nat, registered: seq<Confirm>, answered: seq<Confirm>, end: Ending)
      requires confirms == []
      modifies this
      ensures n <= |es| && (n == |es| <==> end == Finished) && Run(Start, es[..n]).Some?
      ensures end == Fatal ==> Step(Run(Start, es[..n]).value, es[n]).None?
      ensures end == GaveUp ==> es[n].Keepalive? && aliveTimeouts > countMax
      ensures registered == Run(Start, es[..n]).value.registered
      ensures answered == Run(Start, es[..n]).value.answered && answered <= registered
      ensures end != Fatal ==>
                Valid(confirms) && Run(Start, es[..n]).value.q == confirms && registered == answered + Fifo(confirms)
    {
      n, registered, answered, end := 0, [], [], Finished;
      assert es[..0] == [];
      while n < |es|
        invariant 0 <= n <= |es| && Valid(confirms) && end == Finished
        invariant Run(Start, es[..n]) == Some(State(confirms, registered, answered))
      {
        ghost var s := State(confirms, registered, answered);
        InOrder(es[..n], s);
        var more, done;
        more, done, end := Handle(es[n], countMax, registered, answered);
        if end != Finished { return; }
        RunNext(es, n, s, State(confirms, registered + more, answered + done));
        n, registered, answered := n + 1, registered + more, answered + done;
      }
      assert es[..n] == es;
      InOrder(es, State(confirms, registered, answered));
    }
  }
}
