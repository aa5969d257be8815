/** The server side of user authentication (sections 5 and 5.1 of RFC 4252) as a state
    machine: what each request does to the method lists and the failure count. */
module AuthSpec {
  import opened Lists
  import opened AuthMethods
  import opened Wrappers

  /** auth2_methods_valid with need_enable set: every item names an enabled method. */
  function NamePart(item: string): string {
    if item == "" || item[0] == ':' then "" else [item[0]] + NamePart(item[1..])
  }

  predicate AllEnabled(items: seq<string>, enabled: set<string>) {
    forall t :: t in items ==> NamePart(t) in enabled
  }

  predicate MethodsValid(methods: string, enabled: set<string>) {
    methods != "" && AllEnabled(Split(methods), enabled)
  }

  /** The configured lists without those that mention a disabled method. */
  function Retain(lists: seq<string>, enabled: set<string>): seq<string> {
    if lists == [] then []
    else (if MethodsValid(lists[0], enabled) then [lists[0]] else []) + Retain(lists[1..], enabled)
  }

  datatype Config = Config(lists: seq<string>, enabled: set<string>, maxTries: nat)

  /** AuthenticationMethods "any" means that no list is required. */
  function Required(conf: Config): seq<string> {
    if conf.lists == ["any"] then [] else conf.lists
  }

  predicate ConfigOk(conf: Config) {
    forall n :: n in conf.enabled ==> n != "" && NoComma(n) && ':' !in n
  }

  function Retained(conf: Config): seq<string> { Retain(Required(conf), conf.enabled) }

  datatype Auth = Auth(
    attempt: nat,
    failures: nat,
    valid: bool,
    noneUsed: bool,
    lists: seq<string>,
    user: string,
    service: string)

  const Start := Auth(0, 0, false, false, [], "", "")

  datatype Reply = Granted | Refused(partial: bool) | NoReply | Disconnected | Aborted

  datatype Result = Result(a: Auth, reply: Reply)

  // ---- striking a method off every list -----------------------------------------------

  datatype Update = Update(lists: seq<string>, found: bool, complete: bool)

  /** auth2_update_methods_lists from list i on. */
  function UpdateFrom(lists: seq<string>, i: nat, e: Success, found: bool): Update
    requires i <= |lists|
    decreases |lists| - i
  {
    if i == |lists| then Update(lists, found, false)
    else
      var r := RemoveMethod(lists[i], e.meth, e.sub);
      if !r.removed then UpdateFrom(lists, i + 1, e, found)
      else if r.methods == "" then Update(lists[i := r.methods], true, true)
      else UpdateFrom(lists[i := r.methods], i + 1, e, true)
  }

  function UpdateLists(lists: seq<string>, e: Success): Update { UpdateFrom(lists, 0, e, false) }

  // ---- one request -----------------------------------------------------------------------

  /** userauth_finish. */
  function Finish(conf: Config, a: Auth, e: Success, verified: bool, postponed: bool): Result {
    if verified && (postponed || !a.valid) then Result(a, Aborted)
    else if verified && Required(conf) != [] then
      var u := UpdateLists(a.lists, e);
      if u.complete then Result(a.(lists := u.lists), Granted)
      else if !u.found then Result(a.(lists := u.lists), Aborted)
      else Refuse(conf, a.(lists := u.lists), e.meth, true)
    else if verified then Result(a, Granted)
    else if postponed then Result(a, NoReply)
    else Refuse(conf, a, e.meth, false)
  }

  /** Count the failure, unless partial or the initial "none"; answer or hang up. */
  function Refuse(conf: Config, a: Auth, meth: string, partial: bool): Result {
    var a' := if !partial && (a.attempt > 1 || meth != "none") then a.(failures := a.failures + 1) else a;
    if a'.failures >= conf.maxTries then Result(a', Disconnected) else Result(a', Refused(partial))
  }

  /** auth2_method_allowed. */
  predicate Allowed(conf: Config, lists: seq<string>, e: Success) {
    Required(conf) != [] ==>
      exists i :: 0 <= i < |lists| && ListStartsWith(lists[i], e.meth, e.sub) != MatchNone
  }

  /** authmethod_lookup; "none" is enabled only once. */
  predicate Offered(conf: Config, a: Auth, meth: string) {
    meth in conf.enabled && (meth == "none" ==> !a.noneUsed) && Allowed(conf, a.lists, Success(meth, None))
  }

  datatype Input =
    | Request(meth: string, verified: bool, postponed: bool, known: bool, user: string, service: string)
    | Response(device: string, verified: bool, postponed: bool)

  /** The first request fixes the user, the service and the lists. */
  function Begin(conf: Config, a: Auth, i: Input): Auth
    requires i.Request?
  {
    if a.attempt == 0 then
      a.(attempt := 1, valid := i.known && i.service == "ssh-connection", lists := Retained(conf),
         user := i.user, service := i.service)
    else a.(attempt := a.attempt + 1)
  }

  /** A later request for someone or something else. */
  predicate Changed(a: Auth, i: Input)
    requires i.Request?
  {
    a.attempt > 0 && (i.user != a.user || i.service != a.service)
  }

  /** Whether the method is actually run. */
  predicate Tried(conf: Config, a: Auth, meth: string) {
    Offered(conf, a, meth) && a.failures < conf.maxTries
  }

  function AfterTry(conf: Config, a: Auth, meth: string): Auth {
    if Tried(conf, a, meth) && meth == "none" then a.(noneUsed := true) else a
  }

  /** The first request finds every list disabled. */
  predicate NothingLeft(conf: Config, a: Auth) {
    a.attempt == 1 && Required(conf) != [] && a.lists == []
  }

  /** The rest of input_userauth_request, after Begin. */
  function TryMethod(conf: Config, a: Auth, meth: string, verified: bool, postponed: bool): Result {
    if NothingLeft(conf, a) then Result(a, Disconnected)
    else
      var t := Tried(conf, a, meth);
      Finish(conf, AfterTry(conf, a, meth), Success(meth, None), t && verified, t && postponed)
  }

  function Handle(conf: Config, a: Auth, i: Input): Result {
    match i
    case Request(meth, verified, postponed, _, _, _) =>
      if Changed(a, i) then Result(Begin(conf, a, i), Disconnected)
      else TryMethod(conf, Begin(conf, a, i), meth, verified, postponed)
    case Response(device, verified, postponed) => Finish(conf, a, Accepted(i), verified, postponed)
  }

  /** Whether an input makes a method succeed for an existing user. */
  predicate Counts(conf: Config, a: Auth, i: Input) {
    i.verified && !i.postponed &&
    match i
    case Request(meth, _, _, _, _, _) =>
      var b := Begin(conf, a, i);
      !Changed(a, i) && b.valid && Tried(conf, b, meth)
    case Response(_, _, _) => a.valid
  }

  function Accepted(i: Input): Success {
    match i
    case Request(meth, _, _, _, _, _) => Success(meth, None)
    case Response(device, _, _) => Success("keyboard-interactive", Some(device))
  }

  /** What the methods themselves guarantee: keyboard-interactive never succeeds at once
      (auth2_challenge), and only a device the lists allow is ever asked (kbdint_next_device). */
  predicate CanHandle(conf: Config, a: Auth, i: Input) {
    match i
    case Request(meth, verified, _, _, _, _) => meth == "keyboard-interactive" ==> !verified
    case Response(device, _, _) => a.attempt > 0 && NoComma(device) && Allowed(conf, a.lists, Accepted(i))
  }
}

/** Every run of that machine: success is granted exactly when a list is satisfied, and
    the number of failure messages is bounded. */
module AuthRuns {
  import opened Lists
  import opened AuthMethods
  import opened AuthSpec
  import opened Wrappers

  // ---- ordered subsequences, and the greedy way to find one ---------------------------------

  /** f places the items of ts, in order, at successes that satisfy them. */
  ghost predicate Embeds(f: seq<nat>, ts: seq<string>, es: seq<Success>) {
    && |f| == |ts|
    && (forall j :: 0 <= j < |f| ==> f[j] < |es| && Satisfies(es[f[j]], ts[j]))
    && (forall j, k :: 0 <= j < k < |f| ==> f[j] < f[k])
  }

  /** ts is an ordered subsequence of the successes es. */
  ghost predicate Subsequence(ts: seq<string>, es: seq<Success>) {
    exists f :: Embeds(f, ts, es)
  }

  function Strike(ts: seq<string>, e: Success): seq<string> {
    if ts != [] && Satisfies(e, ts[0]) then ts[1..] else ts
  }

  /** What is left of ts after each success in turn strikes off the first item. */
  function Remainder(ts: seq<string>, es: seq<Success>): seq<string> {
    if es == [] then ts else Strike(Remainder(ts, es[..|es| - 1]), es[|es| - 1])
  }

  /** Greedy matching from the front, the form the induction needs. */
  function Greedy(ts: seq<string>, es: seq<Success>): seq<string> {
    if es == [] then ts else Greedy(Strike(ts, es[0]), es[1..])
  }

  lemma {:induction false} GreedySnoc(ts: seq<string>, es: seq<Success>, e: Success)
    ensures Greedy(ts, es + [e]) == Strike(Greedy(ts, es), e)
    decreases |es|
  {
    if es == [] {
      assert (es + [e])[1..] == [];
    } else {
      assert (es + [e])[1..] == es[1..] + [e];
      GreedySnoc(Strike(ts, es[0]), es[1..], e);
    }
  }

  lemma {:induction false} RemainderIsGreedy(ts: seq<string>, es: seq<Success>)
    ensures Remainder(ts, es) == Greedy(ts, es)
    decreases |es|
  {
    if es != [] {
      var k := |es| - 1;
      RemainderIsGreedy(ts, es[..k]);
      GreedySnoc(ts, es[..k], es[k]);
      assert es[..k] + [es[k]] == es;
    }
  }

  lemma {:induction false} GreedyNil(es: seq<Success>)
    ensures Greedy([], es) == []
  {
    if es != [] { GreedyNil(es[1..]); }
  }

  lemma {:induction false} GreedyFinds(f: seq<nat>, ts: seq<string>, es: seq<Success>)
    requires Embeds(f, ts, es)
    ensures Greedy(ts, es) == []
    decreases |es|
  {
    if ts == [] {
      GreedyNil(es);
    } else {
      assert f[0] < |es|;
      if Satisfies(es[0], ts[0]) {
        var g := seq(|f| - 1, j requires 0 <= j < |f| - 1 => if f[j + 1] > 0 then f[j + 1] - 1 else 0);
        forall j | 0 <= j < |g| ensures g[j] == f[j + 1] - 1 && ts[1..][j] == ts[j + 1] {
          assert f[0] < f[j + 1];
        }
        GreedyFinds(g, ts[1..], es[1..]);
      } else {
        var g := seq(|f|, j requires 0 <= j < |f| => if f[j] > 0 then f[j] - 1 else 0);
        forall j | 0 <= j < |g| ensures g[j] == f[j] - 1 {
          assert Satisfies(es[f[0]], ts[0]);
          assert j > 0 ==> f[0] < f[j];
        }
        GreedyFinds(g, ts, es[1..]);
      }
    }
  }

  function Later(g: seq<nat>): seq<nat> { seq(|g|, j requires 0 <= j < |g| => g[j] + 1) }

  lemma EmbedLater(g: seq<nat>, ts: seq<string>, es: seq<Success>)
    requires es != [] && Embeds(g, ts, es[1..])
    ensures Embeds(Later(g), ts, es)
  {
    forall j | 0 <= j < |g| ensures Later(g)[j] < |es| && Satisfies(es[Later(g)[j]], ts[j]) {
      assert es[1..][g[j]] == es[g[j] + 1];
    }
  }

  lemma EmbedFirst(g: seq<nat>, ts: seq<string>, es: seq<Success>)
    requires es != [] && ts != [] && Satisfies(es[0], ts[0]) && Embeds(g, ts[1..], es)
    requires forall j :: 0 <= j < |g| ==> g[j] > 0
    ensures Embeds([0] + g, ts, es)
  {
    var f := [0] + g;
    forall j | 0 <= j < |f| ensures f[j] < |es| && Satisfies(es[f[j]], ts[j]) {
      assert j > 0 ==> f[j] == g[j - 1] && ts[j] == ts[1..][j - 1];
    }
  }

  lemma {:induction false} GreedyFound(ts: seq<string>, es: seq<Success>) returns (f: seq<nat>)
    requires Greedy(ts, es) == []
    ensures Embeds(f, ts, es)
    decreases |es|
  {
    if ts == [] {
      f := [];
    } else {
      var g := GreedyFound(Strike(ts, es[0]), es[1..]);
      EmbedLater(g, Strike(ts, es[0]), es);
      f := Later(g);
      if Satisfies(es[0], ts[0]) {
        EmbedFirst(f, ts, es);
        f := [0] + f;
      }
    }
  }

  /** Striking off items one success at a time finds a subsequence if there is one. */
  lemma {:induction false} GreedyIsComplete(ts: seq<string>, es: seq<Success>)
    ensures Remainder(ts, es) == [] <==> Subsequence(ts, es)
  {
    RemainderIsGreedy(ts, es);
    if Subsequence(ts, es) {
      var f :| Embeds(f, ts, es);
      GreedyFinds(f, ts, es);
    }
    if Greedy(ts, es) == [] {
      var f := GreedyFound(ts, es);
    }
  }

  // ---- the lists after one success --------------------------------------------------------

  /** A list still asks for something, and has no empty item. */
  predicate Pending(s: string) { s != "" && NoEmptyItem(s) }

  predicate AllPending(lists: seq<string>) { forall j :: 0 <= j < |lists| ==> Pending(lists[j]) }

  lemma RemovePending(s: string, e: Success)
    requires Named(e) && Pending(s)
    ensures var r := RemoveMethod(s, e.meth, e.sub);
            && Items(r.methods) == Strike(Items(s), e)
            && r.removed == (Strike(Items(s), e) != Items(s))
            && (Strike(Items(s), e) != [] ==> Pending(r.methods))
            && (r.methods == "" <==> Strike(Items(s), e) == [])
  {
    RemoveIsTail(s, e);
  }

  predicate Finishes(s: string, e: Success) { Strike(Items(s), e) == [] }
  predicate Hits(s: string, e: Success) { Strike(Items(s), e) != Items(s) }

  /** t is list s after success e. */
  predicate Struck(s: string, t: string, e: Success) {
    Items(t) == Strike(Items(s), e) && (Pending(s) && !Finishes(s, e) ==> Pending(t))
  }

  lemma RemoveStrikes(s: string, e: Success)
    requires Named(e) && Pending(s)
    ensures var r := RemoveMethod(s, e.meth, e.sub);
            && r.removed == Hits(s, e) && Struck(s, r.methods, e)
            && (r.methods == "" <==> Finishes(s, e))
    ensures Finishes(s, e) ==> Hits(s, e)
    ensures !Hits(s, e) ==> Struck(s, s, e)
  {
    RemovePending(s, e);
  }

  /** Some list from i on is finished. */
  ghost predicate AnyFinish(lists: seq<string>, i: nat, e: Success) {
    exists j :: i <= j < |lists| && Finishes(lists[j], e)
  }

  lemma AnyFinishStep(lists: seq<string>, i: nat, e: Success)
    requires i < |lists|
    ensures AnyFinish(lists, i, e) <==> Finishes(lists[i], e) || AnyFinish(lists, i + 1, e)
  {
    if AnyFinish(lists, i, e) && !Finishes(lists[i], e) {
      var j :| i <= j < |lists| && Finishes(lists[j], e);
      assert j >= i + 1;
    }
  }

  lemma AnyFinishLater(lists: seq<string>, i: nat, t: string, e: Success)
    requires i < |lists|
    ensures AnyFinish(lists[i := t], i + 1, e) <==> AnyFinish(lists, i + 1, e)
  {
    var next := lists[i := t];
    assert forall j :: i < j < |lists| ==> next[j] == lists[j];
  }

  lemma {:induction false} UpdateCompletes(lists: seq<string>, i: nat, e: Success, found: bool)
    requires i <= |lists| && Named(e) && AllPending(lists)
    ensures UpdateFrom(lists, i, e, found).complete <==> AnyFinish(lists, i, e)
    decreases |lists| - i
  {
    if i < |lists| {
      RemoveStrikes(lists[i], e);
      AnyFinishStep(lists, i, e);
      var r := RemoveMethod(lists[i], e.meth, e.sub);
      if !r.removed {
        UpdateCompletes(lists, i + 1, e, found);
      } else if r.methods != "" {
        AnyFinishLater(lists, i, r.methods, e);
        UpdateCompletes(lists[i := r.methods], i + 1, e, true);
      }
    }
  }

  /** Some list from i on is hit. */
  ghost predicate AnyHit(lists: seq<string>, i: nat, e: Success) {
    exists j :: i <= j < |lists| && Hits(lists[j], e)
  }

  lemma AnyHitStep(lists: seq<string>, i: nat, e: Success)
    requires i < |lists|
    ensures AnyHit(lists, i, e) <==> Hits(lists[i], e) || AnyHit(lists, i + 1, e)
  {
    if AnyHit(lists, i, e) && !Hits(lists[i], e) {
      var j :| i <= j < |lists| && Hits(lists[j], e);
      assert j >= i + 1;
    }
  }

  lemma {:induction false} UpdateFinds(lists: seq<string>, i: nat, e: Success, found: bool)
    requires i <= |lists| && Named(e) && AllPending(lists)
    ensures var u := UpdateFrom(lists, i, e, found); u.complete || (u.found <==> found || AnyHit(lists, i, e))
    decreases |lists| - i
  {
    if i < |lists| {
      RemoveStrikes(lists[i], e);
      AnyHitStep(lists, i, e);
      var r := RemoveMethod(lists[i], e.meth, e.sub);
      if !r.removed {
        UpdateFinds(lists, i + 1, e, found);
      } else if r.methods != "" {
        UpdateFinds(lists[i := r.methods], i + 1, e, true);
      }
    }
  }

  /** From list i on, every list was struck. */
  ghost predicate StruckFrom(i: nat, olds: seq<string>, news: seq<string>, e: Success) {
    && |news| == |olds|
    && (forall j :: 0 <= j < i && j < |olds| ==> news[j] == olds[j])
    && (forall j :: i <= j < |olds| ==> Struck(olds[j], news[j], e))
  }

  lemma StruckBack(i: nat, olds: seq<string>, t: string, news: seq<string>, e: Success)
    requires i < |olds| && Struck(olds[i], t, e) && StruckFrom(i + 1, olds[i := t], news, e)
    ensures StruckFrom(i, olds, news, e)
  {
    var mid := olds[i := t];
    assert news[i] == mid[i] == t;
    forall j | 0 <= j < |olds| && j != i ensures mid[j] == olds[j] {}
    forall j | i <= j < |olds| ensures Struck(olds[j], news[j], e) {
      assert j > i ==> Struck(mid[j], news[j], e);
    }
  }

  lemma {:induction false} UpdateStrikes(lists: seq<string>, i: nat, e: Success, found: bool)
    requires i <= |lists| && Named(e) && AllPending(lists)
    ensures var u := UpdateFrom(lists, i, e, found); u.complete || StruckFrom(i, lists, u.lists, e)
    decreases |lists| - i
  {
    if i < |lists| {
      RemoveStrikes(lists[i], e);
      var r := RemoveMethod(lists[i], e.meth, e.sub);
      var t := r.methods;
      var u := UpdateFrom(lists, i, e, found);
      if !r.removed {
        assert lists[i := t] == lists;
      }
      if !u.complete {
        UpdateStrikes(lists[i := t], i + 1, e, r.removed || found);
        StruckBack(i, lists, t, u.lists, e);
      }
    }
  }

  // ---- runs ---------------------------------------------------------------------------------

  /** A whole connection: states as, inputs ins and the replies rs to them.  The dialogue
      goes on only after a refusal or while a method is waiting. */
  ghost predicate Run(conf: Config, states: seq<Auth>, ins: seq<Input>, rs: seq<Reply>) {
    && |states| == |ins| + 1 && |rs| == |ins| && states[0] == Start
    && (forall k: nat :: k < |ins| ==> Exchange(conf, states, ins, rs, k))
  }

  /** Exchange number k; only the last one ends the dialogue. */
  predicate Exchange(conf: Config, states: seq<Auth>, ins: seq<Input>, rs: seq<Reply>, k: nat)
    requires |states| == |ins| + 1 && |rs| == |ins| && k < |ins|
  {
    && CanHandle(conf, states[k], ins[k]) && Handle(conf, states[k], ins[k]) == Result(states[k + 1], rs[k])
    && (k < |ins| - 1 ==> GoesOn(rs[k]))
  }

  predicate GoesOn(r: Reply) { r.Refused? || r.NoReply? }

  function Gain(conf: Config, a: Auth, i: Input): seq<Success> {
    if Counts(conf, a, i) then [Accepted(i)] else []
  }

  /** The methods that succeeded in the first k exchanges. */
  function Successes(conf: Config, states: seq<Auth>, ins: seq<Input>, k: nat): seq<Success>
    requires k <= |ins| <= |states|
  {
    if k == 0 then [] else Successes(conf, states, ins, k - 1) + Gain(conf, states[k - 1], ins[k - 1])
  }

  /** Some retained list is an ordered subsequence of the successes. */
  ghost predicate Satisfied(conf: Config, es: seq<Success>) {
    exists j :: 0 <= j < |Retained(conf)| && Subsequence(Items(Retained(conf)[j]), es)
  }

  /** The lists hold what is left of the retained ones. */
  ghost predicate ListsInv(conf: Config, lists: seq<string>, es: seq<Success>) {
    && |lists| == |Retained(conf)|
    && (forall j :: 0 <= j < |lists| ==>
          Pending(lists[j]) && Items(lists[j]) == Remainder(Items(Retained(conf)[j]), es))
  }

  ghost predicate Inv(conf: Config, a: Auth, es: seq<Success>) {
    if a.attempt == 0 then es == [] else ListsInv(conf, a.lists, es)
  }

  lemma {:induction false} RetainedValid(lists: seq<string>, enabled: set<string>, j: nat)
    requires j < |Retain(lists, enabled)|
    ensures MethodsValid(Retain(lists, enabled)[j], enabled)
  {
    if MethodsValid(lists[0], enabled) {
      if j > 0 { RetainedValid(lists[1..], enabled, j - 1); }
    } else {
      RetainedValid(lists[1..], enabled, j);
    }
  }

  lemma RetainedPending(conf: Config)
    requires ConfigOk(conf)
    ensures ListsInv(conf, Retained(conf), [])
  {
    forall j | 0 <= j < |Retained(conf)| ensures Pending(Retained(conf)[j]) {
      RetainedValid(Required(conf), conf.enabled, j);
    }
  }

  lemma {:induction false} RemainderSnoc(ts: seq<string>, es: seq<Success>, e: Success)
    ensures Remainder(ts, es + [e]) == Strike(Remainder(ts, es), e)
  {
    assert (es + [e])[..|es|] == es;
  }

  /** Completion is reported exactly when a list is satisfied by the new success. */
  lemma UpdateGrants(conf: Config, lists: seq<string>, es: seq<Success>, e: Success)
    requires ListsInv(conf, lists, es) && Named(e)
    ensures UpdateLists(lists, e).complete <==> Satisfied(conf, es + [e])
  {
    UpdateCompletes(lists, 0, e, false);
    forall j | 0 <= j < |lists|
      ensures Finishes(lists[j], e) <==> Subsequence(Items(Retained(conf)[j]), es + [e])
    {
      RemainderSnoc(Items(Retained(conf)[j]), es, e);
      GreedyIsComplete(Items(Retained(conf)[j]), es + [e]);
    }
  }

  lemma UpdateKeepsLists(conf: Config, lists: seq<string>, es: seq<Success>, e: Success)
    requires ListsInv(conf, lists, es) && Named(e) && !UpdateLists(lists, e).complete
    ensures ListsInv(conf, UpdateLists(lists, e).lists, es + [e])
  {
    var u := UpdateLists(lists, e);
    UpdateCompletes(lists, 0, e, false);
    UpdateStrikes(lists, 0, e, false);
    forall j | 0 <= j < |lists|
      ensures Pending(u.lists[j]) && Items(u.lists[j]) == Remainder(Items(Retained(conf)[j]), es + [e])
    {
      RemainderSnoc(Items(Retained(conf)[j]), es, e);
      assert Struck(lists[j], u.lists[j], e) && !Finishes(lists[j], e);
    }
  }

  lemma NotSatisfied(conf: Config, lists: seq<string>, es: seq<Success>)
    requires ListsInv(conf, lists, es)
    ensures !Satisfied(conf, es)
  {
    forall j | 0 <= j < |lists| ensures !Subsequence(Items(Retained(conf)[j]), es) {
      GreedyIsComplete(Items(Retained(conf)[j]), es);
      assert Items(lists[j]) != [];
    }
  }

  lemma FinishInv(conf: Config, a: Auth, es: seq<Success>, e: Success, verified: bool, postponed: bool)
    requires Required(conf) != [] && ListsInv(conf, a.lists, es) && (verified ==> Named(e))
    ensures var r := Finish(conf, a, e, verified, postponed);
            var es' := if verified && !postponed && a.valid then es + [e] else es;
            && (r.reply.Granted? <==> Satisfied(conf, es'))
            && (GoesOn(r.reply) ==> ListsInv(conf, r.a.lists, es') && r.a.attempt == a.attempt)
  {
    if verified && !postponed && a.valid {
      UpdateGrants(conf, a.lists, es, e);
      if !UpdateLists(a.lists, e).complete { UpdateKeepsLists(conf, a.lists, es, e); }
    } else {
      NotSatisfied(conf, a.lists, es);
    }
  }

  lemma TryInv(conf: Config, a: Auth, es: seq<Success>, meth: string, verified: bool, postponed: bool)
    requires ConfigOk(conf) && Required(conf) != [] && ListsInv(conf, a.lists, es) && a.attempt > 0
    ensures var r := TryMethod(conf, a, meth, verified, postponed);
            var es' := if verified && !postponed && a.valid && Tried(conf, a, meth) then es + [Success(meth, None)]
                       else es;
            && (r.reply.Granted? <==> Satisfied(conf, es'))
            && (GoesOn(r.reply) ==> ListsInv(conf, r.a.lists, es') && r.a.attempt > 0)
  {
    if !NothingLeft(conf, a) {
      var t := Tried(conf, a, meth);
      FinishInv(conf, AfterTry(conf, a, meth), es, Success(meth, None), t && verified, t && postponed);
    }
  }

  lemma BeginInv(conf: Config, a: Auth, es: seq<Success>, i: Input)
    requires ConfigOk(conf) && Inv(conf, a, es) && i.Request?
    ensures ListsInv(conf, Begin(conf, a, i).lists, es) && Begin(conf, a, i).attempt > 0
  {
    RetainedPending(conf);
  }

  /** What one exchange does, as far as the lists are concerned. */
  ghost predicate StepOk(conf: Config, es': seq<Success>, r: Result) {
    && (r.reply.Granted? <==> Satisfied(conf, es'))
    && (GoesOn(r.reply) ==> Inv(conf, r.a, es'))
  }

  lemma RequestInv(conf: Config, a: Auth, es: seq<Success>, i: Input)
    requires ConfigOk(conf) && Required(conf) != [] && Inv(conf, a, es) && i.Request?
    ensures StepOk(conf, es + Gain(conf, a, i), Handle(conf, a, i))
  {
    assert es + [] == es;
    BeginInv(conf, a, es, i);
    if Changed(a, i) {
      NotSatisfied(conf, Begin(conf, a, i).lists, es);
    } else {
      TryInv(conf, Begin(conf, a, i), es, i.meth, i.verified, i.postponed);
    }
  }

  lemma HandleInv(conf: Config, a: Auth, es: seq<Success>, i: Input)
    requires ConfigOk(conf) && Required(conf) != [] && Inv(conf, a, es) && CanHandle(conf, a, i)
    ensures StepOk(conf, es + Gain(conf, a, i), Handle(conf, a, i))
  {
    assert es + [] == es;
    if i.Request? {
      RequestInv(conf, a, es, i);
    } else {
      FinishInv(conf, a, es, Accepted(i), i.verified, i.postponed);
    }
  }

  lemma {:induction false} RunInv(conf: Config, states: seq<Auth>, ins: seq<Input>, rs: seq<Reply>, k: nat)
    requires ConfigOk(conf) && Required(conf) != [] && Run(conf, states, ins, rs) && k < |ins|
    ensures Inv(conf, states[k], Successes(conf, states, ins, k))
  {
    if k > 0 {
      RunInv(conf, states, ins, rs, k - 1);
      assert Exchange(conf, states, ins, rs, k - 1);
      HandleInv(conf, states[k - 1], Successes(conf, states, ins, k - 1), ins[k - 1]);
    }
  }

  lemma StepDecides(conf: Config, es: seq<Success>, a: Auth, i: Input, a': Auth, r: Reply)
    requires ConfigOk(conf) && Required(conf) != [] && Inv(conf, a, es) && CanHandle(conf, a, i)
    requires Handle(conf, a, i) == Result(a', r)
    ensures r.Granted? <==> Satisfied(conf, es + Gain(conf, a, i))
  {
    HandleInv(conf, a, es, i);
  }

  lemma {:induction false} GrantedAt(conf: Config, states: seq<Auth>, ins: seq<Input>, rs: seq<Reply>, k: nat)
    requires ConfigOk(conf) && Required(conf) != [] && Run(conf, states, ins, rs) && k < |ins|
    ensures rs[k].Granted? <==> Satisfied(conf, Successes(conf, states, ins, k + 1))
  {
    RunInv(conf, states, ins, rs, k);
    assert Exchange(conf, states, ins, rs, k);
    StepDecides(conf, Successes(conf, states, ins, k), states[k], ins[k], states[k + 1], rs[k]);
  }

  /** In every run, access is granted at exactly the exchange where some retained list
      first becomes an ordered subsequence of the methods that succeeded so far. */
  lemma {:induction false} GrantedExactlyWhenSatisfied(conf: Config, states: seq<Auth>, ins: seq<Input>, rs: seq<Reply>,
                                                       k: nat)
    requires ConfigOk(conf) && Required(conf) != [] && Run(conf, states, ins, rs) && k < |ins|
    ensures rs[k].Granted? <==> Satisfied(conf, Successes(conf, states, ins, k + 1))
    ensures forall j: nat :: j <= k ==> !Satisfied(conf, Successes(conf, states, ins, j))
  {
    GrantedAt(conf, states, ins, rs, k);
    forall j: nat | j <= k ensures !Satisfied(conf, Successes(conf, states, ins, j)) {
      if j == 0 {
        RetainedPending(conf);
        NotSatisfied(conf, Retained(conf), []);
      } else {
        GrantedAt(conf, states, ins, rs, j - 1);
        assert Exchange(conf, states, ins, rs, j - 1);
      }
    }
  }

  // ---- the failure messages of a run ---------------------------------------------------------

  function Left(lists: seq<string>): nat {
    if lists == [] then 0 else |Items(lists[0])| + Left(lists[1..])
  }

  function Refusals(rs: seq<Reply>): nat {
    if rs == [] then 0 else Refusals(rs[..|rs| - 1]) + if rs[|rs| - 1].Refused? then 1 else 0
  }

  lemma {:induction false} LeftShrinks(olds: seq<string>, news: seq<string>, e: Success)
    requires |olds| == |news| && forall j :: 0 <= j < |olds| ==> Struck(olds[j], news[j], e)
    ensures Left(news) <= Left(olds)
    ensures (exists j :: 0 <= j < |olds| && Hits(olds[j], e)) ==> Left(news) < Left(olds)
  {
    if olds != [] {
      assert Struck(olds[0], news[0], e);
      forall j | 0 <= j < |olds| - 1 ensures Struck(olds[1..][j], news[1..][j], e) {
        assert Struck(olds[j + 1], news[j + 1], e);
      }
      LeftShrinks(olds[1..], news[1..], e);
      if j :| 0 <= j < |olds| && Hits(olds[j], e) {
        if j > 0 { assert Hits(olds[1..][j - 1], e); }
      }
    }
  }

  /** A partial success uses up at least one list item. */
  lemma {:induction false} PartialShrinks(lists: seq<string>, e: Success)
    requires Named(e) && AllPending(lists)
    ensures var u := UpdateLists(lists, e); !u.complete && u.found ==> Left(u.lists) < Left(lists)
  {
    UpdateFinds(lists, 0, e, false);
    UpdateStrikes(lists, 0, e, false);
    if !UpdateLists(lists, e).complete { LeftShrinks(lists, UpdateLists(lists, e).lists, e); }
  }

  lemma UpdatePending(lists: seq<string>, e: Success)
    requires Named(e) && AllPending(lists) && !UpdateLists(lists, e).complete
    ensures AllPending(UpdateLists(lists, e).lists)
  {
    var u := UpdateLists(lists, e);
    UpdateCompletes(lists, 0, e, false);
    UpdateStrikes(lists, 0, e, false);
    forall j | 0 <= j < |lists| ensures Pending(u.lists[j]) {
      assert Struck(lists[j], u.lists[j], e) && !Finishes(lists[j], e);
    }
  }

  /** With n refusals sent and `total` items at the start, the failure count and the items
      already struck off pay for all refusals but one. */
  predicate Paid(total: nat, a: Auth, n: nat) {
    AllPending(a.lists) && Left(a.lists) + n <= total + a.failures + 1
  }

  /** One more refusal will be free of charge. */
  predicate FreeNone(a: Auth, meth: string) { a.attempt <= 1 && meth == "none" }

  lemma RefusePays(conf: Config, total: nat, a: Auth, n: nat, meth: string, partial: bool)
    requires AllPending(a.lists)
    requires if partial || FreeNone(a, meth) then Paid(total, a, n + 1) else Paid(total, a, n)
    ensures var r := Refuse(conf, a, meth, partial);
            Paid(total, r.a, n + 1) && (r.reply.Refused? ==> r.a.failures < conf.maxTries) && r.a.attempt == a.attempt
  {
  }

  lemma FinishPays(conf: Config, total: nat, a: Auth, n: nat, e: Success, verified: bool, postponed: bool)
    requires verified ==> Named(e)
    requires Paid(total, a, if FreeNone(a, e.meth) then n + 1 else n)
    ensures var r := Finish(conf, a, e, verified, postponed);
            GoesOn(r.reply) ==>
              && Paid(total, r.a, if r.reply.Refused? then n + 1 else n)
              && (r.reply.Refused? ==> r.a.failures < conf.maxTries)
              && r.a.attempt == a.attempt
  {
    if verified && !postponed && a.valid && Required(conf) != [] {
      var u := UpdateLists(a.lists, e);
      if !u.complete && u.found {
        PartialShrinks(a.lists, e);
        UpdatePending(a.lists, e);
        RefusePays(conf, total, a.(lists := u.lists), n, e.meth, true);
      }
    } else if !verified && !postponed {
      RefusePays(conf, total, a, n, e.meth, false);
    }
  }

  ghost predicate CountInv(conf: Config, a: Auth, n: nat) {
    if a.attempt == 0 then n == 0 && a.failures == 0 else Paid(Left(Retained(conf)), a, n)
  }

  lemma TryPays(conf: Config, total: nat, a: Auth, n: nat, meth: string, verified: bool, postponed: bool)
    requires ConfigOk(conf) && Paid(total, a, if FreeNone(a, meth) then n + 1 else n)
    ensures var r := TryMethod(conf, a, meth, verified, postponed);
            GoesOn(r.reply) ==>
              && Paid(total, r.a, if r.reply.Refused? then n + 1 else n)
              && (r.reply.Refused? ==> r.a.failures < conf.maxTries)
              && r.a.attempt == a.attempt
  {
    if !NothingLeft(conf, a) {
      var t := Tried(conf, a, meth);
      FinishPays(conf, total, AfterTry(conf, a, meth), n, Success(meth, None), t && verified, t && postponed);
    }
  }

  /** What one exchange does to the count. */
  ghost predicate CountOk(conf: Config, n: nat, r: Result) {
    GoesOn(r.reply) ==>
      && CountInv(conf, r.a, if r.reply.Refused? then n + 1 else n)
      && (r.reply.Refused? ==> r.a.failures < conf.maxTries && r.a.attempt > 0)
  }

  lemma HandleCounts(conf: Config, a: Auth, n: nat, i: Input)
    requires ConfigOk(conf) && CountInv(conf, a, n) && CanHandle(conf, a, i)
    ensures CountOk(conf, n, Handle(conf, a, i))
  {
    var total := Left(Retained(conf));
    if i.Request? {
      RetainedPending(conf);
      if !Changed(a, i) { TryPays(conf, total, Begin(conf, a, i), n, i.meth, i.verified, i.postponed); }
    } else {
      FinishPays(conf, total, a, n, Accepted(i), i.verified, i.postponed);
    }
  }

  lemma {:induction false} RunCounts(conf: Config, states: seq<Auth>, ins: seq<Input>, rs: seq<Reply>, k: nat)
    requires ConfigOk(conf) && Run(conf, states, ins, rs) && k <= |ins|
    ensures k < |rs| ==> CountInv(conf, states[k], Refusals(rs[..k]))
    ensures Refusals(rs[..k]) <= Left(Retained(conf)) + conf.maxTries
  {
    if k > 0 {
      RunCounts(conf, states, ins, rs, k - 1);
      assert rs[..k][..k - 1] == rs[..k - 1];
      assert Exchange(conf, states, ins, rs, k - 1);
      StepCounts(conf, states[k - 1], Refusals(rs[..k - 1]), ins[k - 1], states[k], rs[k - 1]);
    }
  }

  lemma StepCounts(conf: Config, a: Auth, n: nat, i: Input, a': Auth, r: Reply)
    requires ConfigOk(conf) && CountInv(conf, a, n) && CanHandle(conf, a, i) && Handle(conf, a, i) == Result(a', r)
    ensures GoesOn(r) ==> CountInv(conf, a', if r.Refused? then n + 1 else n)
    ensures r.Refused? ==> n + 1 <= Left(Retained(conf)) + conf.maxTries
  {
    HandleCounts(conf, a, n, i);
  }

  /** Every run sends at most as many USERAUTH_FAILURE messages as the retained lists have
      items, plus max_authtries. */
  lemma {:induction false} FailureMessagesBounded(conf: Config, states: seq<Auth>, ins: seq<Input>, rs: seq<Reply>)
    requires ConfigOk(conf) && Run(conf, states, ins, rs)
    ensures Refusals(rs) <= Left(Retained(conf)) + conf.maxTries
  {
    RunCounts(conf, states, ins, rs, |ins|);
    assert rs[..|ins|] == rs;
  }

  // ---- the branch that "should not happen" -----------------------------------------------------

  /** Methods succeed only for existing users, and not while they wait for more. */
  predicate Honest(conf: Config, a: Auth, i: Input) {
    i.verified ==> !i.postponed && if i.Request? then Begin(conf, a, i).valid else a.valid
  }

  /** The lists at the moment the method succeeds. */
  function Current(conf: Config, a: Auth, i: Input): seq<string> {
    if i.Request? then Begin(conf, a, i).lists else a.lists
  }

  lemma HitsIsSatisfies(s: string, e: Success)
    requires Pending(s) && Named(e)
    ensures Hits(s, e) <==> Satisfies(e, Head(s))
    ensures ListStartsWith(s, e.meth, e.sub) in {MatchMethod, MatchBoth} <==> Satisfies(e, Head(s))
  {
    StartsWithIsItemMatch(s, e.meth, e.sub);
    assert Items(s)[0] == Head(s);
  }

  lemma FinishAborts(conf: Config, a: Auth, e: Success, verified: bool)
    requires Required(conf) != [] && AllPending(a.lists) && (verified ==> a.valid && Named(e))
    ensures Finish(conf, a, e, verified, false).reply.Aborted? <==>
              verified && forall j :: 0 <= j < |a.lists| ==> !Hits(a.lists[j], e)
  {
    if verified {
      UpdateCompletes(a.lists, 0, e, false);
      UpdateFinds(a.lists, 0, e, false);
      forall j | 0 <= j < |a.lists| && Finishes(a.lists[j], e) ensures Hits(a.lists[j], e) {
        assert Items(a.lists[j]) != [];
      }
    }
  }

  /** No list starts with the method, or with the method and this device. */
  ghost predicate Unlisted(lists: seq<string>, e: Success) {
    forall j :: 0 <= j < |lists| ==> ListStartsWith(lists[j], e.meth, e.sub) !in {MatchMethod, MatchBoth}
  }

  lemma UnlistedIsNoHit(lists: seq<string>, e: Success)
    requires AllPending(lists) && Named(e)
    ensures Unlisted(lists, e) <==> forall j :: 0 <= j < |lists| ==> !Hits(lists[j], e)
  {
    forall j | 0 <= j < |lists|
      ensures Hits(lists[j], e) <==> ListStartsWith(lists[j], e.meth, e.sub) in {MatchMethod, MatchBoth}
    {
      HitsIsSatisfies(lists[j], e);
    }
  }

  lemma FinishAbortsUnlisted(conf: Config, a: Auth, e: Success, verified: bool, postponed: bool)
    requires Required(conf) != [] && AllPending(a.lists) && (verified ==> a.valid && Named(e) && !postponed)
    ensures Finish(conf, a, e, verified, postponed).reply.Aborted? <==> verified && Unlisted(a.lists, e)
  {
    if !postponed { FinishAborts(conf, a, e, verified); }
    if verified { UnlistedIsNoHit(a.lists, e); }
  }

  lemma TryAborts(conf: Config, a: Auth, meth: string, verified: bool, postponed: bool)
    requires ConfigOk(conf) && Required(conf) != [] && AllPending(a.lists) && (verified ==> a.valid && !postponed)
    ensures TryMethod(conf, a, meth, verified, postponed).reply.Aborted? <==>
              verified && Tried(conf, a, meth) && Unlisted(a.lists, Success(meth, None))
  {
    if !NothingLeft(conf, a) {
      var t := Tried(conf, a, meth);
      FinishAbortsUnlisted(conf, AfterTry(conf, a, meth), Success(meth, None), t && verified, t && postponed);
    }
  }

  lemma RequestAborts(conf: Config, a: Auth, i: Input)
    requires ConfigOk(conf) && Required(conf) != [] && i.Request? && Honest(conf, a, i)
    requires AllPending(Begin(conf, a, i).lists)
    ensures Handle(conf, a, i).reply.Aborted? <==>
              Counts(conf, a, i) && Unlisted(Current(conf, a, i), Accepted(i))
  {
    var b := Begin(conf, a, i);
    if !Changed(a, i) { TryAborts(conf, b, i.meth, i.verified, i.postponed); }
  }

  /** Exactly when the server gives up on a success that is in no list: when no current
      list starts with the method, or with the method and this device. */
  lemma AbortsExactly(conf: Config, a: Auth, es: seq<Success>, i: Input)
    requires ConfigOk(conf) && Required(conf) != [] && Inv(conf, a, es) && CanHandle(conf, a, i) && Honest(conf, a, i)
    ensures Handle(conf, a, i).reply.Aborted? <==>
              Counts(conf, a, i) && Unlisted(Current(conf, a, i), Accepted(i))
  {
    if i.Request? {
      BeginInv(conf, a, es, i);
      RequestAborts(conf, a, i);
    } else {
      FinishAbortsUnlisted(conf, a, Accepted(i), i.verified, i.postponed);
    }
  }

  /** Devices are configured for keyboard-interactive only. */
  predicate OnlyKbdintDevices(conf: Config) {
    forall j, t :: 0 <= j < |Retained(conf)| && t in Items(Retained(conf)[j]) && ':' in t ==>
      NamePart(t) == "keyboard-interactive"
  }

  lemma {:induction false} RemainderWithin(ts: seq<string>, es: seq<Success>)
    ensures forall t :: t in Remainder(ts, es) ==> t in ts
    decreases |es|
  {
    if es != [] { RemainderWithin(ts, es[..|es| - 1]); }
  }

  lemma {:induction false} NameBeforeColon(m: string, rest: string)
    requires ':' !in m
    ensures NamePart(m + ":" + rest) == m
  {
    var t := m + ":" + rest;
    if m != "" {
      NameBeforeColon(m[1..], rest);
      assert t[1..] == m[1..] + ":" + rest;
    }
  }

  /** A list that lets the method be tried also starts with it. */
  lemma {:induction false} AllowedIsListed(conf: Config, s: string, j: nat, es: seq<Success>, e: Success)
    requires ConfigOk(conf) && OnlyKbdintDevices(conf) && Named(e) && Pending(s)
    requires j < |Retained(conf)| && Items(s) == Remainder(Items(Retained(conf)[j]), es)
    requires e.sub.None? ==> e.meth in conf.enabled && e.meth != "keyboard-interactive"
    requires ListStartsWith(s, e.meth, e.sub) != MatchNone
    ensures ListStartsWith(s, e.meth, e.sub) in {MatchMethod, MatchBoth}
  {
    StartsWithIsItemMatch(s, e.meth, e.sub);
    var h := Head(s);
    assert Items(s)[0] == h;
    RemainderWithin(Items(Retained(conf)[j]), es);
    PrefixBeforeColon(h, e.meth);
    if e.sub.None? && e.meth + ":" <= h {
      assert h == e.meth + ":" + h[|e.meth| + 1..];
      assert ':' in h;
      NameBeforeColon(e.meth, h[|e.meth| + 1..]);
    }
  }

  lemma CountedIsListed(conf: Config, a: Auth, es: seq<Success>, i: Input)
    requires ConfigOk(conf) && Required(conf) != [] && Inv(conf, a, es) && CanHandle(conf, a, i)
    requires OnlyKbdintDevices(conf) && Counts(conf, a, i)
    ensures !Unlisted(Current(conf, a, i), Accepted(i))
  {
    var e, lists := Accepted(i), Current(conf, a, i);
    assert ListsInv(conf, lists, es) by { if i.Request? { BeginInv(conf, a, es, i); } }
    assert Allowed(conf, lists, e);
    assert i.Request? ==> i.meth in conf.enabled && i.verified && i.meth != "keyboard-interactive";
    assert Named(e);
    var j :| 0 <= j < |lists| && ListStartsWith(lists[j], e.meth, e.sub) != MatchNone;
    AllowedIsListed(conf, lists[j], j, es, e);
  }

  lemma NeverAborts(conf: Config, a: Auth, es: seq<Success>, i: Input, a': Auth, r: Reply)
    requires ConfigOk(conf) && Required(conf) != [] && Inv(conf, a, es) && CanHandle(conf, a, i) && Honest(conf, a, i)
    requires OnlyKbdintDevices(conf) && Handle(conf, a, i) == Result(a', r)
    ensures !r.Aborted?
  {
    AbortsExactly(conf, a, es, i);
    if Counts(conf, a, i) { CountedIsListed(conf, a, es, i); }
  }

  /** With devices configured for keyboard-interactive only, no run ever reaches the
      "method not in AuthenticationMethods" abort. */
  lemma NoRunAborts(conf: Config, states: seq<Auth>, ins: seq<Input>, rs: seq<Reply>, k: nat)
    requires ConfigOk(conf) && Required(conf) != [] && Run(conf, states, ins, rs) && k < |ins|
    requires OnlyKbdintDevices(conf) && Honest(conf, states[k], ins[k])
    ensures !rs[k].Aborted?
  {
    RunInv(conf, states, ins, rs, k);
    assert Exchange(conf, states, ins, rs, k);
    NeverAborts(conf, states[k], Successes(conf, states, ins, k), ins[k], states[k + 1], rs[k]);
  }

  /** Without that restriction it is reached: a list that asks for a device of any other
      method lets the method be tried, and then has no place for its success. */
  lemma DeviceItemAborts(conf: Config, m: string, device: string, user: string)
    requires ConfigOk(conf) && conf.maxTries > 0 && m in conf.enabled && m != "keyboard-interactive"
    requires NoComma(device) && conf.lists == [m + ":" + device]
    ensures Handle(conf, Start, Request(m, true, false, true, user, "ssh-connection")).reply.Aborted?
  {
    var t := m + ":" + device;
    var i := Request(m, true, false, true, user, "ssh-connection");
    assert t[|m|] == ':' && ':' in t && ':' !in "any";
    HeadLenIs(t, |t|);
    NameBeforeColon(m, device);
    assert Split(t) == [t];
    assert Retain([t][1..], conf.enabled) == [];
    assert Retained(conf) == [t];
    StartsWithIsItemMatch(t, m, None);
    assert m + ":" <= t && t != m;
    var b := Begin(conf, Start, i);
    assert ListStartsWith(b.lists[0], m, None) == MatchPartial;
    AbortsExactly(conf, Start, [], i);
  }
}
