/** `struct Authctxt` as the mutable object the source has, and the code that edits its
    method lists and counters in place, each proved to do what AuthSpec says. */
module AuthObject {
  import opened Lists
  import opened AuthMethods
  import opened AuthSpec
  import opened AuthRuns
  import opened AuthHistory
  import opened Wrappers

  /** auth2_methods_valid with need_enable set: strsep through the list. */
  method CheckMethods(methods: string, enabled: set<string>) returns (ok: bool)
    ensures ok <==> MethodsValid(methods, enabled)
  {
    if methods == "" { return false; }
    var rest := Some(methods);
    ok := true;
    while rest.Some?
      invariant MethodsValid(methods, enabled) <==> (rest.Some? ==> AllEnabled(Split(rest.value), enabled))
      decreases if rest.Some? then 1 + |rest.value| else 0
    {
      var s := rest.value;
      var n := HeadLen(s);
      var item := s[..n];
      assert item == Split(s)[0] && item in Split(s);
      if NamePart(item) !in enabled { return false; }
      rest := if n == |s| then None else Some(s[n + 1..]);
    }
  }

  lemma {:induction false} RetainAppend(lists: seq<string>, i: nat, enabled: set<string>)
    requires i < |lists|
    ensures Retain(lists[..i + 1], enabled) ==
              Retain(lists[..i], enabled) + if MethodsValid(lists[i], enabled) then [lists[i]] else []
  {
    if i == 0 {
      assert lists[..1][1..] == [] && lists[..0] == [];
    } else {
      assert lists[..i + 1][1..] == lists[1..][..i] && lists[..i][1..] == lists[1..][..i - 1];
      RetainAppend(lists[1..], i - 1, enabled);
    }
  }

  class Authctxt {
    var attempt: nat
    var failures: nat
    var valid: bool
    var noneUsed: bool
    var authMethods: seq<string>
    var user: string
    var service: string

    ghost function View(): Auth
      reads this
    {
      Auth(attempt, failures, valid, noneUsed, authMethods, user, service)
    }

    constructor ()
      ensures View() == Start
    {
      attempt, failures, valid, noneUsed, authMethods := 0, 0, false, false, [];
      user, service := "", "";
    }

    /** auth2_setup_methods_lists; `options.auth_methods` is conf.lists. */
    method SetupMethodsLists(conf: Config) returns (ok: bool)
      modifies this`authMethods
      ensures authMethods == Retained(conf)
      ensures ok <==> Required(conf) == [] || Retained(conf) != []
    {
      var lists := conf.lists;
      if |lists| == 1 && lists[0] == "any" { lists := []; }
      assert lists == Required(conf) by { if |lists| == 1 { assert lists == [lists[0]]; } }
      authMethods := [];
      if |lists| == 0 { return true; }
      for i := 0 to |lists|
        invariant authMethods == Retain(lists[..i], conf.enabled)
      {
        RetainAppend(lists, i, conf.enabled);
        var usable := CheckMethods(lists[i], conf.enabled);
        if usable {
          authMethods := authMethods + [lists[i]];
        }
      }
      assert lists[..|lists|] == lists;
      ok := |authMethods| != 0;
    }

    /** remove_method on list i. */
    method RemoveMethodAt(i: nat, meth: string, sub: Option<string>) returns (removed: bool)
      requires i < |authMethods|
      modifies this`authMethods
      ensures removed == RemoveMethod(old(authMethods[i]), meth, sub).removed
      ensures authMethods == old(authMethods)[i := RemoveMethod(old(authMethods[i]), meth, sub).methods]
    {
      var omethods := authMethods[i];
      var m := ListStartsWith(omethods, meth, sub);
      if m != MatchMethod && m != MatchBoth {
        assert authMethods == authMethods[i := omethods];
        return false;
      }
      var p := |meth|;
      if sub.Some? && m == MatchBoth {
        p := p + 1 + |sub.value|;
      }
      if p < |omethods| && omethods[p] == ',' {
        p := p + 1;
      }
      authMethods := authMethods[i := omethods[p..]];
      removed := true;
    }

    /** auth2_update_methods_lists; `found` is false where the source calls fatal(). */
    method UpdateMethodsLists(e: Success) returns (complete: bool, found: bool)
      modifies this`authMethods
      ensures Update(authMethods, found, complete) == UpdateLists(old(authMethods), e)
    {
      found := false;
      var i := 0;
      while i < |authMethods|
        invariant i <= |authMethods|
        invariant UpdateFrom(authMethods, i, e, found) == UpdateLists(old(authMethods), e)
        decreases |authMethods| - i
      {
        ghost var before := authMethods;
        var removed := RemoveMethodAt(i, e.meth, e.sub);
        assert !removed ==> authMethods == before;
        if removed {
          found := true;
          if authMethods[i] == "" {
            return true, true;
          }
        }
        i := i + 1;
      }
      complete := false;
    }

    /** userauth_finish. */
    method UserauthFinish(conf: Config, e: Success, authenticated: bool, postponed: bool) returns (reply: Reply)
      modifies this
      ensures Result(View(), reply) == Finish(conf, old(View()), e, authenticated, postponed)
    {
      var success, partial := authenticated, false;
      if !valid && success { return Aborted; }
      if success && postponed { return Aborted; }
      if success && Required(conf) != [] {
        var complete, found := UpdateMethodsLists(e);
        if !complete {
          if !found { return Aborted; }
          success, partial := false, true;
        }
      }
      if postponed { return NoReply; }
      if success { return Granted; }
      if !partial && (attempt > 1 || e.meth != "none") {
        failures := failures + 1;
      }
      if failures >= conf.maxTries { return Disconnected; }
      return Refused(partial);
    }

    /** auth2_method_allowed, as authmethod_lookup asks it. */
    method MethodAllowed(conf: Config, e: Success) returns (ok: bool)
      ensures ok <==> Allowed(conf, authMethods, e)
    {
      if Required(conf) == [] { return true; }
      for i := 0 to |authMethods|
        invariant forall j :: 0 <= j < i ==> ListStartsWith(authMethods[j], e.meth, e.sub) == MatchNone
      {
        if ListStartsWith(authMethods[i], e.meth, e.sub) != MatchNone { return true; }
      }
      return false;
    }

    /** The first half of input_userauth_request: the first one fixes user, service and lists,
        and a later one must not change them. */
    method BeginRequest(conf: Config, known: bool, user: string, service: string, ghost i: Input) returns (ok: bool)
      requires i.Request? && i.known == known && i.user == user && i.service == service
      modifies this
      ensures View() == Begin(conf, old(View()), i)
      ensures ok == (!Changed(old(View()), i) && !NothingLeft(conf, View()))
    {
      attempt := attempt + 1;
      ok := true;
      if attempt == 1 {
        this.user, this.service := user, service;
        valid := known && service == "ssh-connection";
        ok := SetupMethodsLists(conf);
      } else if user != this.user || service != this.service {
        ok := false;
      }
    }

    /** The second half: the method is tried if it is offered and tries are left.  `verified`
        and `postponed` are what its own handler would report. */
    method TryRequest(conf: Config, meth: string, verified: bool, postponed: bool) returns (reply: Reply)
      requires !NothingLeft(conf, View())
      modifies this
      ensures Result(View(), reply) == TryMethod(conf, old(View()), meth, verified, postponed)
    {
      var authenticated, waiting := false, false;
      var allowed := MethodAllowed(conf, Success(meth, None));
      if meth in conf.enabled && (meth == "none" ==> !noneUsed) && allowed && failures < conf.maxTries {
        if meth == "none" { noneUsed := true; }
        authenticated, waiting := verified, postponed;
      }
      assert View() == AfterTry(conf, old(View()), meth);
      reply := UserauthFinish(conf, Success(meth, None), authenticated, waiting);
    }

    /** input_userauth_request; `known` says whether the user may log in. */
    method InputUserauthRequest(conf: Config, meth: string, verified: bool, postponed: bool, known: bool,
                                user: string, service: string)
      returns (reply: Reply)
      modifies this
      ensures Result(View(), reply) ==
                Handle(conf, old(View()), Request(meth, verified, postponed, known, user, service))
    {
      var ok := BeginRequest(conf, known, user, service, Request(meth, verified, postponed, known, user, service));
      if !ok { return Disconnected; }
      reply := TryRequest(conf, meth, verified, postponed);
    }

    /** The end of input_userauth_info_response. */
    method InputUserauthInfoResponse(conf: Config, device: string, verified: bool, postponed: bool)
      returns (reply: Reply)
      modifies this
      ensures Result(View(), reply) == Handle(conf, old(View()), Response(device, verified, postponed))
    {
      reply := UserauthFinish(conf, Success("keyboard-interactive", Some(device)), verified, postponed);
    }
  }

  /** One input, by the handler for it. */
  method HandleInput(conf: Config, ctx: Authctxt, i: Input) returns (reply: Reply)
    modifies ctx
    ensures Result(ctx.View(), reply) == Handle(conf, old(ctx.View()), i)
  {
    match i
    case Request(meth, verified, postponed, known, user, service) =>
      reply := ctx.InputUserauthRequest(conf, meth, verified, postponed, known, user, service);
    case Response(device, verified, postponed) =>
      reply := ctx.InputUserauthInfoResponse(conf, device, verified, postponed);
  }

  lemma {:induction false} RunGoesOn(conf: Config, states: seq<Auth>, ins: seq<Input>, rs: seq<Reply>, a: Auth,
                                     i: Input, r: Reply)
    requires Run(conf, states, ins, rs) && (rs != [] ==> GoesOn(rs[|rs| - 1]))
    requires CanHandle(conf, states[|ins|], i) && Handle(conf, states[|ins|], i) == Result(a, r)
    ensures Run(conf, states + [a], ins + [i], rs + [r])
  {
    var states', ins', rs' := states + [a], ins + [i], rs + [r];
    forall k: nat | k < |ins'| ensures Exchange(conf, states', ins', rs', k) {
      if k < |ins| {
        assert Exchange(conf, states, ins, rs, k);
        ExchangeStays(conf, states, ins, rs, a, i, r, k);
      }
    }
  }

  lemma {:induction false} ExchangeStays(conf: Config, states: seq<Auth>, ins: seq<Input>, rs: seq<Reply>, a: Auth,
                                         i: Input, r: Reply, k: nat)
    requires |states| == |ins| + 1 && |rs| == |ins| && k < |ins| && Exchange(conf, states, ins, rs, k)
    requires GoesOn(rs[|rs| - 1])
    ensures Exchange(conf, states + [a], ins + [i], rs + [r], k)
  {
    var states', ins', rs' := states + [a], ins + [i], rs + [r];
    assert states'[k] == states[k] && states'[k + 1] == states[k + 1] && ins'[k] == ins[k] && rs'[k] == rs[k];
  }

  /** Whether the dialogue admits an input now. */
  method Admits(conf: Config, ctx: Authctxt, i: Input) returns (ok: bool)
    ensures ok == CanHandle(conf, ctx.View(), i)
  {
    match i
    case Request(meth, verified, _, _, _, _) => ok := meth == "keyboard-interactive" ==> !verified;
    case Response(device, _, _) =>
      var allowed := ctx.MethodAllowed(conf, Accepted(i));
      ok := ctx.attempt > 0 && NoComma(device) && allowed;
  }

  /** A connection: inputs are handled until one is not admitted or its reply ends the
      dialogue. `states` is the run it was. */
  method Dialogue(conf: Config, ctx: Authctxt, ins: seq<Input>) returns (rs: seq<Reply>, ghost states: seq<Auth>)
    requires ctx.View() == Start
    modifies ctx
    ensures |rs| <= |ins| && Run(conf, states, ins[..|rs|], rs) && states[|rs|] == ctx.View()
    ensures |rs| < |ins| ==> (rs != [] && !GoesOn(rs[|rs| - 1])) || !CanHandle(conf, ctx.View(), ins[|rs|])
  {
    rs, states := [], [ctx.View()];
    var n := 0;
    while n < |ins|
      invariant n <= |ins| && |rs| == n && Run(conf, states, ins[..n], rs) && states[n] == ctx.View()
      invariant rs != [] ==> GoesOn(rs[|rs| - 1])
    {
      var ok := Admits(conf, ctx, ins[n]);
      if !ok { return; }
      var reply := HandleInput(conf, ctx, ins[n]);
      RunGoesOn(conf, states, ins[..n], rs, ctx.View(), ins[n], reply);
      assert ins[..n + 1] == ins[..n] + [ins[n]];
      rs, states, n := rs + [reply], states + [ctx.View()], n + 1;
      assert rs[|rs| - 1] == reply && states[n] == ctx.View();
      if !GoesOn(reply) { return; }
    }
  }

  /** What a connection amounts to, under every configuration: every answer is the one that the
      inputs and answers before it call for, and the number of failure messages is bounded. */
  method Authenticate(conf: Config, ins: seq<Input>) returns (rs: seq<Reply>, ghost states: seq<Auth>)
    requires ConfigOk(conf)
    ensures |rs| <= |ins| && Run(conf, states, ins[..|rs|], rs)
    ensures forall k: nat :: k < |rs| ==> rs[k] == Answer(conf, ins[..|rs|], rs, k)
    ensures Refusals(rs) <= Left(Retained(conf)) + conf.maxTries
  {
    var ctx := new Authctxt();
    rs, states := Dialogue(conf, ctx, ins);
    forall k: nat | k < |rs| ensures rs[k] == Answer(conf, ins[..|rs|], rs, k) {
      EveryAnswer(conf, states, ins[..|rs|], rs, k);
    }
    FailureMessagesBounded(conf, states, ins[..|rs|], rs);
  }
}
