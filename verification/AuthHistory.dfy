/** What the server answers, told from the configuration, the inputs and the answers so far alone:
    no counters, no lists that are edited. */
module AuthHistory {
  import opened Lists
  import opened AuthMethods
  import opened AuthSpec
  import opened AuthRuns
  import opened Wrappers

  // ---- the reference -------------------------------------------------------------------------------

  /** No AuthenticationMethods, or just "any". */
  predicate NoLists(conf: Config) { conf.lists == [] || conf.lists == ["any"] }

  /** An item of a list names an enabled method, perhaps with a device. */
  predicate Names(conf: Config, t: string) { exists m :: m in conf.enabled && (t == m || m + ":" <= t) }

  predicate Usable(conf: Config, l: string) { l != "" && forall t :: t in Split(l) ==> Names(conf, t) }

  /** A configured list that can be satisfied at all. */
  predicate Counted(conf: Config, l: string) { !NoLists(conf) && l in conf.lists && Usable(conf, l) }

  /** What an input proves if it is verified. */
  function Proof(i: Input): Success {
    if i.Request? then Success(i.meth, None) else Success("keyboard-interactive", Some(i.device))
  }

  /** The methods that have succeeded in part, in order. */
  function Partials(ins: seq<Input>, rs: seq<Reply>, k: nat): seq<Success>
    requires k <= |ins| && k <= |rs|
  {
    if k == 0 then []
    else Partials(ins, rs, k - 1) + if rs[k - 1] == Refused(true) then [Proof(ins[k - 1])] else []
  }

  /** The failures that count: all but a "none" that comes first. */
  function Strikes(ins: seq<Input>, rs: seq<Reply>, k: nat): nat
    requires k <= |ins| && k <= |rs|
  {
    if k == 0 then 0
    else Strikes(ins, rs, k - 1) + if rs[k - 1] == Refused(false) && !FreeNoneAt(ins, k - 1) then 1 else 0
  }

  predicate FreeNoneAt(ins: seq<Input>, k: nat)
    requires k < |ins|
  {
    k == 0 && ins[0].Request? && ins[0].meth == "none"
  }

  /** What is left of a list begins with the method, or with a device of the method. */
  predicate Next(l: string, es: seq<Success>, meth: string) {
    var left := Remainder(Split(l), es);
    left != [] && (left[0] == meth || meth + ":" <= left[0])
  }

  ghost predicate Wanted(conf: Config, es: seq<Success>, meth: string) {
    NoLists(conf) || exists l :: Counted(conf, l) && Next(l, es, meth)
  }

  /** Request k had its method run. */
  ghost predicate Ran(conf: Config, ins: seq<Input>, rs: seq<Reply>, k: nat)
    requires k < |ins| && k <= |rs|
    decreases k, 1
  {
    && ins[k].Request? && ins[k].meth in conf.enabled && Strikes(ins, rs, k) < conf.maxTries
    && Wanted(conf, Partials(ins, rs, k), ins[k].meth)
    && (ins[k].meth == "none" ==> !NoneSpent(conf, ins, rs, k))
  }

  /** "none" is run once at most. */
  ghost predicate NoneSpent(conf: Config, ins: seq<Input>, rs: seq<Reply>, k: nat)
    requires k <= |ins| && k <= |rs|
    decreases k, 0
  {
    k > 0 && (NoneSpent(conf, ins, rs, k - 1)
              || (ins[k - 1].Request? && ins[k - 1].meth == "none" && Ran(conf, ins, rs, k - 1)))
  }

  /** Some list is an ordered subsequence of what succeeded. */
  ghost predicate Complete(conf: Config, es: seq<Success>) {
    exists l :: Counted(conf, l) && Subsequence(Split(l), es)
  }

  /** Some list has been waiting for this. */
  ghost predicate Listed(conf: Config, es: seq<Success>, e: Success) {
    exists l :: Counted(conf, l) && (var left := Remainder(Split(l), es); left != [] && Satisfies(e, left[0]))
  }

  /** The user exists and asked for the only service there is. */
  predicate ValidUser(ins: seq<Input>)
    requires ins != []
  {
    ins[0].Request? && ins[0].known && ins[0].service == "ssh-connection"
  }

  /** The server hangs up without trying anything. */
  ghost predicate HangsUp(conf: Config, ins: seq<Input>, k: nat)
    requires k < |ins|
  {
    if k == 0 then !NoLists(conf) && forall l :: l in conf.lists ==> !Usable(conf, l)
    else ins[k].Request? && ins[0].Request? && (ins[k].user != ins[0].user || ins[k].service != ins[0].service)
  }

  /** The answer once the method has been run, or not. */
  ghost function Outcome(conf: Config, ins: seq<Input>, rs: seq<Reply>, k: nat, proved: bool, waiting: bool): Reply
    requires k < |ins| && k <= |rs|
  {
    var es := Partials(ins, rs, k);
    if proved && (waiting || !ValidUser(ins)) then Aborted
    else if proved && (NoLists(conf) || Complete(conf, es + [Proof(ins[k])])) then Granted
    else if proved then (if Listed(conf, es, Proof(ins[k])) then Refused(true) else Aborted)
    else if waiting then NoReply
    else if Strikes(ins, rs, k) + (if FreeNoneAt(ins, k) then 0 else 1) < conf.maxTries then Refused(false)
    else Disconnected
  }

  /** The answer to input k. */
  ghost function Answer(conf: Config, ins: seq<Input>, rs: seq<Reply>, k: nat): Reply
    requires k < |ins| && k <= |rs|
  {
    var ran := ins[k].Response? || Ran(conf, ins, rs, k);
    if HangsUp(conf, ins, k) then Disconnected
    else Outcome(conf, ins, rs, k, ran && ins[k].verified, ran && ins[k].postponed)
  }

  // ---- the lists -----------------------------------------------------------------------------------

  lemma NameIsNamed(conf: Config, t: string)
    requires ConfigOk(conf)
    ensures NamePart(t) in conf.enabled <==> Names(conf, t)
  {
    NamePartSplits(t);
    if m :| m in conf.enabled && (t == m || m + ":" <= t) {
      if t == m {
        NameWithoutColon(m);
      } else {
        PrefixBeforeColon(t, m);
        assert t == m + ":" + t[|m| + 1..];
        NameBeforeColon(m, t[|m| + 1..]);
      }
    }
  }

  lemma {:induction false} NamePartSplits(t: string)
    ensures NamePart(t) == t || NamePart(t) + ":" <= t
  {
    if t != "" && t[0] != ':' {
      NamePartSplits(t[1..]);
      if NamePart(t[1..]) + ":" <= t[1..] {
        assert [t[0]] + (NamePart(t[1..]) + ":") <= [t[0]] + t[1..];
        assert [t[0]] + (NamePart(t[1..]) + ":") == NamePart(t) + ":";
      }
      assert t == [t[0]] + t[1..];
    }
  }

  lemma {:induction false} NameWithoutColon(m: string)
    requires ':' !in m
    ensures NamePart(m) == m
  {
    if m != "" { NameWithoutColon(m[1..]); }
  }

  lemma UsableIsValid(conf: Config, l: string)
    requires ConfigOk(conf)
    ensures MethodsValid(l, conf.enabled) <==> Usable(conf, l)
  {
    forall t | t in Split(l) ensures NamePart(t) in conf.enabled <==> Names(conf, t) { NameIsNamed(conf, t); }
  }

  /** The retained lists are the usable ones. */
  lemma {:induction false} RetainedAre(conf: Config, lists: seq<string>, l: string)
    requires ConfigOk(conf)
    ensures l in Retain(lists, conf.enabled) <==> l in lists && Usable(conf, l)
  {
    if lists != [] {
      UsableIsValid(conf, lists[0]);
      RetainedAre(conf, lists[1..], l);
      assert lists == [lists[0]] + lists[1..];
    }
  }

  lemma CountedIsRetained(conf: Config, l: string)
    requires ConfigOk(conf)
    ensures l in Retained(conf) <==> Counted(conf, l)
  {
    RetainedAre(conf, Required(conf), l);
  }

  lemma RequiredIsLists(conf: Config)
    ensures Required(conf) == [] <==> NoLists(conf)
  {
  }

  /** A list that is left of a counted one. */
  lemma LeftOver(conf: Config, lists: seq<string>, es: seq<Success>, j: nat)
    requires ConfigOk(conf) && ListsInv(conf, lists, es) && j < |lists|
    ensures var l := Retained(conf)[j];
            && Counted(conf, l) && Remainder(Split(l), es) == Items(lists[j]) && Items(lists[j]) != []
            && Items(lists[j])[0] == Head(lists[j])
  {
    var l := Retained(conf)[j];
    assert l in Retained(conf);
    CountedIsRetained(conf, l);
    assert Items(l) == Split(l) && Pending(lists[j]);
  }

  lemma WhereRetained(conf: Config, l: string) returns (j: nat)
    requires ConfigOk(conf) && Counted(conf, l)
    ensures j < |Retained(conf)| && Retained(conf)[j] == l
  {
    CountedIsRetained(conf, l);
    j :| 0 <= j < |Retained(conf)| && Retained(conf)[j] == l;
  }

  lemma MatchIsNext(s: string, meth: string)
    requires NoComma(meth)
    ensures ListStartsWith(s, meth, None) != MatchNone <==> Head(s) == meth || meth + ":" <= Head(s)
  {
    StartsWithIsItemMatch(s, meth, None);
  }

  lemma WantedIsAllowed(conf: Config, lists: seq<string>, es: seq<Success>, meth: string)
    requires ConfigOk(conf) && NoComma(meth) && (!NoLists(conf) ==> ListsInv(conf, lists, es))
    ensures Allowed(conf, lists, Success(meth, None)) <==> Wanted(conf, es, meth)
  {
    RequiredIsLists(conf);
    if !NoLists(conf) {
      if Wanted(conf, es, meth) {
        var l :| Counted(conf, l) && Next(l, es, meth);
        var j := WhereRetained(conf, l);
        LeftOver(conf, lists, es, j);
        MatchIsNext(lists[j], meth);
      }
      if Allowed(conf, lists, Success(meth, None)) {
        var j :| 0 <= j < |lists| && ListStartsWith(lists[j], meth, None) != MatchNone;
        LeftOver(conf, lists, es, j);
        MatchIsNext(lists[j], meth);
        assert Next(Retained(conf)[j], es, meth);
      }
    }
  }

  lemma ListedIsHit(conf: Config, lists: seq<string>, es: seq<Success>, e: Success)
    requires ConfigOk(conf) && ListsInv(conf, lists, es)
    ensures AnyHit(lists, 0, e) <==> Listed(conf, es, e)
  {
    if AnyHit(lists, 0, e) {
      var j :| 0 <= j < |lists| && Hits(lists[j], e);
      LeftOver(conf, lists, es, j);
    }
    if Listed(conf, es, e) {
      var l :| Counted(conf, l) && (var left := Remainder(Split(l), es); left != [] && Satisfies(e, left[0]));
      var j := WhereRetained(conf, l);
      LeftOver(conf, lists, es, j);
      assert Hits(lists[j], e);
    }
  }

  lemma CompleteIsSatisfied(conf: Config, es: seq<Success>)
    requires ConfigOk(conf)
    ensures Satisfied(conf, es) <==> Complete(conf, es)
  {
    RetainedPending(conf);
    if Satisfied(conf, es) {
      var j :| 0 <= j < |Retained(conf)| && Subsequence(Items(Retained(conf)[j]), es);
      LeftOver(conf, Retained(conf), [], j);
    }
    if Complete(conf, es) {
      var l :| Counted(conf, l) && Subsequence(Split(l), es);
      var j := WhereRetained(conf, l);
      LeftOver(conf, Retained(conf), [], j);
      assert Items(Retained(conf)[j]) == Split(l);
    }
  }

  lemma NothingUsable(conf: Config)
    requires ConfigOk(conf)
    ensures Retained(conf) == [] <==> NoLists(conf) || forall l :: l in conf.lists ==> !Usable(conf, l)
  {
    RequiredIsLists(conf);
    if l :| !NoLists(conf) && l in conf.lists && Usable(conf, l) { CountedIsRetained(conf, l); }
    if Retained(conf) != [] {
      assert Retained(conf)[0] in Retained(conf);
      CountedIsRetained(conf, Retained(conf)[0]);
    }
  }

  // ---- the machine keeps to it ---------------------------------------------------------------------

  /** What the machine remembers is what the history tells. */
  ghost predicate Remembers(conf: Config, a: Auth, ins: seq<Input>, rs: seq<Reply>, k: nat)
    requires k <= |ins| && k <= |rs| && ins != []
  {
    && a.attempt > 0 && a.failures == Strikes(ins, rs, k) && a.valid == ValidUser(ins)
    && (a.noneUsed <==> NoneSpent(conf, ins, rs, k))
    && (!NoLists(conf) ==> ListsInv(conf, a.lists, Partials(ins, rs, k)))
  }

  ghost predicate Told(conf: Config, a: Auth, ins: seq<Input>, rs: seq<Reply>, k: nat)
    requires k <= |ins| && k <= |rs|
  {
    if k == 0 then a == Start
    else
      && Remembers(conf, a, ins, rs, k) && a.failures < conf.maxTries
      && ins[0].Request? && a.user == ins[0].user && a.service == ins[0].service
      && (NoLists(conf) || Retained(conf) != [])
  }

  /** A success: granted, counted or refused by the lists alone. */
  lemma ProvedTold(conf: Config, a: Auth, es: seq<Success>, e: Success)
    requires ConfigOk(conf) && Named(e) && a.valid && a.failures < conf.maxTries
    requires !NoLists(conf) ==> ListsInv(conf, a.lists, es)
    ensures var r := Finish(conf, a, e, true, false);
            && r.reply == (if NoLists(conf) || Complete(conf, es + [e]) then Granted
                           else if Listed(conf, es, e) then Refused(true) else Aborted)
            && (r.reply.Refused? ==> r.a == a.(lists := r.a.lists) && ListsInv(conf, r.a.lists, es + [e]))
  {
    RequiredIsLists(conf);
    if !NoLists(conf) {
      UpdateGrants(conf, a.lists, es, e);
      CompleteIsSatisfied(conf, es + [e]);
      UpdateFinds(a.lists, 0, e, false);
      ListedIsHit(conf, a.lists, es, e);
      if !UpdateLists(a.lists, e).complete { UpdateKeepsLists(conf, a.lists, es, e); }
    }
  }

  /** No success: nothing, or one more failure. */
  lemma UnprovedTold(conf: Config, a: Auth, e: Success, postponed: bool)
    ensures var r := Finish(conf, a, e, false, postponed);
            var f := a.failures + if a.attempt <= 1 && e.meth == "none" then 0 else 1;
            && r.reply == (if postponed then NoReply else if f < conf.maxTries then Refused(false) else Disconnected)
            && r.a == if postponed then a else a.(failures := f)
  {
  }

  /** The machine when it comes to finish input k. */
  ghost predicate Ready(conf: Config, c: Auth, ins: seq<Input>, rs: seq<Reply>, k: nat)
    requires k < |ins| && k < |rs|
  {
    && c.attempt > 0 && c.failures == Strikes(ins, rs, k) && c.valid == ValidUser(ins)
    && (c.noneUsed <==> NoneSpent(conf, ins, rs, k + 1))
    && (!NoLists(conf) ==> ListsInv(conf, c.lists, Partials(ins, rs, k)))
    && (c.attempt <= 1 && Proof(ins[k]).meth == "none" <==> FreeNoneAt(ins, k))
  }

  lemma FinishTold(conf: Config, c: Auth, ins: seq<Input>, rs: seq<Reply>, k: nat, v: bool, p: bool)
    requires ConfigOk(conf) && k < |ins| && k < |rs| && Ready(conf, c, ins, rs, k)
    requires v ==> Named(Proof(ins[k]))
    requires v || p ==> c.failures < conf.maxTries
    requires rs[k] == Finish(conf, c, Proof(ins[k]), v, p).reply
    ensures rs[k] == Outcome(conf, ins, rs, k, v, p)
    ensures var a' := Finish(conf, c, Proof(ins[k]), v, p).a;
            GoesOn(rs[k]) ==> Remembers(conf, a', ins, rs, k + 1) && a'.failures < conf.maxTries
                              && a'.user == c.user && a'.service == c.service
  {
    var es := Partials(ins, rs, k);
    if v {
      if !p && c.valid { ProvedTold(conf, c, es, Proof(ins[k])); }
    } else {
      UnprovedTold(conf, c, Proof(ins[k]), p);
      assert es + [] == es;
    }
  }

  lemma RanIsTried(conf: Config, b: Auth, ins: seq<Input>, rs: seq<Reply>, k: nat)
    requires ConfigOk(conf) && k < |ins| && k < |rs| && ins[k].Request? && Remembers(conf, b, ins, rs, k)
    ensures Tried(conf, b, ins[k].meth) <==> Ran(conf, ins, rs, k)
    ensures AfterTry(conf, b, ins[k].meth).noneUsed <==> NoneSpent(conf, ins, rs, k + 1)
  {
    if ins[k].meth in conf.enabled { WantedIsAllowed(conf, b.lists, Partials(ins, rs, k), ins[k].meth); }
  }

  /** The machine at the start of a request. */
  lemma BeginTold(conf: Config, a: Auth, ins: seq<Input>, rs: seq<Reply>, k: nat)
    requires ConfigOk(conf) && k < |ins| && k < |rs| && ins[k].Request? && Told(conf, a, ins, rs, k)
    ensures Remembers(conf, Begin(conf, a, ins[k]), ins, rs, k)
    ensures Begin(conf, a, ins[k]).attempt > 1 <==> k > 0
    ensures Begin(conf, a, ins[k]).user == ins[0].user && Begin(conf, a, ins[k]).service == ins[0].service
    ensures Changed(a, ins[k]) || NothingLeft(conf, Begin(conf, a, ins[k])) <==> HangsUp(conf, ins, k)
  {
    RetainedPending(conf);
    RequiredIsLists(conf);
    NothingUsable(conf);
  }

  lemma RequestTold(conf: Config, a: Auth, ins: seq<Input>, rs: seq<Reply>, k: nat)
    requires ConfigOk(conf) && k < |ins| && k < |rs| && ins[k].Request? && Told(conf, a, ins, rs, k)
    requires rs[k] == Handle(conf, a, ins[k]).reply
    ensures rs[k] == Answer(conf, ins, rs, k)
    ensures GoesOn(rs[k]) ==> Told(conf, Handle(conf, a, ins[k]).a, ins, rs, k + 1)
  {
    var i := ins[k];
    var b := Begin(conf, a, i);
    BeginTold(conf, a, ins, rs, k);
    if !HangsUp(conf, ins, k) {
      RanIsTried(conf, b, ins, rs, k);
      var t, c := Tried(conf, b, i.meth), AfterTry(conf, b, i.meth);
      assert Ready(conf, c, ins, rs, k);
      FinishTold(conf, c, ins, rs, k, t && i.verified, t && i.postponed);
      NothingUsable(conf);
    }
  }

  lemma ResponseTold(conf: Config, a: Auth, ins: seq<Input>, rs: seq<Reply>, k: nat)
    requires ConfigOk(conf) && k < |ins| && k < |rs| && ins[k].Response? && Told(conf, a, ins, rs, k)
    requires CanHandle(conf, a, ins[k]) && rs[k] == Handle(conf, a, ins[k]).reply
    ensures rs[k] == Answer(conf, ins, rs, k)
    ensures GoesOn(rs[k]) ==> Told(conf, Handle(conf, a, ins[k]).a, ins, rs, k + 1)
  {
    assert Proof(ins[k]) == Accepted(ins[k]) && Named(Proof(ins[k]));
    assert NoneSpent(conf, ins, rs, k + 1) == NoneSpent(conf, ins, rs, k);
    assert Ready(conf, a, ins, rs, k);
    FinishTold(conf, a, ins, rs, k, ins[k].verified, ins[k].postponed);
  }

  lemma {:induction false} RunTold(conf: Config, states: seq<Auth>, ins: seq<Input>, rs: seq<Reply>, k: nat)
    requires ConfigOk(conf) && Run(conf, states, ins, rs) && k < |ins|
    ensures Told(conf, states[k], ins, rs, k)
  {
    if k > 0 {
      RunTold(conf, states, ins, rs, k - 1);
      AnswerAt(conf, states, ins, rs, k - 1);
    }
  }

  lemma AnswerAt(conf: Config, states: seq<Auth>, ins: seq<Input>, rs: seq<Reply>, k: nat)
    requires ConfigOk(conf) && Run(conf, states, ins, rs) && k < |ins| && Told(conf, states[k], ins, rs, k)
    ensures rs[k] == Answer(conf, ins, rs, k)
    ensures k < |ins| - 1 ==> Told(conf, states[k + 1], ins, rs, k + 1)
  {
    assert Exchange(conf, states, ins, rs, k);
    if ins[k].Request? { RequestTold(conf, states[k], ins, rs, k); } else { ResponseTold(conf, states[k], ins, rs, k); }
  }

  /** In every run, under every configuration, every answer is the one the history calls for. */
  lemma {:induction false} EveryAnswer(conf: Config, states: seq<Auth>, ins: seq<Input>, rs: seq<Reply>, k: nat)
    requires ConfigOk(conf) && Run(conf, states, ins, rs) && k < |ins|
    ensures rs[k] == Answer(conf, ins, rs, k)
  {
    RunTold(conf, states, ins, rs, k);
    AnswerAt(conf, states, ins, rs, k);
  }

  /** In particular without lists: access for a verified method that was run for a valid user, and
      for nothing else. */
  lemma {:induction false} GrantedWithoutLists(conf: Config, states: seq<Auth>, ins: seq<Input>, rs: seq<Reply>, k: nat)
    requires ConfigOk(conf) && NoLists(conf) && Run(conf, states, ins, rs) && k < |ins|
    ensures rs[k].Granted? <==>
              && !HangsUp(conf, ins, k) && ins[k].verified && !ins[k].postponed && ValidUser(ins)
              && (ins[k].Response? || Ran(conf, ins, rs, k))
  {
    RunTold(conf, states, ins, rs, k);
    EveryAnswer(conf, states, ins, rs, k);
  }

  // ---- a configuration with two factors ------------------------------------------------------------

  const KBDINT := "keyboard-interactive"

  lemma {:induction false} TwoItems(m: string, t: string)
    requires NoComma(m) && NoComma(t)
    ensures Split(m + "," + t) == [m, t]
  {
    assert [m, t][1..] == [t] && Join([t]) == t && Join([m, t]) == m + "," + t;
    SplitJoin([m, t]);
  }

  /** A method and then a keyboard-interactive device are required. */
  predicate WantsTwo(conf: Config, m: string, d: string) {
    && ConfigOk(conf) && conf.maxTries > 0 && m in conf.enabled && KBDINT in conf.enabled && m != KBDINT && NoComma(d)
    && conf.lists == [m + "," + (KBDINT + ":" + d)]
  }

  /** The first alone is a partial success. */
  lemma {:induction false} FirstFactor(conf: Config, m: string, d: string, states: seq<Auth>, ins: seq<Input>,
                                       rs: seq<Reply>)
    requires WantsTwo(conf, m, d) && Run(conf, states, ins, rs) && ins != []
    requires ins[0].Request? && ins[0].meth == m && ins[0].verified && !ins[0].postponed && ValidUser(ins)
    ensures rs[0] == Refused(true)
  {
    var l, t := m + "," + (KBDINT + ":" + d), KBDINT + ":" + d;
    TwoItems(m, t);
    TwoUsable(conf, m, d);
    EveryAnswer(conf, states, ins, rs, 0);
    var e := Success(m, None);
    assert [] + [e] == [e];
    OneStruck(m, t, e);
    assert Next(l, [], m);
    FirstIsNotAll(conf, l, m, t, e);
  }

  /** The two in this order are answered by a partial success and by access. */
  lemma {:induction false} TwoFactors(conf: Config, m: string, d: string, user: string, states: seq<Auth>,
                                      rs: seq<Reply>)
    requires WantsTwo(conf, m, d)
    requires Run(conf, states, [Request(m, true, false, true, user, "ssh-connection"), Response(d, true, false)], rs)
    ensures rs == [Refused(true), Granted]
  {
    var ins := [Request(m, true, false, true, user, "ssh-connection"), Response(d, true, false)];
    FirstFactor(conf, m, d, states, ins, rs);
    EveryAnswer(conf, states, ins, rs, 1);
    SecondFactor(conf, m, d, ins, rs);
  }

  /** After the first the second is what the list still asks for. */
  lemma {:induction false} SecondFactor(conf: Config, m: string, d: string, ins: seq<Input>, rs: seq<Reply>)
    requires WantsTwo(conf, m, d) && |ins| == |rs| == 2 && rs[0] == Refused(true)
    requires ins[0].Request? && ins[0] == Request(m, true, false, true, ins[0].user, "ssh-connection")
    requires ins[1] == Response(d, true, false) && !HangsUp(conf, ins, 1)
    ensures Answer(conf, ins, rs, 1) == Granted
  {
    var e, e' := Success(m, None), Success(KBDINT, Some(d));
    assert Partials(ins, rs, 1) == [] + [e] == [e] by { assert Partials(ins, rs, 0) == []; }
    assert [e] + [e'] == [e, e'];
    TwoItems(m, KBDINT + ":" + d);
    TwoUsable(conf, m, d);
    BothAreAll(m, KBDINT + ":" + d, e, e');
  }

  lemma {:induction false} AfterFirst(conf: Config, m: string, d: string, ins: seq<Input>, rs: seq<Reply>, a: Auth)
    requires WantsTwo(conf, m, d) && |ins| == |rs| == 1 && rs[0] == Refused(true) && Told(conf, a, ins, rs, 1)
    requires ins[0].meth == m
    ensures |a.lists| == 1 && Head(a.lists[0]) == KBDINT + ":" + d
  {
    var e, t := Success(m, None), KBDINT + ":" + d;
    assert Partials(ins, rs, 1) == [] + [e] == [e] by { assert Partials(ins, rs, 0) == []; }
    TwoItems(m, t);
    TwoUsable(conf, m, d);
    OneStruck(m, t, e);
    OnlyList(conf, a.lists, [e], t);
  }

  /** After the first, no other device is even asked. */
  lemma {:induction false} OtherDevice(conf: Config, m: string, d: string, d': string, states: seq<Auth>,
                                       ins: seq<Input>, rs: seq<Reply>, v: bool, p: bool)
    requires WantsTwo(conf, m, d) && Run(conf, states, ins, rs) && |ins| == 1 && d' != d
    requires ins[0].Request? && ins[0].meth == m && ins[0].verified && !ins[0].postponed && ValidUser(ins)
    ensures !CanHandle(conf, states[1], Response(d', v, p))
  {
    FirstFactor(conf, m, d, states, ins, rs);
    TwoUsable(conf, m, d);
    assert Told(conf, states[1], ins, rs, 1) by {
      RunTold(conf, states, ins, rs, 0);
      assert Exchange(conf, states, ins, rs, 0);
      RequestTold(conf, states[0], ins, rs, 0);
    }
    AfterFirst(conf, m, d, ins, rs, states[1]);
    NotAdmitted(conf, states[1], d, d', v, p);
  }

  lemma NotAdmitted(conf: Config, a: Auth, d: string, d': string, v: bool, p: bool)
    requires !NoLists(conf) && |a.lists| == 1 && Head(a.lists[0]) == KBDINT + ":" + d && d != d'
    ensures !CanHandle(conf, a, Response(d', v, p))
  {
    if NoComma(d') { DeviceIsNot(a.lists[0], d, d'); }
  }

  lemma DeviceIsNot(s: string, d: string, d': string)
    requires Head(s) == KBDINT + ":" + d && d != d' && NoComma(d')
    ensures ListStartsWith(s, KBDINT, Some(d')) == MatchNone
  {
    StartsWithIsItemMatch(s, KBDINT, Some(d'));
    var t, t' := KBDINT + ":" + d, KBDINT + ":" + d';
    assert t[|KBDINT| + 1..] == d && t'[|KBDINT| + 1..] == d';
    assert t[|KBDINT|] == ':' && ':' !in KBDINT;
  }

  lemma OnlyList(conf: Config, lists: seq<string>, es: seq<Success>, t: string)
    requires ConfigOk(conf) && ListsInv(conf, lists, es) && |conf.lists| == 1 && Counted(conf, conf.lists[0])
    requires Remainder(Split(conf.lists[0]), es) == [t]
    ensures |lists| == 1 && Head(lists[0]) == t
  {
    var j := WhereRetained(conf, conf.lists[0]);
    LeftOver(conf, lists, es, j);
    assert Retain(conf.lists[1..], conf.enabled) == [];
  }

  lemma TwoUsable(conf: Config, m: string, d: string)
    requires ConfigOk(conf) && m in conf.enabled && KBDINT in conf.enabled && NoComma(d)
    requires conf.lists == [m + "," + (KBDINT + ":" + d)]
    ensures Counted(conf, conf.lists[0])
  {
    var l := conf.lists[0];
    TwoItems(m, KBDINT + ":" + d);
    assert l[|m|] == ',' && ',' !in "any";
    assert KBDINT + ":" <= KBDINT + ":" + d;
  }

  lemma OneStruck(m: string, t: string, e: Success)
    requires e == Success(m, None)
    ensures Remainder([m, t], []) == [m, t] && Remainder([m, t], [e]) == [t]
  {
    assert [e][..0] == [] && [m, t][1..] == [t];
  }

  lemma FirstIsNotAll(conf: Config, l: string, m: string, t: string, e: Success)
    requires ConfigOk(conf) && conf.lists == [l] && Split(l) == [m, t] && e == Success(m, None)
    ensures !Complete(conf, [e])
  {
    OneStruck(m, t, e);
    GreedyIsComplete([m, t], [e]);
  }

  lemma BothAreAll(m: string, t: string, e: Success, e': Success)
    requires e == Success(m, None) && e'.sub.Some? && t == e'.meth + ":" + e'.sub.value
    ensures Subsequence([m, t], [e, e'])
  {
    assert Embeds([0, 1], [m, t], [e, e']);
  }
}
