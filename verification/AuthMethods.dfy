/** The AuthenticationMethods lists: how a successful method is struck off the front
    of each comma-separated list, and what that amounts to on lists of names. */
module AuthMethods {
  import opened Lists
  import opened Wrappers

  datatype Match = MatchNone | MatchMethod | MatchBoth | MatchPartial

  /** At this position an item ends. */
  predicate Ends(s: string, p: nat)
    requires p <= |s|
  {
    p == |s| || s[p] == ','
  }

  function ListStartsWith(methods: string, meth: string, sub: Option<string>): Match {
    if !(meth <= methods) then MatchNone
    else
      var p := |meth|;
      if p < |methods| && methods[p] == ':' then
        if sub.None? then MatchPartial
        else
          var rest := methods[p + 1..];
          if !(sub.value <= rest) then MatchNone
          else if Ends(rest, |sub.value|) then MatchBoth else MatchNone
      else if Ends(methods, p) then MatchMethod else MatchNone
  }

  datatype Removal = Removal(removed: bool, methods: string)

  function RemoveMethod(methods: string, meth: string, sub: Option<string>): Removal {
    var m := ListStartsWith(methods, meth, sub);
    if m != MatchMethod && m != MatchBoth then Removal(false, methods)
    else
      var p := if sub.Some? && m == MatchBoth then |meth| + 1 + |sub.value| else |meth|;
      Removal(true, SkipItem(methods, p))
  }

  /** What is left after an item of p characters and its comma. */
  function SkipItem(methods: string, p: nat): string {
    var q := if p < |methods| && methods[p] == ',' then p + 1 else p;
    if q <= |methods| then methods[q..] else ""
  }

  // ---- the same on names ---------------------------------------------------------

  /** A method that succeeded, with the device it used. */
  datatype Success = Success(meth: string, sub: Option<string>)

  predicate Named(e: Success) {
    NoComma(e.meth) && (e.sub.Some? ==> NoComma(e.sub.value))
  }

  /** A list item asks for the method, or for the method and this very device. */
  predicate Satisfies(e: Success, item: string) {
    item == e.meth || (e.sub.Some? && item == e.meth + ":" + e.sub.value)
  }

  function ItemMatch(item: string, meth: string, sub: Option<string>): Match {
    if item == meth then MatchMethod
    else if meth + ":" <= item then
      if sub.None? then MatchPartial
      else if item == meth + ":" + sub.value then MatchBoth
      else MatchNone
    else MatchNone
  }

  function Items(s: string): seq<string> { if s == "" then [] else Split(s) }

  predicate NoEmptyItem(s: string) { forall t :: t in Items(s) ==> t != "" }

  lemma PrefixInHead(s: string, p: string)
    requires NoComma(p)
    ensures p <= s <==> p <= Head(s)
  {
    var n := HeadLen(s);
    HeadLenStops(s);
    if p <= s {
      assert forall i :: 0 <= i < |p| ==> s[i] == p[i];
      assert forall i :: 0 <= i < |p| ==> p[i] in p;
      assert |p| <= n;
    }
  }

  lemma PrefixBeforeColon(h: string, m: string)
    ensures m + ":" <= h <==> m <= h && |m| < |h| && h[|m|] == ':'
  {
    if m + ":" <= h {
      assert h[..|m|] == (m + ":")[..|m|] == m;
      assert h[|m|] == (m + ":")[|m|];
    }
  }

  /** After the colon, the rest of the string and the rest of the first item agree. */
  lemma {:induction false} AfterColon(s: string, p: nat, sub: string)
    requires p < HeadLen(s) && NoComma(sub)
    ensures var rest := s[p + 1..]; sub <= rest && Ends(rest, |sub|) <==> Head(s)[p + 1..] == sub
  {
    var n := HeadLen(s);
    var rest := s[p + 1..];
    HeadLenStops(s);
    assert rest[..n - p - 1] == s[..n][p + 1..];
    HeadLenIs(rest, n - p - 1);
    PrefixInHead(rest, sub);
    assert Head(rest) == Head(s)[p + 1..];
    if sub <= rest && Ends(rest, |sub|) {
      assert rest[..|sub|] == sub;
      HeadLenIs(rest, |sub|);
    }
  }

  /** The string test looks at the first item only. */
  lemma StartsWithIsItemMatch(s: string, meth: string, sub: Option<string>)
    requires Named(Success(meth, sub))
    ensures ListStartsWith(s, meth, sub) == ItemMatch(Head(s), meth, sub)
  {
    var h := Head(s);
    var n := HeadLen(s);
    var p := |meth|;
    HeadLenStops(s);
    PrefixInHead(s, meth);
    PrefixBeforeColon(h, meth);
    if meth <= h {
      assert h[..p] == meth;
      if p < n && s[p] == ':' {
        assert h == meth + ":" + h[p + 1..];
        if sub.Some? {
          AfterColon(s, p, sub.value);
          assert h == meth + ":" + sub.value <==> h[p + 1..] == sub.value;
        }
      } else if p < n {
        assert s[p] == h[p] && h[p] in h;
      }
    }
  }

  /** What a match says about the item, and how long it is. */
  lemma ItemMatchMeans(item: string, e: Success)
    ensures var m := ItemMatch(item, e.meth, e.sub);
            && (m == MatchMethod || m == MatchBoth <==> Satisfies(e, item))
            && (m == MatchMethod ==> |item| == |e.meth|)
            && (m == MatchBoth ==> e.sub.Some? && |item| == |e.meth| + 1 + |e.sub.value|)
  {
    if e.sub.Some? { assert e.meth + ":" <= e.meth + ":" + e.sub.value; }
  }

  lemma {:induction false} SkipHead(s: string)
    ensures var n := HeadLen(s); SkipItem(s, n) == if n < |s| then s[n + 1..] else ""
  {
    HeadLenStops(s);
  }

  lemma RemoveByMatch(s: string, e: Success, m: Match, n: nat)
    requires m == ListStartsWith(s, e.meth, e.sub)
    requires m == MatchMethod ==> n == |e.meth|
    requires m == MatchBoth ==> e.sub.Some? && n == |e.meth| + 1 + |e.sub.value|
    ensures RemoveMethod(s, e.meth, e.sub)
            == if m == MatchMethod || m == MatchBoth then Removal(true, SkipItem(s, n)) else Removal(false, s)
  {
  }

  lemma {:induction false} RemovedRest(s: string, e: Success)
    requires Named(e)
    ensures var r := RemoveMethod(s, e.meth, e.sub); var n := HeadLen(s);
            && r.removed == Satisfies(e, Head(s))
            && r.methods == (if !r.removed then s else if n < |s| then s[n + 1..] else "")
  {
    StartsWithIsItemMatch(s, e.meth, e.sub);
    ItemMatchMeans(Head(s), e);
    RemoveByMatch(s, e, ListStartsWith(s, e.meth, e.sub), |Head(s)|);
    SkipHead(s);
  }

  lemma {:induction false} TailHasItems(s: string)
    requires NoEmptyItem(s) && HeadLen(s) < |s|
    ensures s[HeadLen(s) + 1..] != "" && NoEmptyItem(s[HeadLen(s) + 1..])
    ensures Items(s)[1..] == Items(s[HeadLen(s) + 1..])
  {
    var rest := s[HeadLen(s) + 1..];
    SplitTail(s);
    assert Items(s)[1] in Items(s);
    assert Head(rest) == Split(s)[1..][0] == Items(s)[1];
    assert |Head(rest)| <= |rest|;
    assert forall t :: t in Split(rest) ==> t in Split(s);
  }

  /** Striking off a method removes the first item, or changes nothing. */
  lemma RemoveIsTail(s: string, e: Success)
    requires Named(e) && NoEmptyItem(s) && s != ""
    ensures RemoveMethod(s, e.meth, e.sub).removed == Satisfies(e, Items(s)[0])
    ensures Items(RemoveMethod(s, e.meth, e.sub).methods) ==
              if Satisfies(e, Items(s)[0]) then Items(s)[1..] else Items(s)
    ensures NoEmptyItem(RemoveMethod(s, e.meth, e.sub).methods)
  {
    RemovedRest(s, e);
    assert Items(s)[0] == Head(s);
    if HeadLen(s) < |s| {
      TailHasItems(s);
    } else {
      assert Items(s)[1..] == [] == Items("");
    }
  }
}
