/** Comma-separated lists, as strsep(3) takes them apart. */
module Lists {

  predicate NoComma(s: string) { ',' !in s }

  /** The length of the first item: up to the first comma or the end. */
  function HeadLen(s: string): (n: nat)
    ensures n <= |s|
  {
    if s == "" || s[0] == ',' then 0 else 1 + HeadLen(s[1..])
  }

  lemma {:induction false} HeadLenStops(s: string)
    ensures NoComma(s[..HeadLen(s)])
    ensures HeadLen(s) < |s| ==> s[HeadLen(s)] == ','
  {
    if s != "" && s[0] != ',' {
      HeadLenStops(s[1..]);
      assert s[..HeadLen(s)] == [s[0]] + s[1..][..HeadLen(s[1..])];
    }
  }

  function Head(s: string): string { s[..HeadLen(s)] }

  /** All items; an empty string has one empty item. */
  function Split(s: string): (r: seq<string>)
    ensures |r| >= 1 && r[0] == Head(s)
    decreases |s|
  {
    if HeadLen(s) == |s| then [s] else [Head(s)] + Split(s[HeadLen(s) + 1..])
  }

  /** Putting the items back together. */
  function Join(ts: seq<string>): string {
    if ts == [] then "" else if |ts| == 1 then ts[0] else ts[0] + "," + Join(ts[1..])
  }

  lemma {:induction false} HeadLenIs(s: string, n: nat)
    requires n <= |s| && NoComma(s[..n]) && (n < |s| ==> s[n] == ',')
    ensures HeadLen(s) == n
  {
    if n > 0 {
      assert s[0] in s[..n];
      assert s[1..][..n - 1] == s[..n][1..];
      HeadLenIs(s[1..], n - 1);
    }
  }

  lemma {:induction false} SplitTail(s: string)
    requires HeadLen(s) < |s|
    ensures Split(s)[1..] == Split(s[HeadLen(s) + 1..])
  {
    var rest := Split(s[HeadLen(s) + 1..]);
    assert Split(s) == [Head(s)] + rest;
    assert ([Head(s)] + rest)[1..] == rest;
  }

  lemma {:induction false} JoinCons(h: string, ts: seq<string>)
    requires ts != []
    ensures Join([h] + ts) == h + "," + Join(ts)
  {
    assert ([h] + ts)[1..] == ts;
  }

  lemma CutAt(s: string, n: nat)
    requires n < |s| && s[n] == ','
    ensures s == s[..n] + "," + s[n + 1..]
  {
    assert s == s[..n] + [s[n]] + s[n + 1..];
  }

  lemma {:induction false} JoinSplit(s: string)
    ensures Join(Split(s)) == s
    decreases |s|
  {
    if HeadLen(s) < |s| {
      JoinSplit(s[HeadLen(s) + 1..]);
      JoinCons(Head(s), Split(s[HeadLen(s) + 1..]));
      HeadLenStops(s);
      CutAt(s, HeadLen(s));
    }
  }

  lemma {:induction false} SplitJoin(ts: seq<string>)
    requires ts != [] && forall t :: t in ts ==> NoComma(t)
    ensures Split(Join(ts)) == ts
  {
    var s := Join(ts);
    assert ts[0] in ts;
    if |ts| == 1 {
      assert s[..|s|] == s == ts[0];
      HeadLenIs(s, |s|);
    } else {
      var n := |ts[0]|;
      var rest := Join(ts[1..]);
      assert s == ts[0] + "," + rest;
      assert s[..n] == ts[0] && s[n] == ',' && s[n + 1..] == rest;
      HeadLenIs(s, n);
      SplitJoin(ts[1..]);
    }
  }
}
