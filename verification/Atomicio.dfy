/** Transferring a whole buffer through a system call that may move any part of it. */
module AtomicioSpec {
  import opened Ints

  type Positive = n: int | n >= 1 witness 1

  /** One answer of the system call, and of the progress callback that follows it. `Moved`
      may ask for more than is left: the call moves at least one and at most all bytes. */
  datatype Reply =
    | Interrupted(stop: bool)
    | Again
    | Failed
    | End
    | Moved(n: Positive, stop: bool)

  datatype Errno = OK | EINTR | EPIPE | EFAULT | EINVAL | EOTHER

  /** Either the function returned, or the replies ran out while it was still trying. */
  datatype Status = Returned(ret: nat, errno: Errno) | Waiting

  /** The plain contract: `done` bytes of n have gone through. What the function returns and how
      many bytes have gone through by then. */
  function Run(n: nat, done: nat, replies: seq<Reply>): (Status, nat)
    requires done <= n
    decreases |replies|
  {
    if done == n then (Returned(n, OK), n)
    else if replies == [] then (Waiting, done)
    else
      match replies[0]
      case Interrupted(stop) => if stop then (Returned(done, EINTR), done) else Run(n, done, replies[1..])
      case Again => Run(n, done, replies[1..])
      case Failed => (Returned(0, EOTHER), done)
      case End => (Returned(done, EPIPE), done)
      case Moved(k, stop) =>
        var done' := done + Min(k, n - done);
        if stop then (Returned(done', EINTR), done') else Run(n, done', replies[1..])
  }

  /** What follows from the contract: progress never goes back or past the end, a return value
      other than 0 is the exact count, and 0 hides a count only after a hard error. */
  lemma {:induction false} RunBounds(n: nat, done: nat, replies: seq<Reply>)
    requires done <= n
    ensures var (status, count) := Run(n, done, replies);
            && done <= count <= n
            && (status.Returned? ==> status.ret == count || (status.ret == 0 && status.errno == EOTHER))
            && (status.Returned? && status.errno == OK ==> count == n)
            && (status.Waiting? ==> count < n)
            && (status.Returned? ==> status.errno != EFAULT)
    decreases |replies|
  {
    if done < n && replies != [] {
      match replies[0]
      case Interrupted(stop) => if !stop { RunBounds(n, done, replies[1..]); }
      case Again => RunBounds(n, done, replies[1..]);
      case Failed =>
      case End =>
      case Moved(k, stop) => if !stop { RunBounds(n, done + Min(k, n - done), replies[1..]); }
    }
  }

  predicate Retry(r: Reply) { r.Again? || (r.Interrupted? && !r.stop) }

  function WithoutRetries(replies: seq<Reply>): seq<Reply> {
    if replies == [] then []
    else (if Retry(replies[0]) then [] else [replies[0]]) + WithoutRetries(replies[1..])
  }

  /** Interruptions and full buffers leave no trace. */
  lemma {:induction false} RetriesAreInvisible(n: nat, done: nat, replies: seq<Reply>)
    requires done <= n
    ensures Run(n, done, replies) == Run(n, done, WithoutRetries(replies))
    decreases |replies|
  {
    if done < n && replies != [] {
      var rest := WithoutRetries(replies[1..]);
      if Retry(replies[0]) {
        assert WithoutRetries(replies) == rest;
        RetriesAreInvisible(n, done, replies[1..]);
      } else {
        assert WithoutRetries(replies) == [replies[0]] + rest;
        assert WithoutRetries(replies)[1..] == rest;
        if replies[0].Moved? && !replies[0].stop {
          RetriesAreInvisible(n, done + Min(replies[0].n, n - done), replies[1..]);
        }
      }
    }
  }

  predicate OnlyTransfers(replies: seq<Reply>) {
    forall r :: r in replies ==> Retry(r) || (r.Moved? && !r.stop)
  }

  function Sum(replies: seq<Reply>): nat {
    if replies == [] then 0 else (if replies[0].Moved? then replies[0].n else 0) + Sum(replies[1..])
  }

  /** Short transfers add up: the whole buffer goes through exactly when enough was offered. */
  lemma {:induction false} TransfersAddUp(n: nat, done: nat, replies: seq<Reply>)
    requires done <= n && OnlyTransfers(replies)
    ensures Run(n, done, replies) == if done + Sum(replies) >= n then (Returned(n, OK), n)
                                     else (Waiting, done + Sum(replies))
    decreases |replies|
  {
    if done < n && replies != [] {
      assert replies[0] in replies;
      var rest := replies[1..];
      assert forall r :: r in rest ==> r in replies;
      TransfersAddUp(n, if replies[0].Moved? then done + Min(replies[0].n, n - done) else done, rest);
    }
  }
}

module Atomicio {
  import opened Ints
  import opened AtomicioSpec

  // A buffer is a sequence of cells. A writing call sends their contents and a reading call
  // fills them; `out` is the cells that were moved, in order, in either direction.

  /** atomicio6 on a buffer. */
  method Atomicio6<T>(s: seq<T>, replies: seq<Reply>) returns (status: Status, out: seq<T>)
    ensures (status, |out|) == Run(|s|, 0, replies)
    ensures out <= s
  {
    var pos, i := 0, 0;
    out := [];
    while |s| > pos
      invariant 0 <= pos <= |s| && i <= |replies| && out == s[..pos]
      invariant Run(|s|, 0, replies) == Run(|s|, pos, replies[i..])
      decreases |replies| - i
    {
      if i == |replies| { return Waiting, out; }
      var r := replies[i];
      i := i + 1;
      match r
      case Interrupted(stop) => if stop { return Returned(pos, EINTR), out; }
      case Again =>
      case Failed => return Returned(0, EOTHER), out;
      case End => return Returned(pos, EPIPE), out;
      case Moved(k, stop) =>
        var res := Min(k, |s| - pos);
        out := out + s[pos..pos + res];
        pos := pos + res;
        if stop { return Returned(pos, EINTR), out; }
    }
    status := Returned(pos, OK);
  }

  lemma {:induction false} ConcatTail<T>(iov: seq<seq<T>>)
    requires iov != []
    ensures Concat(iov) == iov[0] + Concat(iov[1..])
  {
  }

  /** Skips the entries that a transfer of `res` bytes completed. */
  method Skip<T>(iov0: seq<seq<T>>, res: nat) returns (iov: seq<seq<T>>, rem: nat)
    requires res <= |Concat(iov0)|
    ensures rem <= |Concat(iov)| && Concat(iov)[rem..] == Concat(iov0)[res..]
    ensures iov == [] ==> rem == 0
    ensures iov != [] ==> rem < |iov[0]|
    ensures |iov| <= |iov0|
  {
    iov, rem := iov0, res;
    while iov != [] && rem >= |iov[0]|
      invariant rem <= |Concat(iov)| && Concat(iov)[rem..] == Concat(iov0)[res..] && |iov| <= |iov0|
      decreases |iov|
    {
      ConcatTail(iov);
      assert Concat(iov)[rem..] == Concat(iov[1..])[rem - |iov[0]|..];
      rem := rem - |iov[0]|;
      iov := iov[1..];
    }
  }

  /** One successful call: the completed entries are dropped and the partial one is trimmed.
      `fault` is the branch for a transfer larger than what was asked for. */
  method Advance<T>(iov0: seq<seq<T>>, res: nat) returns (iov: seq<seq<T>>, fault: bool)
    requires res <= |Concat(iov0)|
    ensures !fault && Concat(iov) == Concat(iov0)[res..]
    ensures iov != [] ==> iov[0] != []
    ensures |iov| <= |iov0|
  {
    var rem;
    iov, rem := Skip(iov0, res);
    fault := false;
    if rem > 0 && (iov == [] || rem > |iov[0]|) { return iov, true; }
    if iov == [] { return; }
    ConcatTail(iov);
    var tail := iov[1..];
    iov := [iov[0][rem..]] + tail;
    assert iov[1..] == tail;
  }

  /** The call and the bookkeeping after it. */
  method Transfer<T>(iov0: seq<seq<T>>, k: Positive) returns (iov: seq<seq<T>>, sent: seq<T>)
    requires Concat(iov0) != []
    ensures sent == Concat(iov0)[..Min(k, |Concat(iov0)|)] && Concat(iov0) == sent + Concat(iov)
    ensures iov != [] ==> iov[0] != []
  {
    var data := Concat(iov0);
    sent := data[..Min(k, |data|)];
    var fault;
    iov, fault := Advance(iov0, |sent|);
    if fault { assert false; }  // the caller would return 0 with EFAULT
  }

  /** atomiciov6. With a first entry that is not empty it meets the plain contract on the
      concatenation of the entries; with an empty one it returns 0 without a call. */
  method Atomiciov6<T>(vec: seq<seq<T>>, iovcnt: int, iovMax: nat, replies: seq<Reply>)
    returns (status: Status, out: seq<T>)
    requires iovcnt <= |vec|
    ensures iovcnt < 0 || iovcnt > iovMax ==> status == Returned(0, EINVAL) && out == []
    ensures 0 <= iovcnt <= iovMax ==>
              var n := if iovcnt == 0 || vec[0] == [] then 0 else |Concat(vec[..iovcnt])|;
              (status, |out|) == Run(n, 0, replies) && out <= Concat(vec[..iovcnt])
  {
    out := [];
    if iovcnt < 0 || iovcnt > iovMax { return Returned(0, EINVAL), out; }
    var iov := vec[..iovcnt];
    ghost var all := if iov == [] || iov[0] == [] then [] else Concat(iov);
    var pos, i := 0, 0;
    while iov != [] && |iov[0]| > 0
      invariant 0 <= pos <= |all| && i <= |replies| && out == all[..pos]
      invariant if iov != [] && iov[0] != [] then Concat(iov) == all[pos..] else pos == |all|
      invariant Run(|all|, 0, replies) == Run(|all|, pos, replies[i..])
      decreases |replies| - i
    {
      ConcatTail(iov);
      if i == |replies| { return Waiting, out; }
      var r := replies[i];
      i := i + 1;
      match r
      case Interrupted(stop) => if stop { return Returned(pos, EINTR), out; }
      case Again =>
      case Failed => return Returned(0, EOTHER), out;
      case End => return Returned(pos, EPIPE), out;
      case Moved(k, stop) =>
        var sent;
        iov, sent := Transfer(iov, k);
        out := out + sent;
        pos := pos + |sent|;
        if stop { return Returned(pos, EINTR), out; }
    }
    status := Returned(pos, OK);
  }

  /** What a call answers when there is no progress callback to stop it. */
  function NoCallback(replies: seq<Reply>): seq<Reply> {
    seq(|replies|, i requires 0 <= i < |replies| =>
      match replies[i]
      case Interrupted(_) => Interrupted(false)
      case Moved(n, _) => Moved(n, false)
      case Again => Again
      case Failed => Failed
      case End => End)
  }

  lemma {:induction false} NeverStopped(n: nat, done: nat, replies: seq<Reply>)
    requires done <= n
    requires forall r :: r in replies ==> (r.Interrupted? || r.Moved? ==> !r.stop)
    ensures var (status, count) := Run(n, done, replies);
            && (status.Returned? ==> status.errno != EINTR)
            && done <= count <= n && (status == Returned(n, OK) <==> count == n)
    decreases |replies|
  {
    if done < n && replies != [] {
      var r := replies[0];
      assert r in replies;
      if r.Moved? {
        NeverStopped(n, done + Min(r.n, n - done), replies[1..]);
      } else if Retry(r) {
        NeverStopped(n, done, replies[1..]);
      }
    }
  }

  /** atomicio: returns without an error exactly when everything went through. */
  method AtomicioPlain<T>(s: seq<T>, replies: seq<Reply>) returns (status: Status, out: seq<T>)
    ensures out <= s && (status == Returned(|s|, OK) <==> out == s)
    ensures status.Returned? ==> status.errno != EINTR && (status.ret == |out| || status == Returned(0, EOTHER))
  {
    status, out := Atomicio6(s, NoCallback(replies));
    RunBounds(|s|, 0, NoCallback(replies));
    NeverStopped(|s|, 0, NoCallback(replies));
  }

  /** atomiciov: the same, except that a first entry that is empty makes a vector with
      something to send look finished, and nothing else does. */
  method Atomiciov<T>(vec: seq<seq<T>>, iovcnt: int, iovMax: nat, replies: seq<Reply>)
    returns (status: Status, out: seq<T>)
    requires iovcnt <= |vec|
    ensures iovcnt < 0 || iovcnt > iovMax ==> status == Returned(0, EINVAL) && out == []
    ensures 0 <= iovcnt <= iovMax ==>
              var all := Concat(vec[..iovcnt]);
              && out <= all
              && (all != [] ==> (status == Returned(0, OK) <==> vec[0] == []))
              && (all != [] && vec[0] == [] ==> out == [])
              && (all == [] || vec[0] != [] ==> (status == Returned(|all|, OK) <==> out == all))
              && (status.Returned? ==> status.errno != EINTR)
  {
    status, out := Atomiciov6(vec, iovcnt, iovMax, NoCallback(replies));
    if 0 <= iovcnt <= iovMax {
      ghost var all := Concat(vec[..iovcnt]);
      ghost var n := if iovcnt == 0 || vec[0] == [] then 0 else |all|;
      assert iovcnt > 0 ==> vec[..iovcnt][0] == vec[0];
      RunBounds(n, 0, NoCallback(replies));
      NeverStopped(n, 0, NoCallback(replies));
    }
  }

  /** Something to transfer behind an empty entry: success is reported and nothing moves, whatever
      the call would answer. */
  method EmptyEntryFirst(replies: seq<Reply>) returns (status: Status, out: seq<nat>)
    ensures status == Returned(0, OK) && out == []
  {
    var vec: seq<seq<nat>> := [[], [7]];
    assert vec[..2] == vec && vec[1..] == [[7]] && Concat([[7]]) == [7] + Concat([[7]][1..]);
    status, out := Atomiciov(vec, 2, 16, replies);
  }
}
