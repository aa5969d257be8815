/** The quarter round: what its rotations and exclusive ors do to bits, the line-by-line form
    of the source, and that it loses nothing. */
module ChaChaRounds {
  import opened Ints
  import opened Bits
  import opened KeyStream
  import opened ChaChaSpec

  /** Bit k comes from the bit n places below it, cyclically. */
  lemma {:induction false} RotlBit(v: u32, n: nat, k: nat)
    requires 0 < n < 32 && k < 32
    ensures Bit(Rotl(v, n), k) == Bit(v, if k >= n then k - n else k + 32 - n)
  {
    var hi, lo := Low(Shl(v, n), 32), Shr(v, 32 - n);
    BitOr(hi, lo, k);
    BitLow(Shl(v, n), 32, k);
    BitShl(v, n, k);
    BitShr(v, 32 - n, k);
    if k >= n {
      Pow2Values();
      BitAbove(v, 32, 32 - n + k);
    }
  }

  lemma {:induction false} XorBit(a: u32, b: u32, k: nat)
    ensures Bit(Xor32(a, b), k) == (Bit(a, k) != Bit(b, k))
  {
    BitXor(a, b, k);
  }

  lemma RotateBack(v: u32, n: nat)
    requires 0 < n < 32
    ensures Rotl(Rotl(v, n), 32 - n) == v
  {
    var w := Rotl(v, n);
    forall k: nat | k < 32 ensures Bit(Rotl(w, 32 - n), k) == Bit(v, k) {
      RotlBit(w, 32 - n, k);
      RotlBit(v, n, if k >= 32 - n then k - (32 - n) else k + n);
    }
    SameWord(Rotl(w, 32 - n), v);
  }

  lemma XorBack(a: u32, b: u32)
    ensures Xor32(Xor32(a, b), b) == a
  {
    forall k: nat | k < 32 ensures Bit(Xor32(Xor32(a, b), b), k) == Bit(a, k) {
      XorBit(Xor32(a, b), b, k);
      XorBit(a, b, k);
    }
    SameWord(Xor32(Xor32(a, b), b), a);
  }

  lemma AddBack(a: u32, b: u32)
    ensures Sub32(Add32(a, b), b) == a
  {
  }

  // ---- the inverse ------------------------------------------------------------------------

  function UndoStep(q: Quad, n: nat): Quad
    requires 0 < n < 32
  {
    q.(a := Sub32(q.a, q.b), d := Xor32(Rotl(q.d, 32 - n), q.a))
  }

  function UndoQuarter(q: Quad): Quad {
    UndoStep(Turn(UndoStep(Turn(UndoStep(Turn(UndoStep(Turn(q), 7)), 8)), 12)), 16)
  }

  lemma StepUndone(q: Quad, n: nat)
    requires 0 < n < 32
    ensures UndoStep(HalfStep(q, n), n) == q
  {
    var a := Add32(q.a, q.b);
    RotateBack(Xor32(q.d, a), n);
    XorBack(q.d, a);
    AddBack(q.a, q.b);
  }

  lemma TurnTwice(q: Quad)
    ensures Turn(Turn(q)) == q
  {
  }

  /** A quarter round can be undone, so no two inputs are confused. */
  lemma QuarterUndone(q: Quad)
    ensures UndoQuarter(QuarterRound(q)) == q
  {
    var q1 := HalfStep(q, 16);
    var q2 := HalfStep(Turn(q1), 12);
    var q3 := HalfStep(Turn(q2), 8);
    var q4 := HalfStep(Turn(q3), 7);
    TurnTwice(q4);
    StepUndone(Turn(q3), 7);
    TurnTwice(q3);
    StepUndone(Turn(q2), 8);
    TurnTwice(q2);
    StepUndone(Turn(q1), 12);
    TurnTwice(q1);
    StepUndone(q, 16);
  }

  lemma QuarterInjective(p: Quad, q: Quad)
    requires QuarterRound(p) == QuarterRound(q)
    ensures p == q
  {
    QuarterUndone(p);
    QuarterUndone(q);
  }

  /** QUARTERROUND, statement by statement. */
  method QuarterRoundLines(a0: u32, b0: u32, c0: u32, d0: u32) returns (a: u32, b: u32, c: u32, d: u32)
    ensures Quad(a, b, c, d) == QuarterRound(Quad(a0, b0, c0, d0))
  {
    a, b, c, d := a0, b0, c0, d0;
    a := Add32(a, b);
    d := Rotl(Xor32(d, a), 16);
    c := Add32(c, d);
    b := Rotl(Xor32(b, c), 12);
    a := Add32(a, b);
    d := Rotl(Xor32(d, a), 8);
    c := Add32(c, d);
    b := Rotl(Xor32(b, c), 7);
  }

  // ---- the twenty rounds --------------------------------------------------------------------

  ghost predicate Injective(mix: Mixer) { forall p, q :: mix(p) == mix(q) ==> p == q }

  predicate Distinct(q: Quartet) {
    InState(q) && q.a != q.b && q.a != q.c && q.a != q.d && q.b != q.c && q.b != q.d && q.c != q.d
  }

  lemma QuarterAtInjective(mix: Mixer, x: State, y: State, q: Quartet)
    requires Injective(mix) && Distinct(q)
    requires QuarterAt(mix, x, q.a, q.b, q.c, q.d) == QuarterAt(mix, y, q.a, q.b, q.c, q.d)
    ensures x == y
  {
    var p, r := Quad(x[q.a], x[q.b], x[q.c], x[q.d]), Quad(y[q.a], y[q.b], y[q.c], y[q.d]);
    var u, v := QuarterAt(mix, x, q.a, q.b, q.c, q.d), QuarterAt(mix, y, q.a, q.b, q.c, q.d);
    assert mix(p) == Quad(u[q.a], u[q.b], u[q.c], u[q.d]);
    assert mix(r) == Quad(v[q.a], v[q.b], v[q.c], v[q.d]);
    assert p == r;
    forall i | 0 <= i < 16 ensures x[i] == y[i] {
      if i != q.a && i != q.b && i != q.c && i != q.d { assert u[i] == x[i] && v[i] == y[i]; }
    }
  }

  lemma {:induction false} QuartersInjective(mix: Mixer, x: State, y: State, qs: seq<Quartet>, n: nat)
    requires Injective(mix) && n <= |qs| && forall i :: 0 <= i < |qs| ==> InState(qs[i]) && Distinct(qs[i])
    requires Quarters(mix, x, qs, n) == Quarters(mix, y, qs, n)
    ensures x == y
    decreases n
  {
    if n > 0 {
      QuarterAtInjective(mix, Quarters(mix, x, qs, n - 1), Quarters(mix, y, qs, n - 1), qs[n - 1]);
      QuartersInjective(mix, x, y, qs, n - 1);
    }
  }

  lemma DoubleRoundDistinct()
    ensures forall i :: 0 <= i < 8 ==> Distinct(DoubleRound()[i])
  {
    forall i: nat | i < 8 ensures Distinct(DoubleRound()[i]) {
      assert DoubleRound()[i] == if i < 4 then Column(i) else Diagonal(i - 4);
    }
  }

  lemma {:induction false} RoundsInjective(mix: Mixer, x: State, y: State, n: nat)
    requires Injective(mix) && Rounds(mix, x, n) == Rounds(mix, y, n)
    ensures x == y
    decreases n
  {
    if n > 0 {
      DoubleRoundDistinct();
      QuartersInjective(mix, Rounds(mix, x, n - 1), Rounds(mix, y, n - 1), DoubleRound(), 8);
      RoundsInjective(mix, x, y, n - 1);
    }
  }

  /** The twenty rounds of ChaCha20 are a permutation of the states: nothing is lost before
      the input is added back. */
  lemma {:induction false} TwentyRoundsInjective(x: State, y: State)
    requires Rounds(QuarterRound, x, 10) == Rounds(QuarterRound, y, 10)
    ensures x == y
  {
    forall p, q | QuarterRound(p) == QuarterRound(q) ensures p == q { QuarterInjective(p, q); }
    RoundsInjective(QuarterRound, x, y, 10);
  }

  // ---- what the round loop relies on -------------------------------------------------------------

  predicate Agrees(mix: Mixer, q: Quad) { mix(q) == QuarterRound(q) }

  /** mix is the quarter round. Proofs about the loops need no more of it than its name. */
  ghost predicate Real(mix: Mixer) { forall q :: Agrees(mix, q) }

  lemma QuarterRoundIsReal()
    ensures Real(QuarterRound)
  {
    forall q ensures Agrees(QuarterRound, q) {}
  }

  /** One line of the round loop. */
  method QuarterLines(ghost mix: Mixer, x: State, a: nat, b: nat, c: nat, d: nat) returns (y: State)
    requires Real(mix) && a < 16 && b < 16 && c < 16 && d < 16
    ensures y == QuarterAt(mix, x, a, b, c, d)
  {
    assert Agrees(mix, Quad(x[a], x[b], x[c], x[d]));
    var p, q, r, s := QuarterRoundLines(x[a], x[b], x[c], x[d]);
    y := x[a := p][b := q][c := r][d := s];
  }
}
