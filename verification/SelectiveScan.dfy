/** The recurrence of the selective scan: one state update and one output per token,
    over exact reals, with the transcendental functions left as parameters. */
module SelectiveScan {
  import opened Collections

  type State = seq<real>
  type Positive = x: real | x > 0.0 witness 1.0

  /** What one (batch, dim) program loads once. */
  datatype Coeffs = Coeffs(A: seq<real>, D: Option<real>, deltaBias: Option<real>, softplus: bool,
                           exp: real -> Positive, log: Positive -> real)

  datatype Token = Token(u: real, delta: real, z: real, B: seq<real>, C: seq<real>)

  /** A masked load: lanes past the end read as zero. */
  function Lane(v: seq<real>, i: nat): real {
    if i < |v| then v[i] else 0.0
  }

  function Softplus(c: Coeffs, x: real): real {
    if x <= 20.0 then c.log(c.exp(x) + 1.0) else x
  }

  function StepSize(c: Coeffs, delta: real): real {
    var d := if c.deltaBias.Some? then delta + c.deltaBias.value else delta;
    if c.softplus then Softplus(c, d) else d
  }

  function Advance(c: Coeffs, s: State, t: Token): (s': State)
    ensures |s'| == |s|
  {
    var d := StepSize(c, t.delta);
    seq(|s|, i requires 0 <= i < |s| => LaneNext(c, d, t.u, Lane(c.A, i), Lane(t.B, i), s[i]))
  }

  function LaneNext(c: Coeffs, d: real, u: real, a: real, b: real, x: real): real {
    Factor(c, d, a) * x + Inflow(d, u, b)
  }

  /** What one step leaves of a lane, and what it brings in. */
  function Factor(c: Coeffs, d: real, a: real): real { c.exp(d * a) }
  function Inflow(d: real, u: real, b: real): real { d * u * b }

  function Dot(a: seq<real>, b: seq<real>): real {
    if a == [] then 0.0
    else Dot(a[..|a| - 1], b) + a[|a| - 1] * Lane(b, |a| - 1)
  }

  function Output(c: Coeffs, s: State, t: Token): real {
    Dot(s, t.C) + if c.D.Some? then c.D.value * t.u else 0.0
  }

  function Gate(c: Coeffs, out: real, z: real): real {
    out * z / (1.0 + c.exp(-z))
  }

  // ----- the plain scan: one fold over the whole sequence

  function Fold(c: Coeffs, s: State, toks: seq<Token>): (s': State)
    ensures |s'| == |s|
  {
    if toks == [] then s
    else Advance(c, Fold(c, s, toks[..|toks| - 1]), toks[|toks| - 1])
  }

  function OutAt(c: Coeffs, s: State, toks: seq<Token>, i: nat): real
    requires i < |toks|
  {
    Output(c, Fold(c, s, toks[..i + 1]), toks[i])
  }

  lemma FoldStep(c: Coeffs, s: State, toks: seq<Token>, i: nat)
    requires i < |toks|
    ensures Fold(c, s, toks[..i + 1]) == Advance(c, Fold(c, s, toks[..i]), toks[i])
  {
    assert toks[..i + 1][..i] == toks[..i];
  }

  lemma {:induction false} FoldAppend(c: Coeffs, s: State, a: seq<Token>, b: seq<Token>)
    ensures Fold(c, s, a + b) == Fold(c, Fold(c, s, a), b)
    decreases |b|
  {
    hide Advance;
    if b == [] {
      assert a + b == a;
    } else {
      var n := |b| - 1;
      assert (a + b)[..|a| + n] == a + b[..n];
      FoldAppend(c, s, a, b[..n]);
    }
  }

  /** Restarting from the state after `a` gives the outputs of the uninterrupted scan. */
  lemma OutAfterRestart(c: Coeffs, s: State, a: seq<Token>, b: seq<Token>, i: nat)
    requires i < |b|
    ensures OutAt(c, Fold(c, s, a), b, i) == OutAt(c, s, a + b, |a| + i)
  {
    hide Fold, Output;
    FoldAppend(c, s, a, b[..i + 1]);
    assert (a + b)[..|a| + i + 1] == a + b[..i + 1];
  }

  // ----- the scan written out

  /** The step size: delta, the bias added, and with softplus the number whose exponential is one more, which above 20
      is taken to be the number itself. */
  lemma StepSizeIs(c: Coeffs, delta: real)
    requires forall y: Positive :: c.exp(c.log(y)) == y
    ensures var x := if c.deltaBias.Some? then delta + c.deltaBias.value else delta;
            if c.softplus && x <= 20.0 then c.exp(StepSize(c, delta)) == 1.0 + c.exp(x) else StepSize(c, delta) == x
  {
    var x := if c.deltaBias.Some? then delta + c.deltaBias.value else delta;
    var y: Positive := c.exp(x) + 1.0;
    assert c.exp(c.log(y)) == y;
  }

  /** The gate is the output times z over one plus exp(-z). */
  lemma GateIs(c: Coeffs, out: real, z: real)
    ensures Gate(c, out, z) * (1.0 + c.exp(-z)) == out * z
  {
    var d := 1.0 + c.exp(-z);
    assert d > 0.0;
    assert out * z / d * d == out * z;
  }

  /** One step on one lane: state = exp(step * A) * state + step * u * B. */
  lemma AdvanceIs(c: Coeffs, s: State, t: Token, i: nat, d: real, a: real, b: real, power: real)
    requires i < |s| && d == StepSize(c, t.delta) && power == d * a
    requires a == (if i < |c.A| then c.A[i] else 0.0) && b == (if i < |t.B| then t.B[i] else 0.0)
    ensures Advance(c, s, t)[i] == c.exp(power) * s[i] + d * t.u * b
  {
    AdvanceAt(c, s, t, i);
    FactorIs(c, d, a, power);
    hide StepSize, Advance, Factor;
    assert Lane(c.A, i) == a && Lane(t.B, i) == b;
  }

  lemma FactorIs(c: Coeffs, d: real, a: real, power: real)
    requires power == d * a
    ensures Factor(c, d, a) == c.exp(power)
  {
  }

  lemma AdvanceAt(c: Coeffs, s: State, t: Token, i: nat)
    requires i < |s|
    ensures var d := StepSize(c, t.delta);
            Advance(c, s, t)[i] == LaneNext(c, d, t.u, Lane(c.A, i), Lane(t.B, i), s[i])
  {
    hide StepSize, Lane, LaneNext;
  }

  /** How much of lane i survives the tokens. */
  ghost function Decay(c: Coeffs, toks: seq<Token>, i: nat): real {
    if toks == [] then 1.0 else Factor(c, StepSize(c, toks[0].delta), Lane(c.A, i)) * Decay(c, toks[1..], i)
  }

  /** What the tokens bring into lane i, each as much as survives the tokens after it. */
  ghost function Impulse(c: Coeffs, toks: seq<Token>, i: nat): real {
    if toks == [] then 0.0
    else Inflow(StepSize(c, toks[0].delta), toks[0].u, Lane(toks[0].B, i)) * Decay(c, toks[1..], i)
         + Impulse(c, toks[1..], i)
  }

  /** The state after a run of tokens as a sum over the tokens: the recurrence solved. */
  lemma {:induction false} StateIsSum(c: Coeffs, s: State, toks: seq<Token>, i: nat)
    requires i < |s|
    ensures Fold(c, s, toks)[i] == Decay(c, toks, i) * s[i] + Impulse(c, toks, i)
    decreases |toks|
  {
    hide Advance, StepSize, Lane, LaneNext, Factor, Inflow;
    if toks != [] {
      var t, rest := toks[0], toks[1..];
      assert toks == [t] + rest && [t][..0] == [];
      assert Fold(c, s, [t]) == Advance(c, s, t);
      FoldAppend(c, s, [t], rest);
      StateIsSum(c, Advance(c, s, t), rest, i);
      AdvanceAt(c, s, t, i);
      var d := StepSize(c, t.delta);
      SumNext(c, d, t.u, Lane(c.A, i), Lane(t.B, i), s[i], Decay(c, rest, i));
    }
  }

  lemma SumNext(c: Coeffs, d: real, u: real, a: real, b: real, x: real, decay: real)
    ensures decay * LaneNext(c, d, u, a, b, x) == Factor(c, d, a) * decay * x + Inflow(d, u, b) * decay
  {
    hide Factor, Inflow;
    var e, y := Factor(c, d, a), Inflow(d, u, b);
    assert decay * (e * x + y) == e * decay * x + y * decay;
  }

  ghost function SumOf(v: seq<real>): real { if v == [] then 0.0 else v[0] + SumOf(v[1..]) }

  ghost function Weighted(s: seq<real>, w: seq<real>): (r: seq<real>)
    ensures |r| == |s| && forall i :: 0 <= i < |s| ==> r[i] == s[i] * Lane(w, i)
  {
    seq(|s|, i requires 0 <= i < |s| => s[i] * Lane(w, i))
  }

  lemma {:induction false} SumOfSnoc(v: seq<real>, x: real)
    ensures SumOf(v + [x]) == SumOf(v) + x
  {
    if v == [] {
      assert v + [x] == [x] && [x][1..] == [];
    } else {
      assert (v + [x])[1..] == v[1..] + [x];
      SumOfSnoc(v[1..], x);
    }
  }

  lemma {:induction false} DotIsSum(s: seq<real>, w: seq<real>)
    ensures Dot(s, w) == SumOf(Weighted(s, w))
  {
    if s != [] {
      var n := |s| - 1;
      DotIsSum(s[..n], w);
      var x := s[n] * Lane(w, n);
      assert Dot(s, w) == Dot(s[..n], w) + x;
      hide *;
      assert Weighted(s, w) == Weighted(s[..n], w) + [x] by { WeightedSnoc(s, w); }
      SumOfSnoc(Weighted(s[..n], w), x);
    }
  }

  lemma WeightedSnoc(s: seq<real>, w: seq<real>)
    requires s != []
    ensures var n := |s| - 1; Weighted(s, w) == Weighted(s[..n], w) + [s[n] * Lane(w, n)]
  {
    var n := |s| - 1;
    var u, v := Weighted(s, w), Weighted(s[..n], w) + [s[n] * Lane(w, n)];
    hide Lane, Weighted;
    forall i | 0 <= i < |s| ensures u[i] == v[i] {
      if i < n { assert v[i] == s[..n][i] * Lane(w, i); }
    }
  }

  /** The output at position n: the state after the first n + 1 tokens weighted by the token's C and summed over the
      lanes, and D times its input if there is a D. */
  lemma OutputIsSum(c: Coeffs, s: State, toks: seq<Token>, n: nat, state: seq<real>)
    requires n < |toks| && |state| == |s|
    requires forall i :: 0 <= i < |s| ==>
                           state[i] == Decay(c, toks[..n + 1], i) * s[i] + Impulse(c, toks[..n + 1], i)
    ensures OutAt(c, s, toks, n)
            == SumOf(Weighted(state, toks[n].C)) + if c.D.Some? then c.D.value * toks[n].u else 0.0
  {
    hide Decay, Impulse, Fold, Dot, SumOf, Weighted;
    var f := Fold(c, s, toks[..n + 1]);
    forall i | 0 <= i < |s| ensures f[i] == state[i] { StateIsSum(c, s, toks[..n + 1], i); }
    assert f == state;
    hide *;
    DotIsSum(state, toks[n].C);
    OutAtIs(c, s, toks, n);
  }

  lemma OutAtIs(c: Coeffs, s: State, toks: seq<Token>, n: nat)
    requires n < |toks|
    ensures OutAt(c, s, toks, n)
            == Dot(Fold(c, s, toks[..n + 1]), toks[n].C) + if c.D.Some? then c.D.value * toks[n].u else 0.0
  {
    hide Fold, Dot;
  }

  /** Widening the state vector with zero lanes, as the power-of-two block does, changes nothing. */
  lemma {:induction false} DotPad(a: seq<real>, b: seq<real>, pad: nat)
    ensures Dot(a + seq(pad, _ => 0.0), b) == Dot(a, b)
  {
    if pad == 0 {
      assert a + seq(pad, _ => 0.0) == a;
    } else {
      var w := a + seq(pad, _ => 0.0);
      assert w[..|w| - 1] == a + seq(pad - 1, _ => 0.0);
      DotPad(a, b, pad - 1);
    }
  }

  lemma AdvancePad(c: Coeffs, s: State, t: Token, pad: nat)
    requires |t.B| <= |s|
    ensures Advance(c, s + seq(pad, _ => 0.0), t) == Advance(c, s, t) + seq(pad, _ => 0.0)
  {
    var w := s + seq(pad, _ => 0.0);
    var l, r := Advance(c, w, t), Advance(c, s, t) + seq(pad, _ => 0.0);
    var d := StepSize(c, t.delta);
    forall i | 0 <= i < |w| ensures l[i] == r[i] {
      if i >= |s| {
        assert w[i] == 0.0 && Lane(t.B, i) == 0.0;
        assert l[i] == LaneNext(c, d, t.u, Lane(c.A, i), 0.0, 0.0);
      }
    }
  }

  lemma {:induction false} FoldPad(c: Coeffs, s: State, toks: seq<Token>, pad: nat)
    requires forall t :: t in toks ==> |t.B| <= |s|
    ensures Fold(c, s + seq(pad, _ => 0.0), toks) == Fold(c, s, toks) + seq(pad, _ => 0.0)
  {
    if toks != [] {
      var n := |toks| - 1;
      FoldPad(c, s, toks[..n], pad);
      AdvancePad(c, Fold(c, s, toks[..n]), toks[n], pad);
    }
  }
}
