/**
 * The LSTM recurrence as pure functions: the four gates, one timestep, and
 * the forward pass over a sequence of input rows. The imperative layer in
 * LstmLayer is proved to compute exactly `Forward`.
 */
module LstmSpec {
  import opened Vectors

  /**
   * The three parameters of one gate: `w` (input dimension by gate dimension),
   * `u` (gate dimension by gate dimension) and the bias `b`. The layer reads
   * them as `W_*`, `U_*` and `b_*` and never writes them.
   */
  datatype GateWeights = GateWeights(w: Matrix, u: Matrix, b: Vector)

  datatype Weights = Weights(input: GateWeights, candidate: GateWeights,
                             forget: GateWeights, output: GateWeights)

  /** Weights plus the two elementwise activation functions. */
  datatype Cell = Cell(weights: Weights, activation: real -> real, innerActivation: real -> real)

  /** Hidden state `h` and cell state `c` carried from one timestep to the next. */
  datatype State = State(h: Vector, c: Vector)

  /** The gate dimension: the length of the candidate bias `b_c`. */
  function Dim(ws: Weights): nat
  {
    |ws.candidate.b|
  }

  predicate GateShaped(g: GateWeights, m: nat, n: nat)
  {
    |g.b| == n && IsMatrix(g.w, m, n) && IsMatrix(g.u, n, n)
  }

  /**
   * All four gates share the gate dimension `Dim(ws)` and the input
   * dimension `m`, so that every elementwise kernel sees equal shapes.
   */
  predicate Shaped(ws: Weights, m: nat)
  {
    var n := Dim(ws);
    GateShaped(ws.input, m, n) && GateShaped(ws.candidate, m, n) &&
    GateShaped(ws.forget, m, n) && GateShaped(ws.output, m, n)
  }

  /** The input dimension: the number of rows of `W_i`. */
  function InputDim(ws: Weights): nat
  {
    |ws.input.w|
  }

  /** Every input row has the input dimension. */
  predicate RowsFit(ws: Weights, xs: seq<Vector>)
  {
    forall t :: 0 <= t < |xs| ==> |xs[t]| == InputDim(ws)
  }

  predicate StateFits(ws: Weights, s: State)
  {
    |s.h| == Dim(ws) && |s.c| == Dim(ws)
  }

  /** The state a forward pass starts from: freshly allocated, all zero. */
  function Init(n: nat): (s: State)
  {
    State(Zeros(n), Zeros(n))
  }

  /** The affine pre-activation `wᵀ·x + uᵀ·h + b` of one gate. */
  function PreActivation(g: GateWeights, x: Vector, h: Vector): (r: Vector)
    requires GateShaped(g, |x|, |h|)
    ensures |r| == |h|
  {
    Sum3(MatTVec(g.w, x, |h|), MatTVec(g.u, h, |h|), g.b)
  }

  /**
   * What `_combine` produces when the two accumulators `gemv` added into
   * started from `rx` and `rh` instead of from zero.
   */
  function Accumulated(g: GateWeights, x: Vector, h: Vector, rx: Vector, rh: Vector): (r: Vector)
    requires GateShaped(g, |x|, |h|) && |rx| == |h| && |rh| == |h|
    ensures |r| == |h|
  {
    Sum3(Add(MatTVec(g.w, x, |h|), rx), Add(MatTVec(g.u, h, |h|), rh), g.b)
  }

  /**
   * The accumulated pre-activation is the true one exactly when the
   * leftovers in the two accumulators cancel: zeroing them before every
   * step is what keeps one timestep from leaking into the next.
   */
  lemma AccumulatedIsPreActivationIff(g: GateWeights, x: Vector, h: Vector, rx: Vector, rh: Vector)
    requires GateShaped(g, |x|, |h|) && |rx| == |h| && |rh| == |h|
    ensures Accumulated(g, x, h, rx, rh) == PreActivation(g, x, h) <==> Add(rx, rh) == Zeros(|h|)
  {
    var a, p, r := Accumulated(g, x, h, rx, rh), PreActivation(g, x, h), Add(rx, rh);
    assert forall k :: 0 <= k < |h| ==> a[k] == p[k] + r[k];
    if a == p {
      assert forall k :: 0 <= k < |h| ==> r[k] == Zeros(|h|)[k];
    }
    if r == Zeros(|h|) {
      assert forall k :: 0 <= k < |h| ==> a[k] == p[k];
    }
  }

  /** One gate: its pre-activation passed through the gate's activation function. */
  function Gate(g: GateWeights, f: real -> real, x: Vector, h: Vector): (r: Vector)
    requires GateShaped(g, |x|, |h|)
    ensures |r| == |h|
  {
    MapVec(f, PreActivation(g, x, h))
  }

  /**
   * One timestep. The input, forget and output gates use the inner
   * activation, the candidate uses the activation; the new cell state is
   * `candidate ⊙ input + c ⊙ forget` and the new hidden state is
   * `output ⊙ activation(new cell state)`.
   */
  function Step(cell: Cell, x: Vector, s: State): (r: State)
    requires Shaped(cell.weights, |x|) && StateFits(cell.weights, s)
    ensures StateFits(cell.weights, r)
  {
    var ws := cell.weights;
    var i := Gate(ws.input, cell.innerActivation, x, s.h);
    var f := Gate(ws.forget, cell.innerActivation, x, s.h);
    var o := Gate(ws.output, cell.innerActivation, x, s.h);
    var g := Gate(ws.candidate, cell.activation, x, s.h);
    var c := Add(Hadamard(g, i), Hadamard(s.c, f));
    State(Hadamard(o, MapVec(cell.activation, c)), c)
  }

  /** The forward pass: the rows of `xs` consumed first to last, starting from `s`. */
  function Forward(cell: Cell, xs: seq<Vector>, s: State): (r: State)
    requires Shaped(cell.weights, InputDim(cell.weights))
    requires RowsFit(cell.weights, xs) && StateFits(cell.weights, s)
    ensures StateFits(cell.weights, r)
    decreases |xs|
  {
    if |xs| == 0 then s else Forward(cell, xs[1..], Step(cell, xs[0], s))
  }

  /** Running two sequences back to back is running their concatenation. */
  lemma {:induction false} ForwardAppend(cell: Cell, xs: seq<Vector>, ys: seq<Vector>, s: State)
    requires Shaped(cell.weights, InputDim(cell.weights))
    requires RowsFit(cell.weights, xs) && RowsFit(cell.weights, ys) && StateFits(cell.weights, s)
    ensures RowsFit(cell.weights, xs + ys)
    ensures Forward(cell, xs + ys, s) == Forward(cell, ys, Forward(cell, xs, s))
  {
    assert forall t :: 0 <= t < |xs + ys| ==> (xs + ys)[t] == if t < |xs| then xs[t] else ys[t - |xs|];
    if |xs| == 0 {
      assert xs + ys == ys;
    } else {
      assert (xs + ys)[0] == xs[0] && (xs + ys)[1..] == xs[1..] + ys;
      ForwardAppend(cell, xs[1..], ys, Step(cell, xs[0], s));
    }
  }

  /** The last row is consumed last, from the state the earlier rows left. */
  lemma ForwardSnoc(cell: Cell, xs: seq<Vector>, x: Vector, s: State)
    requires Shaped(cell.weights, |x|) && |x| == InputDim(cell.weights)
    requires RowsFit(cell.weights, xs) && StateFits(cell.weights, s)
    ensures RowsFit(cell.weights, xs + [x])
    ensures Forward(cell, xs + [x], s) == Step(cell, x, Forward(cell, xs, s))
  {
    ForwardAppend(cell, xs, [x], s);
  }

  /** The first `i + 1` rows are the first `i` rows and then row `i`. */
  lemma ForwardPrefix(cell: Cell, xs: seq<Vector>, i: nat, s: State)
    requires Shaped(cell.weights, InputDim(cell.weights))
    requires RowsFit(cell.weights, xs) && StateFits(cell.weights, s) && i < |xs|
    ensures RowsFit(cell.weights, xs[..i]) && RowsFit(cell.weights, xs[..i + 1])
    ensures Forward(cell, xs[..i + 1], s) == Step(cell, xs[i], Forward(cell, xs[..i], s))
  {
    assert xs[..i + 1] == xs[..i] + [xs[i]];
    ForwardSnoc(cell, xs[..i], xs[i], s);
  }

  /**
   * The first step from the zero state: the recurrent weights meet a zero
   * hidden state and the forget gate a zero cell state, so only the input
   * weights and the biases matter.
   */
  lemma FirstStep(cell: Cell, x: Vector)
    requires Shaped(cell.weights, |x|)
    ensures
      var ws, n := cell.weights, Dim(cell.weights);
      var i := MapVec(cell.innerActivation, Add(MatTVec(ws.input.w, x, n), ws.input.b));
      var o := MapVec(cell.innerActivation, Add(MatTVec(ws.output.w, x, n), ws.output.b));
      var g := MapVec(cell.activation, Add(MatTVec(ws.candidate.w, x, n), ws.candidate.b));
      var c := Hadamard(g, i);
      Forward(cell, [x], Init(n)) == State(Hadamard(o, MapVec(cell.activation, c)), c)
  {
    var ws, n := cell.weights, Dim(cell.weights);
    assert [x][1..] == [];
    forall g | g in [ws.input, ws.candidate, ws.forget, ws.output]
      ensures PreActivation(g, x, Zeros(n)) == Add(MatTVec(g.w, x, n), g.b)
    {
      MatTVecOfZeros(g.u, n, n);
      var p := PreActivation(g, x, Zeros(n));
      assert forall k :: 0 <= k < n ==> p[k] == Add(MatTVec(g.w, x, n), g.b)[k];
    }
    var f := Gate(ws.forget, cell.innerActivation, x, Zeros(n));
    HadamardZerosLeft(f);
    var i := Gate(ws.input, cell.innerActivation, x, Zeros(n));
    var g := Gate(ws.candidate, cell.activation, x, Zeros(n));
    AddZerosRight(Hadamard(g, i));
  }

  /**
   * Memory retention: where the input gate is closed (0) and the forget gate
   * fully open (1), the cell state passes through a step unchanged.
   */
  lemma MemoryRetention(cell: Cell, x: Vector, s: State)
    requires Shaped(cell.weights, |x|) && StateFits(cell.weights, s)
    requires forall k :: 0 <= k < |s.c| ==>
      Gate(cell.weights.input, cell.innerActivation, x, s.h)[k] == 0.0 &&
      Gate(cell.weights.forget, cell.innerActivation, x, s.h)[k] == 1.0
    ensures Step(cell, x, s).c == s.c
  {
    var c := Step(cell, x, s).c;
    assert forall k :: 0 <= k < |s.c| ==> c[k] == s.c[k];
  }
}
