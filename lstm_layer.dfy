/**
 * The LSTM layer: its two elementwise kernels and its forward pass `call`,
 * over exact reals, with the layer's scratch tensors as arrays.
 */
module LstmLayer {
  import opened Vectors
  import opened NdArray
  import opened LstmSpec

  /** `_combine`: `y = x1 + x2 + b`, elementwise. */
  method Combine(y: array<real>, x1: array<real>, x2: array<real>, b: Vector)
    requires y.Length == x1.Length == x2.Length == |b|
    modifies y
    ensures y[..] == Sum3(old(x1[..]), old(x2[..]), b)
  {
    for k := 0 to y.Length
      invariant forall l :: 0 <= l < k ==> y[l] == old(x1[l]) + old(x2[l]) + b[l]
      invariant forall l :: k <= l < y.Length ==> x1[l] == old(x1[l]) && x2[l] == old(x2[l])
    {
      y[k] := x1[k] + x2[k] + b[k];
    }
    assert forall l :: 0 <= l < y.Length ==> y[..][l] == Sum3(old(x1[..]), old(x2[..]), b)[l];
  }

  /** `_update`: `c = c * i + ctm1 * f`, elementwise, in place on `c`. */
  method Update(c: array<real>, ctm1: array<real>, i: array<real>, f: array<real>)
    requires c.Length == ctm1.Length == i.Length == f.Length
    modifies c
    ensures c[..] == Add(Hadamard(old(c[..]), old(i[..])), Hadamard(old(ctm1[..]), old(f[..])))
  {
    for k := 0 to c.Length
      invariant forall l :: 0 <= l < k ==> c[l] == old(c[l]) * old(i[l]) + old(ctm1[l]) * old(f[l])
      invariant forall l :: k <= l < c.Length ==>
        c[l] == old(c[l]) && ctm1[l] == old(ctm1[l]) && i[l] == old(i[l]) && f[l] == old(f[l])
    {
      c[k] := c[k] * i[k] + ctm1[k] * f[k];
    }
    ghost var spec := Add(Hadamard(old(c[..]), old(i[..])), Hadamard(old(ctm1[..]), old(f[..])));
    assert forall l :: 0 <= l < c.Length ==> c[..][l] == spec[l];
  }

  /**
   * One gate block of `_step`: accumulate `wᵀ·x` into `tempX` and `uᵀ·h`
   * into `tempH`, combine them with the bias into `out`, then apply `f` to
   * `out` in place. From zeroed accumulators, `out` is exactly the gate.
   */
  method ComputeGate(g: GateWeights, f: real -> real, x: array<real>, h: array<real>,
                     tempX: array<real>, tempH: array<real>, out: array<real>)
    requires GateShaped(g, x.Length, h.Length)
    requires tempX.Length == h.Length && tempH.Length == h.Length && out.Length == h.Length
    requires tempX != tempH && out != tempX && out != tempH
    requires x != tempX && x != tempH && x != out && h != tempX && h != tempH && h != out
    modifies tempX, tempH, out
    ensures tempX[..] == Add(MatTVec(g.w, x[..], h.Length), old(tempX[..]))
    ensures tempH[..] == Add(MatTVec(g.u, h[..], h.Length), old(tempH[..]))
    ensures out[..] == MapVec(f, Accumulated(g, x[..], h[..], old(tempX[..]), old(tempH[..])))
    ensures old(tempX[..]) == Zeros(h.Length) && old(tempH[..]) == Zeros(h.Length) ==>
      out[..] == Gate(g, f, x[..], h[..])
  {
    Gemv(g.w, x, tempX);
    Gemv(g.u, h, tempH);
    Combine(out, tempX, tempH, g.b);
    Activate(f, out);
    if old(tempX[..]) == Zeros(h.Length) && old(tempH[..]) == Zeros(h.Length) {
      AddZerosRight(Zeros(h.Length));
      AccumulatedIsPreActivationIff(g, x[..], h[..], old(tempX[..]), old(tempH[..]));
    }
  }

  /**
   * `new Tensor([], [n])`: a fresh, zero-filled tensor of length `n`, and
   * therefore none of the tensors in `earlier`.
   */
  method NewTensor(n: nat, ghost earlier: set<array<real>>) returns (t: array<real>)
    ensures fresh(t) && t.Length == n && t[..] == Zeros(n)
    ensures t !in earlier
  {
    t := new real[n](_ => 0.0);
  }

  /**
   * The tensors `call` allocates before its loop, zero-filled as fresh
   * tensors are, and the two closures `_clearTemp` and `_step` that work on
   * them. The weights and activations are passed to `Step` as a `Cell`.
   */
  class Scratch {
    const currentX: array<real>

    const currentInputGateState: array<real>
    const tempXI: array<real>
    const tempHI: array<real>

    const currentForgetGateState: array<real>
    const tempXF: array<real>
    const tempHF: array<real>

    const currentOutputGateState: array<real>
    const tempXO: array<real>
    const tempHO: array<real>

    const currentCandidate: array<real>
    const tempXC: array<real>
    const tempHC: array<real>
    const previousCandidate: array<real>

    const currentHiddenState: array<real>
    const previousHiddenState: array<real>

    /**
     * `currentX` has the input width `m` and each gate's buffers the length
     * of that gate's bias, all equal to the gate dimension. Every buffer is a
     * separate tensor: each is none of the ones allocated before it.
     */
    ghost predicate Valid(ws: Weights, m: nat)
    {
      var n := Dim(ws);
      Shaped(ws, m) &&
      currentX.Length == m &&
      currentInputGateState.Length == tempXI.Length == tempHI.Length == |ws.input.b| &&
      currentForgetGateState.Length == tempXF.Length == tempHF.Length == |ws.forget.b| &&
      currentOutputGateState.Length == tempXO.Length == tempHO.Length == |ws.output.b| &&
      currentCandidate.Length == tempXC.Length == tempHC.Length == n &&
      previousCandidate.Length == currentHiddenState.Length == previousHiddenState.Length == n &&
      currentInputGateState !in {currentX} &&
      tempXI !in {currentX, currentInputGateState} &&
      tempHI !in {currentX, currentInputGateState, tempXI} &&
      currentForgetGateState !in {currentX, currentInputGateState, tempXI, tempHI} &&
      tempXF !in {currentX, currentInputGateState, tempXI, tempHI, currentForgetGateState} &&
      tempHF !in {currentX, currentInputGateState, tempXI, tempHI, currentForgetGateState, tempXF} &&
      currentOutputGateState !in {currentX, currentInputGateState, tempXI, tempHI, currentForgetGateState, tempXF, tempHF} &&
      tempXO !in {currentX, currentInputGateState, tempXI, tempHI, currentForgetGateState, tempXF, tempHF, currentOutputGateState} &&
      tempHO !in {currentX, currentInputGateState, tempXI, tempHI, currentForgetGateState, tempXF, tempHF, currentOutputGateState, tempXO} &&
      currentCandidate !in {currentX, currentInputGateState, tempXI, tempHI, currentForgetGateState, tempXF, tempHF, currentOutputGateState, tempXO, tempHO} &&
      tempXC !in {currentX, currentInputGateState, tempXI, tempHI, currentForgetGateState, tempXF, tempHF, currentOutputGateState, tempXO, tempHO, currentCandidate} &&
      tempHC !in {currentX, currentInputGateState, tempXI, tempHI, currentForgetGateState, tempXF, tempHF, currentOutputGateState, tempXO, tempHO, currentCandidate, tempXC} &&
      previousCandidate !in {currentX, currentInputGateState, tempXI, tempHI, currentForgetGateState, tempXF, tempHF, currentOutputGateState, tempXO, tempHO, currentCandidate, tempXC, tempHC} &&
      currentHiddenState !in {currentX, currentInputGateState, tempXI, tempHI, currentForgetGateState, tempXF, tempHF, currentOutputGateState, tempXO, tempHO, currentCandidate, tempXC, tempHC, previousCandidate} &&
      previousHiddenState !in {currentX, currentInputGateState, tempXI, tempHI, currentForgetGateState, tempXF, tempHF, currentOutputGateState, tempXO, tempHO, currentCandidate, tempXC, tempHC, previousCandidate, currentHiddenState}
    }

    /** The buffer setup of `call`: every tensor sized from its bias and zero-filled. */
    constructor (ws: Weights, m: nat)
      requires Shaped(ws, m)
      ensures Valid(ws, m)
      ensures fresh(currentX) && fresh(previousHiddenState) && fresh(currentHiddenState)
      ensures fresh(currentInputGateState) && fresh(tempXI) && fresh(tempHI)
      ensures fresh(currentForgetGateState) && fresh(tempXF) && fresh(tempHF)
      ensures fresh(currentOutputGateState) && fresh(tempXO) && fresh(tempHO)
      ensures fresh(currentCandidate) && fresh(tempXC) && fresh(tempHC) && fresh(previousCandidate)
      ensures currentHiddenState[..] == Zeros(Dim(ws)) && previousCandidate[..] == Zeros(Dim(ws))
    {
      var dimInputGate := |ws.input.b|;
      var dimCandidate := |ws.candidate.b|;
      var dimForgetGate := |ws.forget.b|;
      var dimOutputGate := |ws.output.b|;
      var x := NewTensor(m, {});
      var ig := NewTensor(dimInputGate, {x});
      var xi := NewTensor(dimInputGate, {x, ig});
      var hi := NewTensor(dimInputGate, {x, ig, xi});
      var fg := NewTensor(dimForgetGate, {x, ig, xi, hi});
      var xf := NewTensor(dimForgetGate, {x, ig, xi, hi, fg});
      var hf := NewTensor(dimForgetGate, {x, ig, xi, hi, fg, xf});
      var og := NewTensor(dimOutputGate, {x, ig, xi, hi, fg, xf, hf});
      var xo := NewTensor(dimOutputGate, {x, ig, xi, hi, fg, xf, hf, og});
      var ho := NewTensor(dimOutputGate, {x, ig, xi, hi, fg, xf, hf, og, xo});
      var cand := NewTensor(dimCandidate, {x, ig, xi, hi, fg, xf, hf, og, xo, ho});
      var xc := NewTensor(dimCandidate, {x, ig, xi, hi, fg, xf, hf, og, xo, ho, cand});
      var hc := NewTensor(dimCandidate, {x, ig, xi, hi, fg, xf, hf, og, xo, ho, cand, xc});
      var pc := NewTensor(dimCandidate, {x, ig, xi, hi, fg, xf, hf, og, xo, ho, cand, xc, hc});
      var ch := NewTensor(dimCandidate, {x, ig, xi, hi, fg, xf, hf, og, xo, ho, cand, xc, hc, pc});
      var ph := NewTensor(dimCandidate, {x, ig, xi, hi, fg, xf, hf, og, xo, ho, cand, xc, hc, pc, ch});
      currentX := x;
      currentInputGateState, tempXI, tempHI := ig, xi, hi;
      currentForgetGateState, tempXF, tempHF := fg, xf, hf;
      currentOutputGateState, tempXO, tempHO := og, xo, ho;
      currentCandidate, tempXC, tempHC, previousCandidate := cand, xc, hc, pc;
      currentHiddenState, previousHiddenState := ch, ph;
    }

    /** `_clearTemp`: zero the eight accumulators; nothing else changes. */
    method ClearTemp()
      modifies tempXI, tempHI, tempXF, tempHF, tempXO, tempHO, tempXC, tempHC
      ensures tempXI[..] == Zeros(tempXI.Length) && tempHI[..] == Zeros(tempHI.Length)
      ensures tempXF[..] == Zeros(tempXF.Length) && tempHF[..] == Zeros(tempHF.Length)
      ensures tempXO[..] == Zeros(tempXO.Length) && tempHO[..] == Zeros(tempHO.Length)
      ensures tempXC[..] == Zeros(tempXC.Length) && tempHC[..] == Zeros(tempHC.Length)
    {
      Assigns(tempXI, 0.0);
      Assigns(tempHI, 0.0);
      Assigns(tempXF, 0.0);
      Assigns(tempHF, 0.0);
      Assigns(tempXO, 0.0);
      Assigns(tempHO, 0.0);
      Assigns(tempXC, 0.0);
      Assigns(tempHC, 0.0);
    }

    /**
     * `_step`: one LSTM timestep on the input row held in `currentX`. From
     * zeroed accumulators it moves (hidden state, cell state) =
     * (`currentHiddenState`, `previousCandidate`) one step along the
     * recurrence, and leaves the hidden state it started from in
     * `previousHiddenState`. `currentX` is only read.
     */
    method Step(cell: Cell, ghost m: nat)
      requires Valid(cell.weights, m)
      requires tempXI[..] == Zeros(tempXI.Length) && tempHI[..] == Zeros(tempHI.Length)
      requires tempXF[..] == Zeros(tempXF.Length) && tempHF[..] == Zeros(tempHF.Length)
      requires tempXO[..] == Zeros(tempXO.Length) && tempHO[..] == Zeros(tempHO.Length)
      requires tempXC[..] == Zeros(tempXC.Length) && tempHC[..] == Zeros(tempHC.Length)
      modifies previousHiddenState, currentHiddenState, previousCandidate
      modifies currentInputGateState, tempXI, tempHI, currentForgetGateState, tempXF, tempHF
      modifies currentOutputGateState, tempXO, tempHO, currentCandidate, tempXC, tempHC
      ensures previousHiddenState[..] == old(currentHiddenState[..])
      ensures currentInputGateState[..] ==
        Gate(cell.weights.input, cell.innerActivation, currentX[..], old(currentHiddenState[..]))
      ensures currentForgetGateState[..] ==
        Gate(cell.weights.forget, cell.innerActivation, currentX[..], old(currentHiddenState[..]))
      ensures currentOutputGateState[..] ==
        Gate(cell.weights.output, cell.innerActivation, currentX[..], old(currentHiddenState[..]))
      ensures currentCandidate[..] == MapVec(cell.activation, previousCandidate[..])
      ensures State(currentHiddenState[..], previousCandidate[..]) ==
        LstmSpec.Step(cell, currentX[..], State(old(currentHiddenState[..]), old(previousCandidate[..])))
    {
      ghost var x := currentX[..];
      ghost var s := State(currentHiddenState[..], previousCandidate[..]);
      var ws := cell.weights;

      Assign(previousHiddenState, currentHiddenState);

      ComputeGate(ws.input, cell.innerActivation, currentX, previousHiddenState,
                  tempXI, tempHI, currentInputGateState);
      ComputeGate(ws.forget, cell.innerActivation, currentX, previousHiddenState,
                  tempXF, tempHF, currentForgetGateState);
      ComputeGate(ws.output, cell.innerActivation, currentX, previousHiddenState,
                  tempXO, tempHO, currentOutputGateState);
      ComputeGate(ws.candidate, cell.activation, currentX, previousHiddenState,
                  tempXC, tempHC, currentCandidate);
      ghost var i := Gate(ws.input, cell.innerActivation, x, s.h);
      ghost var f := Gate(ws.forget, cell.innerActivation, x, s.h);
      ghost var o := Gate(ws.output, cell.innerActivation, x, s.h);
      ghost var g := Gate(ws.candidate, cell.activation, x, s.h);
      assert currentInputGateState[..] == i && currentForgetGateState[..] == f;
      assert currentOutputGateState[..] == o && currentCandidate[..] == g;

      Update(currentCandidate, previousCandidate, currentInputGateState, currentForgetGateState);
      ghost var c := Add(Hadamard(g, i), Hadamard(s.c, f));
      Assign(previousCandidate, currentCandidate);
      Activate(cell.activation, currentCandidate);
      Mul(currentHiddenState, currentOutputGateState, currentCandidate);
      assert currentHiddenState[..] == Hadamard(o, MapVec(cell.activation, c));
      assert previousCandidate[..] == c;
    }

    /**
     * One iteration of `call`'s loop: copy row `i` of `x` into `currentX`,
     * `_clearTemp`, `_step`. The (hidden state, cell state) pair moves one
     * step along the recurrence on that row.
     */
    method Consume(cell: Cell, x: array2<real>, i: nat)
      requires Valid(cell.weights, x.Length1) && i < x.Length0
      modifies currentX, previousHiddenState, currentHiddenState, previousCandidate
      modifies currentInputGateState, tempXI, tempHI, currentForgetGateState, tempXF, tempHF
      modifies currentOutputGateState, tempXO, tempHO, currentCandidate, tempXC, tempHC
      ensures State(currentHiddenState[..], previousCandidate[..]) ==
        LstmSpec.Step(cell, Row(x, i), State(old(currentHiddenState[..]), old(previousCandidate[..])))
    {
      AssignRow(currentX, x, i);
      ClearTemp();
      Step(cell, x.Length1);
    }
  }

  /**
   * The LSTM layer. Its weights are set once, before any forward pass, and
   * only read afterwards.
   */
  class Lstm {
    const outputDim: nat
    const activation: real -> real
    const innerActivation: real -> real
    const weights: Weights

    constructor (outputDim: nat, activation: real -> real, innerActivation: real -> real, weights: Weights)
      ensures this.outputDim == outputDim && this.weights == weights
      ensures this.activation == activation && this.innerActivation == innerActivation
    {
      this.outputDim := outputDim;
      this.activation := activation;
      this.innerActivation := innerActivation;
      this.weights := weights;
    }

    function AsCell(): (cell: Cell)
    {
      Cell(weights, activation, innerActivation)
    }

    /**
     * `call`: consume the rows of `x` in increasing order, one LSTM step per
     * row, and return the final hidden-state tensor. With no rows it is the
     * freshly allocated, all-zero hidden state.
     */
    method Call(x: array2<real>) returns (hidden: array<real>)
      requires Shaped(weights, x.Length1)
      ensures hidden.Length == Dim(weights)
      ensures x.Length0 == 0 ==> hidden[..] == Zeros(Dim(weights))
      ensures hidden[..] == Forward(AsCell(), Rows(x), Init(Dim(weights))).h
    {
      var scratch := new Scratch(weights, x.Length1);
      var cell := AsCell();
      ghost var xs := Rows(x);
      ghost var n := Dim(weights);
      assert RowsFit(weights, xs);

      var steps := x.Length0;
      for i := 0 to steps
        invariant xs == Rows(x)
        invariant RowsFit(weights, xs[..i])
        invariant State(scratch.currentHiddenState[..], scratch.previousCandidate[..]) ==
          Forward(cell, xs[..i], Init(n))
      {
        ForwardPrefix(cell, xs, i, Init(n));
        scratch.Consume(cell, x, i);
      }
      assert xs[..steps] == xs;
      hidden := scratch.currentHiddenState;
    }
  }
}
