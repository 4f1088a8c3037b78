# LSTM forward pass

A model of the forward pass of the keras-js LSTM layer
(`src/layers/recurrent/LSTM.js`): `call`, which allocates the layer's scratch
tensors, then for every input row copies the row into `currentX`, zeroes the
eight gate accumulators (`_clearTemp`) and runs one timestep (`_step`), and
finally hands back the hidden-state tensor; and the two `cwise` kernels
`_combine` and `_update` that `_step` uses.

The model is imperative where the layer is. The scratch tensors are
`array<real>` buffers held by the class `Scratch`, whose constructor is the
buffer setup of `call` and whose methods `ClearTemp` and `Step` are the two
closures `_clearTemp` and `_step`. `Lstm.Call` runs the same `for` loop over
the rows of a two-dimensional input. The library kernels it calls on tensors
(`ops.assign`, `ops.assigns`, `ops.mul`, `gemv`, a row `pick`, an in-place
activation) are methods over arrays with their mathematical contracts.

Every buffer operation is proved against a pure specification over exact
reals (module `LstmSpec`):
- `Gate` is one gate: the activation of `wᵀ·x + uᵀ·h + b`.
- `Step` is one timestep.
- `Forward` consumes the rows first to last.

`Scratch.Step` is proved to move the pair (`currentHiddenState`,
`previousCandidate`) exactly one `Step` along the recurrence. `Lstm.Call` is
proved to return exactly the hidden state of `Forward` from the all-zero
state. The lemmas about `Forward` and `Step` state the properties the design
relies on:
- Why the accumulators must be zeroed before each step.
- That running rows in order composes.
- The first step from the zero state.
- That a closed input gate with an open forget gate keeps the cell state.

Modules:
- `Vectors` (vectors.dfy): vectors and row-major matrices over `real`; the transposed product `MatTVec`.
- `NdArray` (ndarray.dfy): the tensor kernels the layer calls.
- `LstmSpec` (lstm_spec.dfy): weights, state, gates, `Step`, `Forward` and their lemmas.
- `LstmLayer` (lstm_layer.dfy): `_combine`, `_update`, the scratch buffers with `_clearTemp` and `_step`, and the layer with `call`.

Two places where this model follows the code rather than a plain reading
of the design:
- The layer accumulates `Wᵀ·x` and `Uᵀ·h` into two separate buffers per gate (`tempX*`, `tempH*`) and adds them with the bias in `_combine`. It does not accumulate both products into one buffer.
- The layer sizes each gate's buffers from that gate's own bias but combines them elementwise. The model therefore requires all four biases to have the same length (`LstmSpec.Shaped`).

## Model

| member | source | states |
|---|---|---|
| LstmLayer.Combine | src/layers/recurrent/LSTM.js:38-43 | `y` becomes `x1 + x2 + b` elementwise, computed from the values the inputs had before the call, even when `y` is one of them |
| LstmLayer.Update | src/layers/recurrent/LSTM.js:45-50 | `c` becomes `c ⊙ i + ctm1 ⊙ f` from the old values, in place |
| NdArray.Gemv | src/layers/recurrent/LSTM.js:93-94 | `gemv(1.0, Aᵀ, v, 1.0, y)`: `y` becomes `Aᵀ·v + y` (beta 1 adds to what the buffer held), each entry the column dot product summed in row order |
| NdArray.Assigns | src/layers/recurrent/LSTM.js:85-88 | `ops.assigns(t, 0)`: every element becomes the given value |
| NdArray.Assign | src/layers/recurrent/LSTM.js:91 | `ops.assign`: the destination becomes a copy of the source |
| NdArray.AssignRow | src/layers/recurrent/LSTM.js:127 | `ops.assign(currentX, x.pick(i, null))`: the destination becomes row `i` of `x` |
| NdArray.Mul | src/layers/recurrent/LSTM.js:123 | `ops.mul`: the destination becomes the elementwise product of the two operands |
| NdArray.Activate | src/layers/recurrent/LSTM.js:96 | an activation applied in place: every element `v` becomes `f(v)` |
| LstmLayer.ComputeGate | src/layers/recurrent/LSTM.js:93-96 | one gate block: the accumulators gain `wᵀ·x` and `uᵀ·h`; the gate buffer holds the activation of `wᵀ·x + uᵀ·h + b` plus whatever the accumulators held, and it is exactly the gate when they started at zero |
| LstmLayer.NewTensor | src/layers/recurrent/LSTM.js:58 | `new Tensor([], [n])`: a fresh tensor of length `n`, all zero, distinct from every tensor allocated before it |
| LstmLayer.Scratch.constructor | src/layers/recurrent/LSTM.js:58-83 | the sixteen buffers are fresh, pairwise distinct and sized from the input width and the bias lengths; hidden state and cell state start at zero |
| LstmLayer.Scratch.ClearTemp | src/layers/recurrent/LSTM.js:85-88 | all eight accumulators are zero afterwards, and only they change |
| LstmLayer.Scratch.Step | src/layers/recurrent/LSTM.js:90-124 | `previousHiddenState` becomes the old hidden state. The input, forget and output gate buffers hold their gates under the inner activation of `Wᵀx + Uᵀh + b`. The pair (hidden state, cell state in `previousCandidate`) becomes `LstmSpec.Step` of the old pair, and `currentCandidate` is the activation of the saved cell state. |
| LstmLayer.Scratch.Consume | src/layers/recurrent/LSTM.js:126-130 | one loop iteration (row copy, `_clearTemp`, `_step`) moves (hidden state, cell state) one `LstmSpec.Step` along on row `i` |
| LstmLayer.Lstm.constructor | src/layers/recurrent/LSTM.js:19-32 | the layer keeps its output dimension, activation, inner activation and weights as given |
| LstmLayer.Lstm.Call | src/layers/recurrent/LSTM.js:57-135 | the result has the gate dimension `dim(b_c)`; with no rows it is all zero; in general it is the hidden state of `Forward` over the rows in increasing order from the zero state |
| LstmSpec.Step | src/layers/recurrent/LSTM.js:90-124 | one timestep keeps hidden and cell state at the gate dimension |
| LstmSpec.Forward | src/layers/recurrent/LSTM.js:126-130 | the forward pass keeps hidden and cell state at the gate dimension |
| LstmSpec.AccumulatedIsPreActivationIff | src/layers/recurrent/LSTM.js:85-96 | the combined gate input equals `wᵀ·x + uᵀ·h + b` if and only if the residues left in the two accumulators sum to zero, which is why `_clearTemp` runs before every step |
| LstmSpec.ForwardAppend | src/layers/recurrent/LSTM.js:126-130 | running two row sequences one after the other is running their concatenation |
| LstmSpec.ForwardSnoc | src/layers/recurrent/LSTM.js:126-130 | the last row is consumed last, from the state the earlier rows left |
| LstmSpec.ForwardPrefix | src/layers/recurrent/LSTM.js:126-130 | the first `i + 1` rows give one `Step` on row `i` after the first `i` rows |
| LstmSpec.FirstStep | src/layers/recurrent/LSTM.js:90-124 | from the all-zero state the first step sees only `Wᵀ·x + b` in every gate, and the cell state is `candidate ⊙ input` |
| LstmSpec.MemoryRetention | src/layers/recurrent/LSTM.js:113-120 | with the input gate at 0 and the forget gate at 1 the cell state passes through a step unchanged |

## Left out

- Floating point: all arithmetic is over exact reals. Float32 rounding, NaN and overflow are not modelled, and neither is the order in which `gemv` or `cwise` would round.
- The activation functions (`../../activations`) are arbitrary `real -> real` functions applied elementwise. The name lookup `activations[activation]` with defaults `'tanh'` and `'hardSigmoid'` is replaced by passing the functions in.
- Lstm.constructor: the default `outputDim = 1` and the `params` list of weight names are not modelled. The `Layer` base class and weight loading are not part of this model; the weights are given immutable values.
- `Tensor`, `ndarray-ops`, `ndarray-blas-level2` and `cwise` are not part of this model. Only their mathematical contracts are used, and a transposed view is stated as the transposed product.
- Lstm.Call: the final `x.tensor = currentHiddenState.tensor` overwrite of the argument is modelled as returning the hidden-state array. The returned tensor is that array, not a copy.
- `_step` and `_clearTemp` are closures over the locals of `call`. Here they are methods of `Scratch`, whose fields are those locals. The four identical gate blocks of `_step` are one method, `ComputeGate`. The three statements of the loop body are `Scratch.Consume`.
- Inputs whose four bias lengths differ, or whose weight matrices do not match them, are outside the model (see `LstmSpec.Shaped`).
