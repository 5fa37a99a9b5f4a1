# chainer-qrnn in Dafny

A model of the quasi-recurrent neural network (QRNN) package for Chainer and of
the list and integer logic of its training scripts, with proofs about it.

The code is Python 2. rnn/dataset.py calls `xrange` without importing it, and
example/train_rnn.py uses the built-in `reduce`. The model follows Python 2
where that matters: dicts have no defined iteration order, and every `/` in the
modelled code divides floats.

It covers:

- **The QRNN layer of `qrnn.py`.** The zoneout operator with its cached mask,
  the forget gate with zoneout, the causal convolution and its trim, `pool`
  with the `ct`/`ht`/`H` fields it updates step by step, `reset_state`,
  `set_state` and the getters, `forward_one_step`, the decoder that adds a
  broadcast encoder vector, and the global-attentive decoder with its context
  loop and causal attention window.
- **The data readers.** `read_data` of `rnn/dataset.py` and of
  `example/train_rnn.py` cover the vocabulary, the BOS/EOS encoding, the inverse
  vocabulary, the shuffle and the train/dev/test cuts. Alongside them are
  bucketing by length with in-place padding, the sample-size clamp, and the
  shifted source/target pair.
- **The example language model.** Its dense residual sums, its evaluators (the
  sections of 100 rows, the token count and perplexity of a batch, the mean of
  the scores) and its training loop.
- **The schedule of `rnn/train.py` and `seq2seq/train.py`.** This covers
  `min_num_data`, `repeats`, `num_updates_per_iteration`, `num_iteration`,
  the `--buckets-limit` truncation, the translation model's skip mask, and
  the learning-rate halving.

### How values and primitives are modelled

- One example of a batch is modelled. The batch axis is data-parallel in every
  modelled operation.
- A `Frame` is a `seq<real>` over channels. A sequence of steps is a
  `seq<Frame>` in time-major order.
- Python floats are Dafny `real`s.
- These primitives are function-valued parameters on which nothing is assumed:
  - `tanh`, `sigmoid` and `exp` (for `exp`, only positivity where softmax needs it);
  - the convolution kernel (output channel `c` as a function of a window of `k` frames);
  - the `Linear` and `EmbedID` links;
  - the model's log-probabilities.
- These random quantities are inputs:
  - the uniform draws of `numpy.random.rand`;
  - the random numbers `random.shuffle` consumes;
  - the indices `np.random.choice` picks.
- Python semantics are written out where the code relies on them:
  - slices with negative and out-of-range bounds (`PyOps.Slice`);
  - floor division `//`;
  - `int()` on a float truncating toward zero;
  - the exceptions that asserts, divisions and shape checks raise (`PyOps.Result`).
- A dict is its key-to-id map plus a list of its keys (`Vocabulary.Dict`). The
  list's order is a choice of the model, since Python 2 fixes none. The one
  place that iterates the dict, `vocab_inv`, gives the same result for every
  order when the ids are distinct (`Vocabulary.InverseOfOrderFree`).
- The layer trims the convolution with the slices the code writes. At kernel
  width 1 they keep no step. From width 2 on they are the causal trim.

Modules, one file each:
- `py.dfy` (PyOps) and `tensor.dfy` (Tensor): foundations.
- `zoneout.dfy`, `conv.dfy` (CausalConv), `pooling.dfy`, `attention.dfy`,
  `qrnn.dfy` (QRNNLayer) and `layer_props.dfy` (LayerProps): the layer.
- `text.dfy`, `vocab.dfy` (Vocabulary), `reader.dfy`, `buckets.dfy` and
  `evaluation.dfy`: the data side.
- `dense.dfy` (DenseLM): the example language model.
- `equilibrium.dfy`: the training schedule.

## Model

| member | source | states |
|---|---|---|
| PyOps.SliceBound | qrnn.py:58 | a slice bound counts from the end when negative and is clamped to `0..len` |
| PyOps.SliceDropLast | rnn/dataset.py:86 | `s[:-k]` for `k >= 1` is `s` without its last `k` elements (empty when `k > len`) |
| PyOps.SliceMinusZero | qrnn.py:57-58 | `s[:-0]` is empty for every `s` |
| PyOps.SlicePrefix | rnn/dataset.py:39 | `s[:n]` for `n >= 0` is the first `min(n, len(s))` elements |
| PyOps.SliceSplit | rnn/dataset.py:39-40 | `s[:i] + s[i:] == s` for every integer `i` |
| PyOps.FloorDiv | rnn/train.py:57 | `a // b` is the quotient rounded toward minus infinity (bracketing inequalities for both signs of `b`) |
| PyOps.Trunc | rnn/dataset.py:38 | `int(x)` truncates toward zero: `n <= x < n + 1` for `x >= 0`, `n - 1 < x <= n` otherwise |
| Zoneout.MaskFrame | qrnn.py:21 | channel `c` is kept exactly when its uniform draw is at least the ratio |
| Zoneout.DrawMask | qrnn.py:18-24 | the mask has the shape of the draws, frame by frame |
| Zoneout.ApplyFrame | qrnn.py:25 | `x * mask` on one frame: kept channels pass through, the others are 0 |
| Zoneout.ApplyMask | qrnn.py:25 | `x * mask` on the grid, step by step |
| Zoneout.RatioOneDropsAll | qrnn.py:21-25 | with ratio 1 and draws in `[0, 1)` every output entry is 0 |
| Zoneout.RatioZeroKeepsAll | qrnn.py:21-25 | with ratio 0 the operator is the identity |
| Zoneout.ZoneoutFunction.constructor | qrnn.py:10-11 | a new operator holds its ratio and no mask |
| Zoneout.ZoneoutFunction.Forward | qrnn.py:17-25 | the mask is drawn only when absent and kept afterwards; the output is the input times that mask |
| Zoneout.ZoneoutFunction.Backward | qrnn.py:27-28 | the gradient is multiplied by exactly the mask the forward pass stored |
| Zoneout.ApplyZoneout | qrnn.py:30-31 | a fresh operator: entry `(t, c)` is `x[t][c]` when `ratio <= u[t][c]`, else 0 |
| CausalConv.ConvFrame | qrnn.py:36 | one output frame has `outCh` channels, channel `c` the kernel applied to the window |
| CausalConv.ZeroPad | qrnn.py:36 | `pad` zero frames on each side; the input is unchanged in between |
| CausalConv.Convolve | qrnn.py:36 | a stride-1 convolution: one output per full window of `k` frames, output `j` from window `j..j+k-1` |
| CausalConv.ConvPadded | qrnn.py:36 | the link padded by `k - 1` returns `|x| + k - 1` steps of `outCh` channels |
| CausalConv.CausalTrim | qrnn.py:57-58 | the intended trim keeps the first `|y| - pad` steps |
| CausalConv.TrimAgreesFromWidthTwo | qrnn.py:57-58 | for every kernel width of at least 2 the slice as written is the causal trim |
| CausalConv.TrimKernelOneIsEmpty | qrnn.py:57-58 | for kernel width 1 the slice as written keeps no step, while the causal trim keeps `|x|` |
| CausalConv.CausalWindow | qrnn.py:42-58 | the window of step `t` holds `k` frames |
| CausalConv.Preact | qrnn.py:57-58 | the trimmed convolution has one frame per input step, the kernel applied to the causal window of that step |
| CausalConv.PreactCausal | qrnn.py:42-58 | output step `t` depends only on input steps `t-k+1..t` |
| CausalConv.LastStep | qrnn.py:68-69 | the intended one-step slice is the step before the last `pad` (empty when there is none) |
| CausalConv.LastStepAgreesFromWidthTwo | qrnn.py:68-69 | for kernel width at least 2 the slice `[-pad-1:-pad]` is that step |
| CausalConv.LastStepKernelOneIsEmpty | qrnn.py:68-69 | for kernel width 1 the slice `[-1:-0]` is empty for every input |
| CausalConv.OneStepPreact | qrnn.py:65-69 | `forward_one_step` hands on one frame of `outCh` channels (none for an empty input) |
| CausalConv.OneStepIsLastColumn | qrnn.py:65-69 | that frame is the last step of the full causal convolution of the same input |
| CausalConv.PreactAsWritten | qrnn.py:57-58 | the layer's `self.W(X)[:, :, :-pad]`: no step at kernel width 1, and from width 2 on the causal pre-activations `Preact`, one frame of `outCh` channels per input step |
| CausalConv.OneStepAsWritten | qrnn.py:68-69 | the layer's `[:, :, -pad-1:-pad]`: no step at kernel width 1, and from width 2 on the one-step frame `OneStepPreact` |
| Pooling.Zip | qrnn.py:108-113 | the loop reads one `(zt, ft, ot, it, xt)` per step, in order |
| Pooling.Cell | qrnn.py:115-118 | the new cell state is as wide as the forget gate |
| Pooling.Hidden | qrnn.py:119 | `ht = ct` without an output gate; with one it is as wide as the gate |
| Pooling.RunSnoc | qrnn.py:107-124 | one more iteration at the end of the loop is one more `Advance` |
| Pooling.RunPrefixStep | qrnn.py:107-124 | iteration `t` advances the state the first `t` iterations left |
| Pooling.RunAppends | qrnn.py:121-124 | each step appends exactly one column to `H` and keeps the old ones; after a step `ct`, `ht` and `H` are set |
| Pooling.RunConcat | qrnn.py:115-124 | without a reset the state carries over: the loop over `a` then `b` is the loop over `a + b` |
| Pooling.ColumnIsStepOutput | qrnn.py:119-124 | the column appended by step `j` is the `ht` of step `j` |
| Pooling.RunPrefixColumns | qrnn.py:107-124 | two loops whose first `n` iterations agree append the same first `n` columns |
| Pooling.RunCausal | qrnn.py:107-124 | the state after `n` steps is decided by the first `n` steps alone |
| Pooling.ZipConcat | qrnn.py:107-113 | the iterations of two consecutive calls are those of one call over both inputs (the first mask as long as its steps) |
| Pooling.FirstStepIgnoresInputGate | qrnn.py:115-116 | at the first step `c = (1 - f) * z * x` in every mode; the ifo input gate is not used |
| Pooling.SkippedStepDecays | qrnn.py:113-118 | a skipped step gives `c = f * c_prev`, or 0 with no prior cell |
| Pooling.FPoolingHiddenIsCell | qrnn.py:111-119 | in f-pooling the hidden state equals the cell state |
| Pooling.DropInputGate | qrnn.py:112 | the steps are kept, each with its input gate removed |
| Pooling.CoupledInputGateIsFo | qrnn.py:112-118 | ifo-pooling whose input gate is `1 - f` computes fo-pooling |
| Pooling.CellForgetOne | qrnn.py:116-118 | with forget gate 1 a step keeps the cell state (0 when there is none) |
| Pooling.FrozenForgetGate | qrnn.py:115-118 | a forget gate of 1 throughout freezes the cell at its prior value (0 with none) |
| Pooling.RunShape | qrnn.py:107-124 | the loop keeps `ct`, `ht` and every column of `H` `w` channels wide |
| Pooling.FPoolingExample | qrnn.py:115-124 | f-pooling on `z = [0.2, 0.5]`, `f = [0.3, 0.7]` gives `H = [0.14, 0.248]` |
| Pooling.FoPoolingExample | qrnn.py:115-124 | with `o = [1.0, 0.5]` it gives `c = 0.248`, `h = 0.124`, `H = [0.14, 0.124]` |
| Attention.ContextSteps | qrnn.py:281-283 | the context loop reads `z` and `f`, with no other gate and no mask |
| Attention.ContextStepIsPooling | qrnn.py:284-289 | one context step is one f-pooling step: cell and hidden state are the context |
| Attention.Window | qrnn.py:295 | step `t` sees the first `min(t + 1, len(H_enc))` encoder states |
| Attention.Scores | qrnn.py:296 | one score per window position, the dot product with the context |
| Attention.MapExpPositive | qrnn.py:297 | every `exp` of a score is positive |
| Attention.Softmax | qrnn.py:297 | the weights are positive and, over a non-empty window, sum to 1 |
| Attention.WeightedSum | qrnn.py:298-299 | the read-out `k_t` is `w` channels wide |
| Attention.AttendStep | qrnn.py:294-301 | the output of a step is as wide as its output gate |
| Attention.AttendAll | qrnn.py:293-305 | one output per decoder step, step `t` from `contexts[t]`, `O[t]` and the window of `t` |
| Attention.AttendCausal | qrnn.py:295 | encoder states after position `t` cannot change the output of step `t` |
| Attention.SoftmaxSingle | qrnn.py:297 | a window of one position gets weight 1 |
| Attention.WeightedSumSingle | qrnn.py:299 | a single position with weight 1 is read out unchanged |
| Attention.WeightedSumBounds | qrnn.py:298-299 | with non-negative weights, channel `c` of the weighted sum lies between `Sum(alpha) * lo` and `Sum(alpha) * hi` when every position's channel `c` lies in `[lo, hi]` |
| Attention.ReadOutBetween | qrnn.py:296-299 | the read-out `k_t` is a convex combination of the window: each channel lies between the window's bounds for that channel |
| Attention.AttendFirstStep | qrnn.py:301 | step 0 outputs `o_0 * W_o [H_enc[0]; c_0]` |
| QRNNLayer.Part | qrnn.py:63 | part `p` of `split_axis` is channels `p*w .. p*w+w-1` of every step |
| QRNNLayer.SplitParts | qrnn.py:63 | `split_axis(WX, n)` gives `n` parts of `w` channels |
| QRNNLayer.SplitJoin | qrnn.py:63 | splitting and joining the first `m` parts gives back the first `m * w` channels of each step |
| QRNNLayer.ForgetGate | qrnn.py:72-75 | with zoneout in training `F = 1 - sigmoid(-U)` where kept and exactly 1 where zoned out; otherwise `F = sigmoid(U)` |
| QRNNLayer.ForgetGateAllZonedOut | qrnn.py:72-75 | with ratio 1 and draws in `[0, 1)` the forget gate is 1 everywhere |
| QRNNLayer.MakeGates | qrnn.py:80-105 | the dispatch succeeds iff the pooling string has length 1..3 and the part count is that length plus 1; a failure is an `AssertionError`; the gates are the activations the branch applies |
| QRNNLayer.MakeGatesAligned | qrnn.py:80-105 | gates built from equal-length parts have one entry per step |
| QRNNLayer.MaskInput | qrnn.py:51-55 | `X *= skip_mask`: a skipped step's input frame becomes 0, the others are unchanged |
| QRNNLayer.InjectEncoder | qrnn.py:231-254 | `V(ht_enc)` is added to every step of `WX` |
| QRNNLayer.InjectZeroIsIdentity | qrnn.py:248-254 | a zero encoder vector leaves the pre-activations unchanged |
| QRNNLayer.InjectUniform | qrnn.py:248 | the injection is the same at every step |
| QRNNLayer.QRNN.constructor | qrnn.py:34-38 | `num_split = len(pooling) + 1`, the configuration is stored, and the state is reset |
| QRNNLayer.QRNN.ResetState | qrnn.py:203-204 | `ct`, `ht` and `H` become `None` |
| QRNNLayer.QRNN.SetState | qrnn.py:206-209 | the three fields take the given values |
| QRNNLayer.QRNN.GetLastHiddenState | qrnn.py:211-212 | returns `ht` |
| QRNNLayer.QRNN.GetAllHiddenStates | qrnn.py:214-215 | returns `H` |
| QRNNLayer.QRNN.CallParts | qrnn.py:51-63 | `num_split` parts of `outChannels`-wide frames, one per input step from kernel width 2 on and none at width 1 |
| QRNNLayer.QRNN.OneStepParts | qrnn.py:68-70 | `num_split` parts of one frame each from kernel width 2 on (none for an empty input), and no frame at width 1 |
| QRNNLayer.QRNN.DecoderParts | qrnn.py:229-254 | the decoder hands on `num_split` parts with one frame per input step from kernel width 2 on, and none at width 1 |
| QRNNLayer.QRNN.PoolStep | qrnn.py:115-124 | one loop body updates the fields to the `Advance` of the old state |
| QRNNLayer.QRNN.PoolLoop | qrnn.py:107-124 | the loop leaves the fields at the run of all steps from the old state |
| QRNNLayer.QRNN.Pool | qrnn.py:77-129 | return value and new fields are those of `PoolSpec` from the old state |
| QRNNLayer.QRNN.Call | qrnn.py:40-63 | a skip mask of the wrong length fails the assertion and leaves the state alone; otherwise the call is `pool` of the masked, convolved, trimmed and split input; at kernel width 1 no step is pooled, the fields keep their values and the old `H` is returned |
| QRNNLayer.QRNN.ForwardOneStep | qrnn.py:65-70 | `pool` of the newest column of the convolution, without a mask; at kernel width 1 nothing is pooled, the fields are kept and the old `H` is returned |
| QRNNLayer.QRNN.DecoderCall | qrnn.py:227-254 | `pool` of the parts with the encoder vector injected; at kernel width 1 the fields are kept and the old `H` is returned |
| QRNNLayer.QRNN.AttentiveGates | qrnn.py:268-276 | the attentive decoder has `z`, `f` and `o` gates, one entry per step from kernel width 2 on and none at width 1 |
| QRNNLayer.QRNN.EmitOutput | qrnn.py:301-305 | `ht` becomes the output; `H` restarts with it at `t = 0` and is appended to afterwards |
| QRNNLayer.QRNN.AttentionLoop | qrnn.py:293-305 | after a non-empty loop `H` is the attention output of every step (earlier columns are discarded) and `ht` its last; `ct` is untouched |
| QRNNLayer.QRNN.AttentiveCall | qrnn.py:264-306 | from kernel width 2 on and for a non-empty input, `H` is rebuilt with exactly `T` columns from the fresh contexts and the output gate and `ht` is its last column; at width 1 or for an empty input both loops run zero times and `ht` and `H` are kept; `ct` is untouched; the call returns `H` |
| QRNNLayer.QRNN.AttendGates | qrnn.py:280-306 | the two loops on given gates: the same new `H` and `ht` |
| QRNNLayer.Contexts | qrnn.py:280-289 | one context per decoder step |
| QRNNLayer.ContextsRecurrence | qrnn.py:284-289 | context 0 is `(1 - f) * z`, context `t` is `f * contexts[t-1] + (1 - f) * z` |
| QRNNLayer.ContextLoop | qrnn.py:280-289 | the context loop computes `Contexts`: f-pooling from the empty state, with `self.ct` not consulted |
| LayerProps.PoolSpecAppends | qrnn.py:80-129 | `pool` fails iff the pooling length is outside 1..3 or the parts do not match it, and then leaves the state; otherwise it appends one column per step, keeps the old ones and returns `H` |
| LayerProps.ForgetGateLocal | qrnn.py:72-75 | the forget gate at a step depends only on that step's pre-activation and draws |
| LayerProps.CallGates | qrnn.py:63-105 | the gates of a call have one entry per input step from kernel width 2 on, and none at width 1 |
| LayerProps.CallStepsShape | qrnn.py:107-113 | every iteration of a call reads frames `outChannels` wide |
| LayerProps.CallGatesRun | qrnn.py:63-124 | with a valid pooling string, the call leaves the run of its gates |
| LayerProps.CallKeepsShape | qrnn.py:107-124 | a call keeps the state `outChannels` wide |
| LayerProps.CallPartsCausal | qrnn.py:51-63 | inputs agreeing on their first `n` steps give the same pre-activations at the steps the trim keeps there |
| LayerProps.GatesLocal | qrnn.py:80-113 | iterations with equal pre-activations, skip values and draws read the same step |
| LayerProps.CallStepLocal | qrnn.py:51-113 | iteration `t` of two calls is the same when their pre-activations, skip values and draws agree at `t` |
| LayerProps.CallStepsCausal | qrnn.py:51-113 | the iterations two calls agreeing on `n` steps run over those steps are equal: all `n` from kernel width 2 on, none at width 1 |
| LayerProps.CallCausal | qrnn.py:40-129 | the hidden state of every step `t < n` the loop runs is decided by the first `n` input steps, mask entries and draws |
| LayerProps.CallSkippedStep | qrnn.py:55-118 | a skipped step's input is zeroed before the convolution; from kernel width 2 on its cell only decays, `c = f * c_prev` (0 with no prior cell) |
| LayerProps.FullZoneoutFreezesCell | qrnn.py:72-118 | from kernel width 2 on, zoneout with ratio 1 in training freezes the cell of f- and fo-pooling |
| LayerProps.DecoderZeroLinkIsPlain | qrnn.py:227-254 | a decoder whose `V` is zero computes the plain layer without a mask |
| LayerProps.OneStepIsLastStep | qrnn.py:65-70 | `forward_one_step` runs exactly the last iteration a full call over the same input runs; at kernel width 1 neither runs any and the state is kept |
| LayerProps.OneStepRunsLastStep | qrnn.py:65-70 | from kernel width 2 on, the one-step pass leaves the state the last iteration of a full call leaves |
| LayerProps.KernelOneLeavesState | qrnn.py:51-70 | at kernel width 1 `pool` of the parts of `__call__`, `forward_one_step` and the decoder runs no iteration: the state is unchanged and a success returns the old `H` |
| Text.LStrip | rnn/dataset.py:17 | drops exactly the leading whitespace |
| Text.RStrip | rnn/dataset.py:17 | drops exactly the trailing whitespace |
| Text.StripIsTrimmedPiece | rnn/dataset.py:17 | `strip()` returns a piece of the line with only whitespace around it, and the piece does not start or end with whitespace |
| Text.StripBlank | rnn/dataset.py:17-19 | a whitespace-only line strips to the empty string |
| Text.Split | rnn/dataset.py:21 | `split(" ")` returns at least one piece |
| Text.SplitJoin | rnn/dataset.py:21 | joining the pieces with the separator gives the line back |
| Text.JoinNewPiece | rnn/dataset.py:21 | a new empty last piece adds one separator |
| Text.JoinExtendLast | rnn/dataset.py:21 | a character added to the last piece is added to the joined string |
| Text.SplitPiecesFree | rnn/dataset.py:21 | no piece contains the separator |
| Text.SplitCount | rnn/dataset.py:21 | there is one more piece than there are separators |
| Text.SplitKeepsEmptyPieces | rnn/dataset.py:21 | two consecutive spaces give an empty word |
| Vocabulary.WellFormedMembers | rnn/dataset.py:8-13 | every listed key is in the dict and every key is listed |
| Vocabulary.Put | rnn/dataset.py:24 | `vocab[w] = id` sets `w`, keeps every other entry, and adds a key iff `w` is new (the model lists it last) |
| Vocabulary.PutWellFormed | rnn/dataset.py:24 | assignment keeps the key list in step with the map |
| Vocabulary.FromPairsWellFormed | rnn/dataset.py:8-13 | a dict display is well formed |
| Vocabulary.FromPairsDistinct | rnn/dataset.py:8-13 | a display with distinct keys holds each of them with its own value (the model lists them as written) |
| Vocabulary.ReservedWordsDistinct | rnn/dataset.py:9-12 | the reserved words of both readers are distinct |
| Vocabulary.Reserved | rnn/dataset.py:8-13 | the initial dict holds exactly `<pad>`, `<unk>`, `<bos>`, `<eos>`, each with its reserved id |
| Vocabulary.FromPairsDense | rnn/dataset.py:8-13 | distinct keys with distinct values below the size give a dense dict |
| Vocabulary.ReservedDense | rnn/dataset.py:8-13 | with distinct reserved ids below 4 the initial ids are distinct and below `len(vocab)` |
| Vocabulary.ExampleReserved | example/train_rnn.py:34-41 | the example's initial dict is `<pad>` 0, `<bos>` 1, `<eos>` 2 |
| Vocabulary.ExampleReservedDense | example/train_rnn.py:34-41 | the example's initial dict is dense |
| Vocabulary.Learn | rnn/dataset.py:23-25 | a known word keeps its id; an unseen word gets `len(vocab)`; nothing else changes |
| Vocabulary.LearnDense | rnn/dataset.py:23-24 | learning a word keeps the ids distinct and below `len(vocab)` |
| Vocabulary.LearnAll | rnn/dataset.py:22-25 | after a sentence every word is a key and old entries are kept |
| Vocabulary.LearnAllKeys | rnn/dataset.py:22-25 | a sentence adds exactly its words that were not keys |
| Vocabulary.LearnAllKeeps | rnn/dataset.py:22-25 | a sentence keeps the dict well formed and dense |
| Vocabulary.Lookup | rnn/dataset.py:25 | each word maps to its id |
| Vocabulary.LookupStable | rnn/dataset.py:23-25 | a known word's id never changes as the dict grows |
| Vocabulary.Encode | rnn/dataset.py:22-26 | the appended ids are the words' ids in the dict after the sentence |
| Vocabulary.EncodeInjective | rnn/dataset.py:22-26 | two positions share an id iff they hold the same word |
| Vocabulary.NewWordId | rnn/dataset.py:23-25 | an unseen word is encoded as `len(vocab)` |
| Vocabulary.EncodeSnoc | rnn/dataset.py:22-26 | one more word looked up appends its id |
| Vocabulary.EncodeSentence | rnn/dataset.py:20-27 | the inner loop gives `[bos] + word ids + [eos]` and the grown dict |
| Vocabulary.NonBlank | rnn/dataset.py:16-19 | at most one kept line per line of the file, and every kept line is non-empty |
| Vocabulary.Sentences | rnn/dataset.py:17-21 | one word list per non-blank line |
| Vocabulary.NonBlankSnoc | rnn/dataset.py:17-19 | a blank line adds nothing; any other line adds its stripped text |
| Vocabulary.SentencesSnoc | rnn/dataset.py:17-21 | a blank line adds no sentence |
| Vocabulary.EncodeAll | rnn/dataset.py:16-28 | one encoded row per sentence; the dict only grows |
| Vocabulary.EncodeAllKeeps | rnn/dataset.py:16-28 | encoding keeps the dict well formed and dense |
| Vocabulary.EncodeAllRow | rnn/dataset.py:20-28 | row `k` is `[bos] + ids of sentence k + [eos]`, in the final dict |
| Vocabulary.Read | rnn/dataset.py:16-28 | one row per non-blank line |
| Vocabulary.ReadSnoc | rnn/dataset.py:16-28 | a blank line changes nothing; any other line is encoded with the dict so far and appended |
| Vocabulary.ReadLines | rnn/dataset.py:16-28 | the reading loop computes `Read` |
| Vocabulary.InverseOf | rnn/dataset.py:30-32 | each id of `vocab_inv` maps to a key with that id; every key's id is present |
| Vocabulary.InverseOfOrderFree | rnn/dataset.py:30-32 | with distinct ids `vocab_inv` is the same whatever order `vocab.items()` lists the keys in |
| Vocabulary.InverseOfInjective | rnn/dataset.py:30-32 | with distinct ids, `vocab_inv` maps each word's id back to it |
| Vocabulary.Invert | rnn/dataset.py:30-32 | the loop over `vocab.items()` builds `InverseOf` |
| Vocabulary.InverseRoundTrip | rnn/dataset.py:30-32 | `vocab_inv[vocab[w]] == w` for every word, and `vocab_inv` holds exactly the ids in use |
| Vocabulary.Decode | rnn/dataset.py:30-32 | decoding maps each id through `vocab_inv` |
| Vocabulary.EncodeAllRoundTrip | rnn/dataset.py:20-32 | row `k` has `|words| + 2` entries, starts with `bos`, ends with `eos`, and its middle decodes to sentence `k` |
| Vocabulary.ReadRoundTrip | rnn/dataset.py:16-32 | row `k` of the dataset decodes to the words of the `k`-th non-blank line |
| Reader.Swap | rnn/dataset.py:35 | one exchange permutes the list |
| Reader.ShuffleFrom | rnn/dataset.py:34-35 | the Fisher-Yates loop returns a permutation |
| Reader.Shuffle | rnn/dataset.py:34-35 | `random.shuffle` returns a permutation of the dataset |
| Reader.CutAt | rnn/dataset.py:39-40 | `s[:k]` and `s[k:]` concatenate to `s` for every `k` |
| Reader.FractionOf | rnn/dataset.py:38 | `int(n * f)` for a fraction `f` lies in `0..n` |
| Reader.ShareOf | rnn/dataset.py:43 | `int(m * a / s)` lies in `0..m` for `0 <= a <= s` |
| Reader.SplitDataset | rnn/dataset.py:38-45 | raises `ZeroDivisionError` iff the ratios sum to 0; otherwise dev, train and test concatenate to the shuffled data in order |
| Reader.SplitDatasetSizes | rnn/dataset.py:38-45 | test holds what lies after `int(n * (tr + dv))`; dev holds `int(m * dv / (tr + dv))` of the other `m` rows |
| Reader.SplitExample | example/train_rnn.py:62-69 | validation, train and test concatenate to the shuffled data |
| Reader.DevShareDiffers | example/train_rnn.py:67 | the non-normalised share differs: 100 rows at 0.25/0.25 give 25 dev rows in the package and 12 in the example |
| Reader.Load | rnn/dataset.py:6-47 | ratios above 1 fail the assertion, ratios summing to 0 divide by zero, and anything else succeeds |
| Reader.LoadPartitions | rnn/dataset.py:34-45 | the three sets hold every encoded sentence exactly once and nothing else |
| Reader.LoadVocabInverse | rnn/dataset.py:8-32 | every id is below `len(vocab)`, and `vocab_inv[vocab[w]] == w` |
| Reader.ReadData | rnn/dataset.py:6-47 | the reader computes `Load` |
| Reader.LoadExample | example/train_rnn.py:32-71 | fails exactly with the assertion on the ratios |
| Reader.LoadExampleFacts | example/train_rnn.py:37-69 | the example's sets partition the encoded sentences, and its ids are below `len(vocab)` |
| Reader.ReadExampleData | example/train_rnn.py:32-71 | the example's reader computes `LoadExample` |
| Buckets.MaxLength | rnn/dataset.py:56-59 | the length of the longest row, attained by some row (0 for no rows) |
| Buckets.FirstFit | rnn/dataset.py:65-71 | the bucket index is the first size at least the length, or `len(sizes)` when none fits |
| Buckets.AppendMaxFits | rnn/dataset.py:60 | with `max_length` appended to the sizes every row fits |
| Buckets.Pad | rnn/dataset.py:67-69 | padding reaches `max(size, len)`, keeps the row as a prefix, and fills the rest with the pad id |
| Buckets.Place | rnn/dataset.py:62-72 | a row is padded to exactly the size of its bucket |
| Buckets.BucketsList | rnn/dataset.py:61 | one list per bucket size |
| Buckets.BucketsListSnoc | rnn/dataset.py:72 | placing one more row appends it, padded, to its first-fit bucket only |
| Buckets.PlacedFromPrefix | rnn/dataset.py:62-72 | a row placed from a prefix of the dataset is placed from the dataset |
| Buckets.BucketRows | rnn/dataset.py:62-72 | every row of bucket `b` has length `sizes[b]` and is a dataset row that first fits `b`, padded |
| Buckets.BucketHasRows | rnn/dataset.py:62-72 | every dataset row that first fits `b` is in bucket `b`, padded |
| Buckets.BucketsListTotal | rnn/dataset.py:62-72 | bucketing loses no row and adds none |
| Buckets.DropEmpty | rnn/dataset.py:73-78 | no more buckets than before |
| Buckets.DropEmptySnoc | rnn/dataset.py:74-77 | one more bucket is kept iff it is non-empty |
| Buckets.DropEmptyNonEmpty | rnn/dataset.py:75-76 | every kept bucket is non-empty |
| Buckets.DropEmptyMembers | rnn/dataset.py:73-78 | kept buckets are buckets, and every non-empty bucket is kept |
| Buckets.DropEmptyTotal | rnn/dataset.py:73-78 | dropping the empty buckets drops no row |
| Buckets.DropEmptyNone | rnn/dataset.py:73-78 | without empty buckets nothing changes |
| Buckets.PadAll | rnn/dataset.py:67-69 | every dataset row only grows at its end, and its original content is kept |
| Buckets.LongestRow | rnn/dataset.py:56-59 | the first loop computes `MaxLength` |
| Buckets.FindBucket | rnn/dataset.py:64-71 | the inner loop with its `break` computes `FirstFit` |
| Buckets.PadRow | rnn/dataset.py:67-69 | row `i` is padded in place; no other row changes |
| Buckets.KeepNonEmpty | rnn/dataset.py:73-78 | the last loop computes `DropEmpty` |
| Buckets.PadPrefix | rnn/dataset.py:62-72 | the dataset keeps its length while rows are placed |
| Buckets.PadPrefixStep | rnn/dataset.py:62-72 | placing row `i` pads it and touches no other row |
| Buckets.PadPrefixEnds | rnn/dataset.py:62-72 | before the loop the dataset is unchanged; after it every row is padded |
| Buckets.PlaceRow | rnn/dataset.py:63-72 | one loop body appends the padded row to its bucket and pads it in the dataset |
| Buckets.BucketSizes.constructor | example/train_rnn.py:15 | the module-level size list starts with the given sizes |
| Buckets.BucketSizes.MakeBuckets | rnn/dataset.py:55-78 | `bucket_sizes` grows by `max_length`, every row fits, the dataset rows are padded in place, and the result is the non-empty buckets |
| Buckets.MakeBucketsRows | rnn/dataset.py:55-78 | every row fits, the buckets hold all rows, and no returned bucket is empty |
| Buckets.SampleSize | rnn/dataset.py:81 | the sample size is `min(num_samples, len(bucket))` |
| Buckets.SampleBatch | rnn/dataset.py:80-83 | the batch has `min(num_samples, len(bucket))` rows, row `k` is `bucket[indices[k]]`, and, since `replace=False` draws distinct indices, no row is taken more often than it occurs in the bucket (`multiset(batch) <= multiset(bucket)`) |
| Buckets.Pick | rnn/dataset.py:83 | NumPy's fancy indexing `bucket[indices]` has one row per index |
| Buckets.PickSubMultiset | rnn/dataset.py:82-83 | picking at distinct in-range indices yields a sub-multiset of the bucket |
| Buckets.SourceTargetPair | rnn/dataset.py:85-89 | one source row per batch row |
| Buckets.SourceTargetShift | rnn/dataset.py:85-89 | the source drops the last column; the target has `R * (L - 1)` entries, with row `i` without its first word starting at `i * (L - 1)` |
| Buckets.SourceColumns | rnn/dataset.py:86 | source row `i` is batch row `i` without its last word |
| Buckets.TargetRowAt | rnn/dataset.py:87-88 | the target stretch of row `i` is that row from its second word on |
| Buckets.TargetIndex | rnn/dataset.py:87-88 | `target[i * (L - 1) + j] == batch[i][j + 1]` |
| Buckets.BucketIsMatrix | rnn/dataset.py:62-72 | every bucket is a matrix of its size, so the shifted pair applies |
| Evaluation.SplitEvery | example/train_rnn.py:142-143 | `np.split` at `num` cut points gives `num + 1` sections |
| Evaluation.QuotientFits | example/train_rnn.py:141 | `(n // bs) * bs <= n < (n // bs) * bs + bs`, with equality iff `bs` divides `n` |
| Evaluation.SplitEveryPartition | example/train_rnn.py:142-143 | the sections concatenate to the bucket; all but the last have `bs` rows |
| Evaluation.SectionsAsWrittenPartition | example/train_rnn.py:140-145 | the evaluators' sections concatenate to the bucket, all but the last with `bs` rows |
| Evaluation.SectionsAsWrittenEmptyLast | example/train_rnn.py:140-145 | for a length that is a multiple of `bs` and above it, the last section is empty |
| Evaluation.TwoHundredRowsGiveEmptySection | example/train_rnn.py:140-145 | 200 rows give three sections, the last of them empty |
| Evaluation.SectionsPartition | example/train_rnn.py:140-145 | the corrected sections partition the bucket; none is empty or longer than `bs` |
| Evaluation.SectionsAgree | example/train_rnn.py:140-145 | the corrected and the written sections agree whenever `bs` does not divide the length |
| Evaluation.Cut | example/train_rnn.py:140-145 | a bucket gives at least one section under either cutting (`[dataset]` when it has at most 100 rows) |
| Evaluation.AllSections | example/train_rnn.py:138-145 | the sections of every bucket in order, cut as written (`len // bs` cut points) or corrected |
| Evaluation.AllSectionsAgree | example/train_rnn.py:138-145 | when `bs` divides no bucket length, both cuttings give the same sections |
| Evaluation.AllSectionsAppend | example/train_rnn.py:138-148 | the sections of joined bucket lists are joined |
| Evaluation.ScoreAll | example/train_rnn.py:147-148 | one score per section, each the score of that section |
| Evaluation.ScoreAllSucceeds | example/train_rnn.py:147-148 | when no score raises, all sections score |
| Evaluation.ScoreAllStops | example/train_rnn.py:147-148 | once a score has raised, nothing after it runs |
| Evaluation.Mean | example/train_rnn.py:149 | `reduce(+) / len` fails iff the list is empty |
| Evaluation.MeanBounds | example/train_rnn.py:149 | the mean lies between any bounds of the scores |
| Evaluation.EvaluateNoBuckets | example/train_rnn.py:149 | with no buckets `reduce` raises `TypeError` |
| Evaluation.EvaluateBounds | example/train_rnn.py:135-149 | when every section scores in `[lo, hi]`, so does the evaluation |
| Evaluation.AllSectionsStep | example/train_rnn.py:138-145 | one more bucket appends its sections |
| Evaluation.ScoreAllStep | example/train_rnn.py:147-148 | one more section extends the scores, or raises what it raised |
| Evaluation.EvaluateStops | example/train_rnn.py:138-148 | the first exception decides the whole evaluation |
| Evaluation.EvaluateStopsInBucket | example/train_rnn.py:138-148 | an exception while scoring the buckets up to `b` is the outcome of the whole evaluation |
| Evaluation.ScoreSections | example/train_rnn.py:147-148 | the inner loop extends the scores so far with those of one bucket's sections, and stops at the first exception |
| Evaluation.Evaluate | example/train_rnn.py:135-149 | the nested loops, cutting each bucket at `len // 100` as the code does, compute `EvaluateBuckets` under the written cutting |
| Evaluation.EvaluateAgrees | example/train_rnn.py:135-149 | when `bs` divides no bucket length, the written and the corrected evaluations are equal |
| Evaluation.AllSectionsNonEmpty | example/train_rnn.py:138-145 | with non-empty buckets every corrected section is non-empty |
| Evaluation.ScoreAllRaises | example/train_rnn.py:147-148 | a raising section makes the evaluation raise |
| Evaluation.NumTokens | example/train_rnn.py:172-177 | `num_tokens` is the index of the first 0 in the target, or its length when there is none |
| Evaluation.RowScore | example/train_rnn.py:171-179 | a row fails with `assert num_tokens > 0` iff it starts with padding |
| Evaluation.ScoreRow | example/train_rnn.py:171-179 | the token loop computes `RowScore` |
| Evaluation.NumTokensOfPaddedRow | example/train_rnn.py:172-177 | a padded `[bos] + words + [eos]` row scores every word and `eos`, and none of the padding |
| Evaluation.RowTotal | example/train_rnn.py:169-179 | a failure of the row loop is the `num_tokens` assertion |
| Evaluation.RowTotalRaises | example/train_rnn.py:169-179 | the rows raise iff one has no word to score |
| Evaluation.RowTotalStops | example/train_rnn.py:169-179 | after the first failing row the total no longer changes |
| Evaluation.BatchPerplexity | example/train_rnn.py:158-180 | an empty batch divides by zero, and only an empty batch does |
| Evaluation.EmptySectionRaises | example/train_rnn.py:187-195 | the empty third section of a 200-row bucket makes `compute_perplexity_batch` raise |
| Evaluation.EvaluateTwoHundredRaises | example/train_rnn.py:185-195 | `compute_perplexity` on one bucket of 200 rows that hold words raises `ZeroDivisionError` as written; the corrected cutting succeeds |
| Evaluation.BatchPerplexityDefined | example/train_rnn.py:158-180 | every row holds a word before its padding, so the batch has a perplexity |
| Evaluation.ScoreTargetRow | example/train_rnn.py:166-179 | row `i` of the split target is scored as its own row |
| Evaluation.PerplexityBatch | example/train_rnn.py:158-180 | the row loop computes `BatchPerplexity` |
| DenseLM.Embed | example/train_rnn.py:225-226 | with the `ignore_label=0` of line 208, id 0 embeds to zeros; other ids to their vectors |
| DenseLM.AddHidden | example/train_rnn.py:228-230 | `H + X` raises `TypeError` when `H` is `None` and `InvalidType` on different shapes; otherwise it is the sum at every step |
| DenseLM.Project | example/train_rnn.py:231-232 | one `num_vocab`-wide output per step |
| DenseLM.DenseLayer | example/train_rnn.py:227-228 | a successful residual sum has one frame per step |
| DenseLM.LayerPass | example/train_rnn.py:227-229 | a fo layer of kernel width 2 or more appends one column per step and keeps its state `ndim` wide |
| DenseLM.DenseLayerPass | example/train_rnn.py:227-230 | from a fresh layer a non-empty input gives `H + X` step by step; stale columns fail the shape check; an empty input on a fresh layer finds `H` still `None` |
| DenseLM.Model.constructor | example/train_rnn.py:206-212 | two fo QRNN layers of `ndim` channels with zoneout, in the reset state |
| DenseLM.Model.ResetState | example/train_rnn.py:218-220 | resets both layers |
| DenseLM.Model.Call | example/train_rnn.py:224-233 | the result and the layers' new states are those of `Forward` from the old states |
| DenseLM.ForwardFromFresh | example/train_rnn.py:224-233 | from fresh layers a non-empty input succeeds: output `t` is `l3(l2.H[t] + l1.H[t] + H0[t])` |
| DenseLM.ForwardKeepsShape | example/train_rnn.py:224-233 | a forward pass keeps both states `ndim` wide, and `l1` grows by the input's steps |
| DenseLM.ForwardStaleState | example/train_rnn.py:227-228 | when `l1` already holds columns, a non-empty pass fails on `l1.H + H0` |
| DenseLM.ForwardEmptyInput | example/train_rnn.py:227-228 | an empty input on fresh layers raises `TypeError` |
| DenseLM.StaleStep | example/train_rnn.py:277 | a pass without reset grows `l1`; it succeeds from fresh layers and fails once `l1` holds columns |
| DenseLM.TrainAsWritten | example/train_rnn.py:268-279 | without resets the second non-empty example raises; the loop succeeds only with a single example |
| DenseLM.FreshStep | rnn/train.py:104-105 | reset then forward: the fresh pass, which succeeds on a non-empty example |
| DenseLM.MatchesSnoc | rnn/train.py:97-105 | one more fresh output extends the matching outputs |
| DenseLM.TrainWithReset | rnn/train.py:97-107 | with a reset before every pass each output is that example's fresh pass, and non-empty examples never fail |
| Equilibrium.Sizes | rnn/train.py:52-54 | the row count of every bucket |
| Equilibrium.MinNumDataIsMinimum | rnn/train.py:51-54 | with no empty bucket `min_num_data` is the smallest row count |
| Equilibrium.MinNumDataZero | rnn/train.py:51-54 | `min_num_data` is 0 iff there is no bucket or the last bucket is empty |
| Equilibrium.ComputeMinNumData | rnn/train.py:51-54 | the loop computes `MinNumData` |
| Equilibrium.RnnRepeat | rnn/train.py:57-58 | a repeat is at least 1 |
| Equilibrium.Seq2seqRepeat | seq2seq/train.py:72 | a repeat is at least 1 |
| Equilibrium.RnnRepeats | rnn/train.py:55-59 | raises `ZeroDivisionError` iff `min_num_data` is 0 and a bucket exists; otherwise one repeat of at least 1 per bucket |
| Equilibrium.Seq2seqRepeats | seq2seq/train.py:70-72 | the same for the translation model's repeats |
| Equilibrium.RnnRepeatsBalanced | rnn/train.py:51-59 | without empty buckets `repeat = len // min_num_data`, so `repeat * min <= len < (repeat + 1) * min`, and the smallest bucket repeats once |
| Equilibrium.Seq2seqRepeatsBalanced | seq2seq/train.py:66-72 | without empty buckets every repeat is at least 2, with `(repeat - 1) * min <= len < repeat * min` |
| Equilibrium.ComputeRnnRepeats | rnn/train.py:55-59 | the loop computes `RnnRepeats` |
| Equilibrium.ComputeSeq2seqRepeats | seq2seq/train.py:70-72 | the loop computes `Seq2seqRepeats` |
| Equilibrium.UpdatesIsProduct | rnn/train.py:61-63 | `num_updates_per_iteration = batchsize * sum(repeats)` |
| Equilibrium.TotalAtLeastLength | rnn/train.py:61-63 | with every repeat at least 1, the sum is at least the bucket count |
| Equilibrium.ComputeUpdates | rnn/train.py:61-63 | the loop computes `Updates` |
| Equilibrium.NumIteration | rnn/train.py:64 | raises iff the updates are 0; otherwise at least 1 |
| Equilibrium.NumIterationCovers | rnn/train.py:64 | `(num_iteration - 1) * U <= len(train) < num_iteration * U` |
| Equilibrium.RnnScheduleDefined | rnn/train.py:51-64 | without empty buckets the repeats succeed and the updates are at least `buckets * batchsize`; `num_iteration` is defined iff `batchsize > 0` |
| Equilibrium.LimitKeepsPrefix | rnn/train.py:33-34 | the limit keeps a prefix: `limit + 1` buckets for `limit >= 0`, none for -1, and counts from the end below that |
| Equilibrium.LimitKeepsPairs | seq2seq/train.py:41-43 | source and target buckets truncated with the same limit stay paired |
| Equilibrium.SkipMask | seq2seq/train.py:111 | `skip_mask[i][j]` holds iff `source[i][j] != ID_PAD` |
| Equilibrium.SkipMaskZeroesPadding | seq2seq/train.py:111 | given to a QRNN layer, the mask zeroes the input at exactly the padded steps |
| Equilibrium.EndOfEpoch | rnn/train.py:133-136 | the metric is remembered every epoch |
| Equilibrium.EndOfEpochDecays | rnn/train.py:133-136 | a positive `alpha` is halved iff there is a previous metric, it did not improve, and `alpha > 1e-7`; otherwise it is kept |
| Equilibrium.AfterEpochsBounded | rnn/train.py:133-136 | over any run of epochs `alpha` never grows, stays positive, and stays above half the floor unless it started lower |
| Equilibrium.AfterEpochsPrev | seq2seq/train.py:159 | after an epoch the remembered metric is the last one |
| Equilibrium.AfterEpochsImproving | seq2seq/train.py:156-159 | while the metric keeps improving `alpha` is untouched |
| Equilibrium.LearningRate.constructor | rnn/train.py:82-83 | the optimizer starts with its `alpha` and no previous metric |
| Equilibrium.LearningRate.Decay | seq2seq/train.py:156-159 | the end-of-epoch step updates the state to `EndOfEpoch` |
| Equilibrium.LearningRate.Epochs | rnn/train.py:90-136 | the epoch loop leaves `alpha` and the previous metric at `AfterEpochs` |

## Left out

- Floating point: every float is a `real`, so no claim covers rounding, overflow, `nan` or `inf`. `tanh`, `sigmoid`, `exp`, `log`, `softmax` and `F.accuracy` are parameters (of `exp` only positivity is assumed).
- The Chainer links: `ConvolutionND`, `Linear`, `EmbedID`, `batch_matmul`, `broadcast` and `split_axis` act through parameters that fix only shapes and causal windows. Weight initialisation and `wstd` are not modelled.
- Autograd: `unchain_backward`, the backward pass of every function except zoneout, the losses and `optimizer.update`.
- The batch axis: one example of a batch is modelled, since every modelled operation acts on the examples independently.
- Zoneout.ZoneoutFunction.Forward: the uniform draws are an input, and `check_type_forward` is not modelled.
- Reader.Shuffle: the random numbers `random.shuffle` draws are a parameter. The seeded Mersenne Twister is not reproduced.
- Buckets.SampleBatch: the indices `np.random.choice` draws are a parameter. The model only requires them to be distinct and in range.
- Buckets.BucketSizes.MakeBuckets: `np.asarray(...).astype(np.int32)` is modelled as a copy. Word ids are unbounded integers, so the 32-bit conversion is not modelled.
- Text.IsSpace: only the ASCII whitespace counts as whitespace, so `Text.LStrip`, `Text.RStrip`, `Text.Strip`, `Text.StripBlank` and `Text.StripIsTrimmedPiece` strip only that. Python also strips Unicode whitespace.
- I/O: the file is given as its lines, so `codecs.open`, UTF-8 decoding and line endings are not modelled. Printing, timing, argparse, serialization and the GPU transfers are left out too.
- The `common`, `model`, `error`, `translate` and `eve` modules are not part of this model. The `ID_*` constants and `bucket_sizes` are parameters.
- The seq2seq dataset module (the two-argument `make_buckets` and `sample_batch_from_bucket`) is not part of this model. Of `seq2seq/train.py` only the schedule, the limit, the skip mask and the learning rate are modelled.
- `compute_minibatch_accuracy` and `compute_minibatch_perplexity` (example/train_rnn.py:151-156, 198-203) are not modelled as functions of their own. They are `SampleBatch` per bucket followed by `Mean`.
- `compute_accuracy_batch` is the `score` parameter of the evaluators' model (`Evaluation.Evaluate`). `F.accuracy` is not modelled.
- The `mean` helper of rnn/train.py:86-87 feeds only printing and the dev metric, which is an input here.
- DenseLM.LayerPass: requires a kernel width of at least 2. The example's layers use width 4, and at width 1 a layer pools nothing (`LayerProps.KernelOneLeavesState`).
- DenseLM.DenseLayerPass: requires a kernel width of at least 2, for the same reason.
- QRNNLayer.QRNN.constructor: requires a kernel width of at least 1. The convolution link, which is not part of this model, is what rejects a width of 0 in the source.
- Evaluation.BatchPerplexity: `Y = softmax(model(source))` enters only as `logProb`. `assert len(seq) == len(target)` holds by construction, since one row of `Y` per target word is modelled.
- DenseLM.Model.Call: the final reshape to one row per step is modelled for the single example. The `EmbedID` id range is not checked.
- The WER and perplexity of the dev set enter the learning-rate rule only as metric values. The evaluators of `rnn/train.py` and the WER computation come from modules that are not part of this model.
- The `assert isinstance(X, Variable)` checks of `forward_one_step` and the attentive decoder are Python type checks that the typed model makes unnecessary.
- The commented-out `_pool` (qrnn.py:131-201) is dead code.

## Findings

| source | as written | input that shows it | evidently intended | confidence | as-written member | corrected member |
|---|---|---|---|---|---|---|
| qrnn.py:57-58 | the convolution output is trimmed with the slice `[:-pad]`, where `pad = kernel_size - 1` | `kernel_size = 1` and any input of `T >= 1` steps: `[:-0]` is empty, so `pool` sees no step at all | keep the first `T` steps (drop the last `pad`) | not executed | LayerProps.KernelOneLeavesState | CausalConv.Preact |
| qrnn.py:68-69 | the newest convolution step is taken with `[-pad-1:-pad]` | `kernel_size = 1`: `[-1:-0]` is `[-1:0]`, which is empty for every input | the step before the last `pad`, the last column of the causal convolution | not executed | CausalConv.LastStepKernelOneIsEmpty | CausalConv.OneStepIsLastColumn |
| example/train_rnn.py:140-145 | cut points `(i + 1) * 100` for `i < len // 100` whenever a bucket has more than 100 rows (likewise 187-192) | a bucket of 200 rows gives sections of 100, 100 and 0 rows; `compute_perplexity_batch` then divides by zero on the empty one | sections of at most 100 rows, none empty (cut points `(len - 1) // 100`) | not executed | Evaluation.EvaluateTwoHundredRaises | Evaluation.SectionsPartition |
| example/train_rnn.py:268-279 | the training loop calls `model(source)` batch after batch without `model.reset_state()`, so each layer's `H` keeps growing | two training batches with at least one step each: on the second, `l1.get_all_hidden_states() + H0` adds arrays of different lengths and raises | reset the layers before every forward pass, as rnn/train.py:104-105 does | not executed | DenseLM.TrainAsWritten | DenseLM.TrainWithReset |

The layer and the evaluator are modelled as the code is written: the class
methods trim with `CausalConv.PreactAsWritten` and `CausalConv.OneStepAsWritten`,
and `Evaluation.Evaluate` cuts with `SectionsAsWritten`. The corrected trims are
what the layer computes from kernel width 2 on. The corrected cutting is
`Evaluation.Cut` with `Corrected`, and `Evaluation.EvaluateAgrees` says when the
two evaluations coincide.
