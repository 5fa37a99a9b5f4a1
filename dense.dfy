/** The language model of the example training script: word embeddings,
    two QRNN layers joined by dense (residual) connections, and the output
    projection, together with its training loop. The loop as written never
    resets the layers' state; the corrected loop resets it before every
    forward pass, as the package's own training script does. One example of
    the batch is modelled; the links are parameters. */
module DenseLM {
  import opened PyOps
  import opened Tensor
  import opened CausalConv
  import opened Pooling
  import opened QRNNLayer
  import opened LayerProps

  /** An `EmbedID` link: channel `c` of the vector of word `w`. */
  type Embedding = (nat, int) -> real

  /** `embed(X)` with `ignore_label=0`: the padding id embeds to zeros. */
  function Embed(E: Embedding, ndim: nat, X: seq<int>): (H: seq<Frame>)
    ensures |H| == |X| && Width(H, ndim)
    ensures forall t :: 0 <= t < |X| && X[t] == 0 ==> H[t] == Zeros(ndim)
    ensures forall t, c :: 0 <= t < |X| && X[t] != 0 && 0 <= c < ndim ==> H[t][c] == E(c, X[t])
  {
    seq(|X|, t requires 0 <= t < |X| =>
      if X[t] == 0 then Zeros(ndim) else seq(ndim, c requires 0 <= c < ndim => E(c, X[t])))
  }

  const AddNoneMessage := "unsupported operand type(s) for +: 'NoneType' and 'Variable'"
  const ShapeMessage := "in_types[0].shape == in_types[1].shape"

  /** `layer.get_all_hidden_states() + H`: `H` is still `None` when the layer
      has never run a step, and the two operands must have the same shape. */
  function AddHidden(Hs: Option<seq<Frame>>, X: seq<Frame>): (r: Result<seq<Frame>>)
    ensures Hs.None? ==> r == Failure(TypeError(AddNoneMessage))
    ensures Hs.Some? && !SameGrid(Hs.value, X) ==> r == Failure(InvalidType(ShapeMessage))
    ensures r.Success? <==> Hs.Some? && SameGrid(Hs.value, X)
    ensures r.Success? ==> |r.value| == |X| && forall t :: 0 <= t < |X| ==> r.value[t] == Add(Hs.value[t], X[t])
  {
    if Hs.None? then Failure(TypeError(AddNoneMessage))
    else if !SameGrid(Hs.value, X) then Failure(InvalidType(ShapeMessage))
    else Success(AddSeq(Hs.value, X))
  }

  /** `l3` applied at every step (after the reshape to one row per step). */
  function Project(l3: Linear, numVocab: nat, H: seq<Frame>): (Y: seq<Frame>)
    ensures |Y| == |H| && Width(Y, numVocab)
  {
    seq(|H|, t requires 0 <= t < |H| => LinearApply(l3, numVocab, H[t]))
  }

  /** The state `layer(X)` leaves in a layer that starts from `s`. */
  function LayerState(q: QRNN, s: State, X: seq<Frame>, testFlag: bool, u: seq<Frame>): State
    requires q.Valid()
    requires q.zoneout && !testFlag ==> Draws(u, TrimmedSteps(|X|, q.kernelSize), q.outChannels)
  {
    PoolSpec(s, q.act, q.CallParts(X, None), |q.pooling|, q.zoneout, testFlag, q.zoneoutRatio, u, None).state
  }

  /** What `layer(X)` followed by `layer.get_all_hidden_states() + X`
      gives, and the state it leaves in the layer. */
  datatype LayerOutcome = LayerOutcome(result: Result<seq<Frame>>, state: State)

  function DenseLayer(q: QRNN, s: State, X: seq<Frame>, testFlag: bool, u: seq<Frame>): (o: LayerOutcome)
    requires q.Valid()
    requires q.zoneout && !testFlag ==> Draws(u, TrimmedSteps(|X|, q.kernelSize), q.outChannels)
    ensures o.result.Success? ==> |o.result.value| == |X|
  {
    var t := LayerState(q, s, X, testFlag, u);
    LayerOutcome(AddHidden(t.H, X), t)
  }

  /** One layer's pass over `X` from state `s`, for "fo" pooling: it
      appends `|X|` columns `ndim` wide. */
  lemma LayerPass(q: QRNN, s: State, X: seq<Frame>, testFlag: bool, u: seq<Frame>, ndim: nat)
    requires q.Valid() && q.pooling == "fo" && q.inChannels == ndim && q.outChannels == ndim && 2 <= q.kernelSize
    requires Width(X, ndim) && StateShape(s, ndim)
    requires q.zoneout && !testFlag ==> Draws(u, |X|, ndim)
    ensures |Columns(LayerState(q, s, X, testFlag, u))| == |Columns(s)| + |X|
    ensures StateShape(LayerState(q, s, X, testFlag, u), ndim)
    ensures |X| > 0 ==> LayerState(q, s, X, testFlag, u).H.Some?
    ensures |X| == 0 ==> LayerState(q, s, X, testFlag, u) == s
  {
    PoolSpecAppends(s, q.act, q.CallParts(X, None), |q.pooling|, q.zoneout, testFlag, q.zoneoutRatio, u, None);
    CallKeepsShape(q, s, X, None, testFlag, u);
  }

  /** The same pass followed by `H + X`: from a layer without columns a
      non-empty input yields `H + X` step by step, from one that still holds
      columns the sum fails on the shapes, and an empty input on a layer
      that has never run a step finds `H` still `None`. */
  lemma DenseLayerPass(q: QRNN, s: State, X: seq<Frame>, testFlag: bool, u: seq<Frame>, ndim: nat)
    requires q.Valid() && q.pooling == "fo" && q.inChannels == ndim && q.outChannels == ndim && 2 <= q.kernelSize
    requires Width(X, ndim) && StateShape(s, ndim)
    requires q.zoneout && !testFlag ==> Draws(u, |X|, ndim)
    ensures |Columns(DenseLayer(q, s, X, testFlag, u).state)| == |Columns(s)| + |X|
    ensures StateShape(DenseLayer(q, s, X, testFlag, u).state, ndim)
    ensures DenseLayer(q, s, X, testFlag, u).result.Success? ==> Width(DenseLayer(q, s, X, testFlag, u).result.value, ndim)
    ensures |X| > 0 && |Columns(s)| == 0 ==>
      && DenseLayer(q, s, X, testFlag, u).result.Success?
      && forall t :: 0 <= t < |X| ==>
           DenseLayer(q, s, X, testFlag, u).result.value[t] == Add(Columns(DenseLayer(q, s, X, testFlag, u).state)[t], X[t])
    ensures |X| > 0 && |Columns(s)| > 0 ==> DenseLayer(q, s, X, testFlag, u).result == Failure(InvalidType(ShapeMessage))
    ensures |X| == 0 && s.H.None? ==> DenseLayer(q, s, X, testFlag, u).result == Failure(TypeError(AddNoneMessage))
  {
    LayerPass(q, s, X, testFlag, u, ndim);
  }

  /** What one forward pass returns and the states it leaves in `l1`, `l2`. */
  datatype ForwardOutcome = ForwardOutcome(result: Result<seq<Frame>>, s1: State, s2: State)

  class Model {
    const numVocab: nat
    const ndim: nat
    const embed: Embedding
    const l1: QRNN
    const l2: QRNN
    const l3: Linear

    /** Both layers are `QRNN(ndim, ndim, kernel_size=4, pooling="fo",
        zoneout=True)` with the default `zoneout_ratio` of 0.1. */
    ghost predicate Valid()
    {
      && l1 != l2
      && l1.Valid() && l2.Valid()
      && l1.inChannels == ndim && l1.outChannels == ndim && l1.kernelSize == 4
      && l1.pooling == "fo" && l1.zoneout && l1.zoneoutRatio == 0.1 && l1.kind == Plain
      && l2.inChannels == ndim && l2.outChannels == ndim && l2.kernelSize == 4
      && l2.pooling == "fo" && l2.zoneout && l2.zoneoutRatio == 0.1 && l2.kind == Plain
    }

    constructor (numVocab: nat, ndim: nat, embed: Embedding, W1: Kernel, W2: Kernel, act: Activations, l3: Linear)
      ensures Valid() && fresh(l1) && fresh(l2)
      ensures this.numVocab == numVocab && this.ndim == ndim && this.embed == embed && this.l3 == l3
      ensures l1.W == W1 && l2.W == W2 && l1.act == act && l2.act == act
      ensures l1.Current() == Empty && l2.Current() == Empty
    {
      this.numVocab := numVocab;
      this.ndim := ndim;
      this.embed := embed;
      this.l3 := l3;
      l1 := new QRNN(ndim, ndim, 4, "fo", true, 0.1, W1, act, Plain);
      l2 := new QRNN(ndim, ndim, 4, "fo", true, 0.1, W2, act, Plain);
    }

    /** `reset_state()` of both layers. */
    method ResetState()
      modifies l1, l2
      ensures l1.Current() == Empty && l2.Current() == Empty
      ensures l1.test == old(l1.test) && l2.test == old(l2.test)
    {
      l1.ResetState();
      l2.ResetState();
    }

    /** `__call__(X, test)` from layer states `s1` and `s2`:
        `H1 = l1.H + H0`, `H2 = l2.H + H1`, `Y = l3(H2)`. */
    function Forward(s1: State, s2: State, X: seq<int>, testFlag: bool, u1: seq<Frame>, u2: seq<Frame>): (o: ForwardOutcome)
      requires Valid()
      requires !testFlag ==> Draws(u1, |X|, ndim) && Draws(u2, |X|, ndim)
    {
      var H0 := Embed(embed, ndim, X);
      var o1 := DenseLayer(l1, s1, H0, testFlag, u1);
      if o1.result.Failure? then ForwardOutcome(Failure(o1.result.error), o1.state, s2)
      else
        var o2 := DenseLayer(l2, s2, o1.result.value, testFlag, u2);
        if o2.result.Failure? then ForwardOutcome(Failure(o2.result.error), o1.state, o2.state)
        else ForwardOutcome(Success(Project(l3, numVocab, o2.result.value)), o1.state, o2.state)
    }

    method Call(X: seq<int>, testFlag: bool, u1: seq<Frame>, u2: seq<Frame>) returns (r: Result<seq<Frame>>)
      requires Valid()
      requires !testFlag ==> Draws(u1, |X|, ndim) && Draws(u2, |X|, ndim)
      modifies l1, l2
      ensures ForwardOutcome(r, l1.Current(), l2.Current()) == Forward(old(l1.Current()), old(l2.Current()), X, testFlag, u1, u2)
      ensures l1.test == testFlag && (l2.test == testFlag || l2.test == old(l2.test))
    {
      var H0 := Embed(embed, ndim, X);
      var r1 := l1.Call(H0, None, testFlag, u1);
      var hs1 := l1.GetAllHiddenStates();
      var H1 := AddHidden(hs1, H0);
      if H1.Failure? {
        return Failure(H1.error);
      }
      var r2 := l2.Call(H1.value, None, testFlag, u2);
      var hs2 := l2.GetAllHiddenStates();
      var H2 := AddHidden(hs2, H1.value);
      if H2.Failure? {
        return Failure(H2.error);
      }
      r := Success(Project(l3, numVocab, H2.value));
    }
  }

  /** From fresh layers a non-empty input goes through: one output row per
      step, each the projection of `l2.H + l1.H + H0` at that step (the
      dense connections), and each layer then holds one column per step. */
  lemma ForwardFromFresh(m: Model, X: seq<int>, testFlag: bool, u1: seq<Frame>, u2: seq<Frame>)
    requires m.Valid() && |X| > 0
    requires !testFlag ==> Draws(u1, |X|, m.ndim) && Draws(u2, |X|, m.ndim)
    ensures var o := m.Forward(Empty, Empty, X, testFlag, u1, u2);
      && o.result.Success? && |o.result.value| == |X| && Width(o.result.value, m.numVocab)
      && |Columns(o.s1)| == |X| && |Columns(o.s2)| == |X|
      && forall t :: 0 <= t < |X| ==>
           o.result.value[t] == LinearApply(m.l3, m.numVocab, Add(Columns(o.s2)[t], Add(Columns(o.s1)[t], Embed(m.embed, m.ndim, X)[t])))
  {
    var H0 := Embed(m.embed, m.ndim, X);
    DenseLayerPass(m.l1, Empty, H0, testFlag, u1, m.ndim);
    var o1 := DenseLayer(m.l1, Empty, H0, testFlag, u1);
    DenseLayerPass(m.l2, Empty, o1.result.value, testFlag, u2, m.ndim);
  }

  /** Every forward pass keeps both layers' states `ndim` wide and never
      drops a column of `l1`. */
  lemma ForwardKeepsShape(m: Model, s1: State, s2: State, X: seq<int>, testFlag: bool, u1: seq<Frame>, u2: seq<Frame>)
    requires m.Valid() && StateShape(s1, m.ndim) && StateShape(s2, m.ndim)
    requires !testFlag ==> Draws(u1, |X|, m.ndim) && Draws(u2, |X|, m.ndim)
    ensures StateShape(m.Forward(s1, s2, X, testFlag, u1, u2).s1, m.ndim)
    ensures StateShape(m.Forward(s1, s2, X, testFlag, u1, u2).s2, m.ndim)
    ensures |Columns(m.Forward(s1, s2, X, testFlag, u1, u2).s1)| == |Columns(s1)| + |X|
  {
    var H0 := Embed(m.embed, m.ndim, X);
    DenseLayerPass(m.l1, s1, H0, testFlag, u1, m.ndim);
    var o1 := DenseLayer(m.l1, s1, H0, testFlag, u1);
    if o1.result.Success? {
      DenseLayerPass(m.l2, s2, o1.result.value, testFlag, u2, m.ndim);
    }
  }

  /** A layer that still holds columns from an earlier pass makes the next
      non-empty pass fail on `l1.H + H0`: `l1.H` then has more steps than
      the input. */
  lemma ForwardStaleState(m: Model, s1: State, s2: State, X: seq<int>, testFlag: bool, u1: seq<Frame>, u2: seq<Frame>)
    requires m.Valid() && |X| > 0 && |Columns(s1)| > 0 && StateShape(s1, m.ndim)
    requires !testFlag ==> Draws(u1, |X|, m.ndim) && Draws(u2, |X|, m.ndim)
    ensures m.Forward(s1, s2, X, testFlag, u1, u2).result == Failure(InvalidType(ShapeMessage))
  {
    DenseLayerPass(m.l1, s1, Embed(m.embed, m.ndim, X), testFlag, u1, m.ndim);
  }

  /** An empty input on fresh layers leaves `l1.H` at `None`. */
  lemma ForwardEmptyInput(m: Model, s2: State, testFlag: bool, u1: seq<Frame>, u2: seq<Frame>)
    requires m.Valid()
    requires !testFlag ==> Draws(u1, 0, m.ndim) && Draws(u2, 0, m.ndim)
    ensures m.Forward(Empty, s2, [], testFlag, u1, u2).result == Failure(TypeError(AddNoneMessage))
  {
    DenseLayerPass(m.l1, Empty, Embed(m.embed, m.ndim, []), testFlag, u1, m.ndim);
  }

  /** Zoneout draws for each training example. */
  predicate DrawsFor(sources: seq<seq<int>>, us: seq<seq<Frame>>, ndim: nat)
  {
    |us| == |sources| && forall k :: 0 <= k < |sources| ==> Draws(us[k], |sources[k]|, ndim)
  }

  /** One pass of the training loop without a reset: `l1` grows by the
      example's steps; from fresh layers a non-empty example goes through,
      and once `l1` holds columns a non-empty example fails. */
  method StaleStep(m: Model, X: seq<int>, u1: seq<Frame>, u2: seq<Frame>) returns (Y: Result<seq<Frame>>)
    requires m.Valid() && Draws(u1, |X|, m.ndim) && Draws(u2, |X|, m.ndim)
    requires StateShape(m.l1.Current(), m.ndim) && StateShape(m.l2.Current(), m.ndim)
    modifies m.l1, m.l2
    ensures StateShape(m.l1.Current(), m.ndim) && StateShape(m.l2.Current(), m.ndim)
    ensures |Columns(m.l1.Current())| == |Columns(old(m.l1.Current()))| + |X|
    ensures |X| > 0 && old(m.l1.Current()) == Empty && old(m.l2.Current()) == Empty ==> Y.Success?
    ensures |X| > 0 && |Columns(old(m.l1.Current()))| > 0 ==> Y == Failure(InvalidType(ShapeMessage))
  {
    ghost var s1 := m.l1.Current();
    ghost var s2 := m.l2.Current();
    Y := m.Call(X, false, u1, u2);
    ForwardKeepsShape(m, s1, s2, X, false, u1, u2);
    if |X| > 0 && s1 == Empty && s2 == Empty {
      ForwardFromFresh(m, X, false, u1, u2);
    }
    if |X| > 0 && |Columns(s1)| > 0 {
      ForwardStaleState(m, s1, s2, X, false, u1, u2);
    }
  }

  /** The training loop as written: `Y = model(source)` for one example
      after another, with no `reset_state` in between. The first pass
      succeeds; the second raises on `l1.H + H0`. (The loss and the
      optimizer update are not modelled.) */
  method TrainAsWritten(m: Model, sources: seq<seq<int>>, u1s: seq<seq<Frame>>, u2s: seq<seq<Frame>>)
    returns (r: Result<seq<seq<Frame>>>)
    requires m.Valid() && m.l1.Current() == Empty && m.l2.Current() == Empty
    requires DrawsFor(sources, u1s, m.ndim) && DrawsFor(sources, u2s, m.ndim)
    modifies m.l1, m.l2
    ensures |sources| >= 1 && |sources[0]| > 0 && (|sources| == 1 || |sources[1]| > 0) ==>
      (r.Success? <==> |sources| == 1)
    ensures |sources| >= 2 && |sources[0]| > 0 && |sources[1]| > 0 ==> r == Failure(InvalidType(ShapeMessage))
  {
    var outputs: seq<seq<Frame>> := [];
    var k := 0;
    while k < |sources|
      invariant 0 <= k <= |sources| && |outputs| == k
      invariant k == 0 ==> m.l1.Current() == Empty && m.l2.Current() == Empty
      invariant StateShape(m.l1.Current(), m.ndim) && StateShape(m.l2.Current(), m.ndim)
      invariant k >= 1 && |sources[0]| > 0 ==> |Columns(m.l1.Current())| > 0
      invariant |sources| >= 2 && |sources[0]| > 0 && |sources[1]| > 0 ==> k <= 1
    {
      var Y := StaleStep(m, sources[k], u1s[k], u2s[k]);
      if Y.Failure? {
        return Failure(Y.error);
      }
      outputs := outputs + [Y.value];
      k := k + 1;
    }
    r := Success(outputs);
  }

  /** One pass of the corrected loop: `reset_state()`, then the forward
      pass, which is therefore the fresh one. */
  method FreshStep(m: Model, X: seq<int>, u1: seq<Frame>, u2: seq<Frame>) returns (Y: Result<seq<Frame>>)
    requires m.Valid() && Draws(u1, |X|, m.ndim) && Draws(u2, |X|, m.ndim)
    modifies m.l1, m.l2
    ensures Y == m.Forward(Empty, Empty, X, false, u1, u2).result
    ensures |X| > 0 ==> Y.Success?
  {
    m.ResetState();
    Y := m.Call(X, false, u1, u2);
    if |X| > 0 {
      ForwardFromFresh(m, X, false, u1, u2);
    }
  }

  /** The fresh forward pass of each example; beyond the last example the
      value is immaterial. */
  ghost function FreshPasses(m: Model, sources: seq<seq<int>>, u1s: seq<seq<Frame>>, u2s: seq<seq<Frame>>): (nat -> Result<seq<Frame>>)
    requires m.Valid() && DrawsFor(sources, u1s, m.ndim) && DrawsFor(sources, u2s, m.ndim)
  {
    (j: nat) => if j < |sources| then m.Forward(Empty, Empty, sources[j], false, u1s[j], u2s[j]).result else Failure(ValueError("no such example"))
  }

  /** `outputs[j]` is what `f(j)` returns for every `j` so far. */
  predicate Matches<T(==)>(f: nat -> Result<T>, outputs: seq<T>)
  {
    forall j :: 0 <= j < |outputs| ==> f(j) == Success(outputs[j])
  }

  lemma MatchesSnoc<T>(f: nat -> Result<T>, outputs: seq<T>, y: T)
    requires Matches(f, outputs) && f(|outputs|) == Success(y)
    ensures Matches(f, outputs + [y])
  {
  }

  /** The training loop with `model.reset_state()` before every forward
      pass: each output is the fresh forward pass of its own example,
      whatever came before, and no non-empty example fails. */
  method TrainWithReset(m: Model, sources: seq<seq<int>>, u1s: seq<seq<Frame>>, u2s: seq<seq<Frame>>)
    returns (r: Result<seq<seq<Frame>>>)
    requires m.Valid()
    requires DrawsFor(sources, u1s, m.ndim) && DrawsFor(sources, u2s, m.ndim)
    modifies m.l1, m.l2
    ensures (forall k :: 0 <= k < |sources| ==> |sources[k]| > 0) ==> r.Success?
    ensures r.Success? ==> |r.value| == |sources|
    ensures r.Success? ==> forall k :: 0 <= k < |sources| ==>
      m.Forward(Empty, Empty, sources[k], false, u1s[k], u2s[k]).result == Success(r.value[k])
  {
    var outputs: seq<seq<Frame>> := [];
    var k := 0;
    while k < |sources|
      invariant 0 <= k <= |sources| && |outputs| == k
      invariant Matches(FreshPasses(m, sources, u1s, u2s), outputs)
    {
      var Y := FreshStep(m, sources[k], u1s[k], u2s[k]);
      if Y.Failure? {
        return Failure(Y.error);
      }
      MatchesSnoc(FreshPasses(m, sources, u1s, u2s), outputs, Y.value);
      outputs := outputs + [Y.value];
      k := k + 1;
    }
    r := Success(outputs);
  }
}
