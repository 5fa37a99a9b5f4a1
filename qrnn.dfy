/** The QRNN layer of qrnn.py: the gates it builds from the causal
    convolution, the forget gate with zoneout, and the class whose fields
    `ct`, `ht` and `H` the pooling loop updates across calls, with the
    decoder variants. One example of the batch is modelled; the kernel,
    the `Linear` links and the nonlinearities are parameters. */
module QRNNLayer {
  import opened PyOps
  import opened Tensor
  import opened Zoneout
  import opened CausalConv
  import opened Pooling
  import opened Attention

  /** Which of the classes of qrnn.py an object is: `QRNN`/`QRNNEncoder`,
      `QRNNDecoder` with its link `V`, or `QRNNGlobalAttentiveDecoder` with
      `V` and the output link `o`. */
  datatype Kind = Plain | Decoder(V: Linear) | GlobalAttentive(V: Linear, oLin: Linear)

  /** `u` holds one draw per entry of `U`. */
  predicate SameGrid(u: seq<Frame>, U: seq<Frame>)
  {
    |u| == |U| && forall t :: 0 <= t < |U| ==> |u[t]| == |U[t]|
  }

  /** All parts have the same number of time steps. */
  predicate EqualLengths(parts: seq<seq<Frame>>)
  {
    forall p :: 0 <= p < |parts| ==> |parts[p]| == |parts[0]|
  }

  lemma MulBound(p: nat, n: nat, w: nat)
    requires p < n
    ensures p * w + w <= n * w
  {
    assert (n - p) * w >= w by {
      assert n - p >= 1;
    }
  }

  /** Part `p` of `split_axis(WX, n, axis=1)`: channels `p*w .. p*w+w-1`
      of every step. */
  function Part(WX: seq<Frame>, n: nat, w: nat, p: nat): (r: seq<Frame>)
    requires Width(WX, n * w) && p < n
    ensures p * w + w <= n * w
    ensures |r| == |WX| && Width(r, w)
    ensures forall t :: 0 <= t < |WX| ==> r[t] == WX[t][p * w .. p * w + w]
  {
    MulBound(p, n, w);
    seq(|WX|, t requires 0 <= t < |WX| => WX[t][p * w .. p * w + w])
  }

  /** `split_axis(WX, n, axis=1)`: `n` parts of `w` channels each. */
  function SplitParts(WX: seq<Frame>, n: nat, w: nat): (parts: seq<seq<Frame>>)
    requires Width(WX, n * w)
    ensures |parts| == n
    ensures forall p :: 0 <= p < n ==> parts[p] == Part(WX, n, w, p)
  {
    seq(n, p requires 0 <= p < n => Part(WX, n, w, p))
  }

  /** The channels of step `t` of the first `m` parts, joined again. */
  function JoinParts(parts: seq<seq<Frame>>, t: nat, m: nat): Frame
    requires m <= |parts| && forall p :: 0 <= p < |parts| ==> t < |parts[p]|
  {
    if m == 0 then [] else JoinParts(parts, t, m - 1) + parts[m - 1][t]
  }

  /** Splitting and joining again gives back every step of `WX`. */
  lemma {:induction false} SplitJoin(WX: seq<Frame>, n: nat, w: nat, t: nat, m: nat)
    requires Width(WX, n * w) && t < |WX| && m <= n
    ensures m * w <= n * w
    ensures JoinParts(SplitParts(WX, n, w), t, m) == WX[t][..m * w]
  {
    var parts := SplitParts(WX, n, w);
    if m == 0 {
    } else {
      SplitJoin(WX, n, w, t, m - 1);
      MulBound(m - 1, n, w);
      assert (m - 1) * w + w == m * w;
      assert parts[m - 1][t] == WX[t][(m - 1) * w .. m * w];
      assert WX[t][..(m - 1) * w] + WX[t][(m - 1) * w .. m * w] == WX[t][..m * w];
    }
  }

  /** `QRNN.zoneout(U)`: with zoneout on and outside test mode,
      `1 - zoneout(sigmoid(-U))` with the mask drawn from `u`; otherwise
      `sigmoid(U)`. A zoned-out position has forget gate exactly 1, so the
      cell keeps its previous value there. */
  function ForgetGate(sigmoid: real -> real, U: seq<Frame>, zoneout: bool, test: bool, ratio: real, u: seq<Frame>): (F: seq<Frame>)
    requires zoneout && !test ==> SameGrid(u, U)
    ensures |F| == |U| && forall t :: 0 <= t < |U| ==> |F[t]| == |U[t]|
    ensures zoneout && !test ==> forall t, c :: 0 <= t < |U| && 0 <= c < |U[t]| ==>
      F[t][c] == if ratio <= u[t][c] then 1.0 - sigmoid(-U[t][c]) else 1.0
    ensures !(zoneout && !test) ==> F == MapSeq(sigmoid, U)
  {
    if zoneout && !test then
      var kept := ApplyMask(MapSeq(x => sigmoid(-x), U), DrawMask(u, ratio));
      seq(|U|, t requires 0 <= t < |U| => OneMinus(kept[t]))
    else MapSeq(sigmoid, U)
  }

  /** With every draw below the ratio (ratio 1 and draws in `[0, 1)`), zoneout
      sets the whole forget gate to 1. */
  lemma ForgetGateAllZonedOut(sigmoid: real -> real, U: seq<Frame>, ratio: real, u: seq<Frame>, w: nat)
    requires SameGrid(u, U) && Width(U, w) && UnitDraws(u) && 1.0 <= ratio
    ensures forall t :: 0 <= t < |U| ==> ForgetGate(sigmoid, U, true, false, ratio, u)[t] == Ones(w)
  {
    var F := ForgetGate(sigmoid, U, true, false, ratio, u);
    forall t | 0 <= t < |U|
      ensures F[t] == Ones(w)
    {
      assert forall c :: 0 <= c < w ==> !(ratio <= u[t][c]);
    }
  }

  /** The activated gates of `pool`, dispatched on the length `L` of the
      pooling string alone: f (`L = 1`), fo (`L = 2`), ifo (`L = 3`). A
      wrong number of parts fails the assert of that branch; any other
      length leaves `Z` as `None` and fails `assert Z is not None`. */
  function MakeGates(act: Activations, parts: seq<seq<Frame>>, L: nat, zoneout: bool, test: bool, ratio: real, u: seq<Frame>): (r: Result<Gates>)
    requires zoneout && !test && |parts| >= 2 ==> SameGrid(u, parts[1])
    ensures r.Success? <==> 1 <= L <= 3 && |parts| == L + 1
    ensures r.Failure? ==> r.error.AssertionError?
    ensures r.Success? ==>
      && r.value.z == MapSeq(act.tanh, parts[0])
      && r.value.f == ForgetGate(act.sigmoid, parts[1], zoneout, test, ratio, u)
      && (r.value.o.Some? <==> 2 <= L) && (r.value.i.Some? <==> L == 3)
      && (2 <= L ==> r.value.o.value == MapSeq(act.sigmoid, parts[2]))
      && (L == 3 ==> r.value.i.value == MapSeq(act.sigmoid, parts[3]))
  {
    if L == 1 && |parts| != 2 then Failure(AssertionError("len(WX) == 2"))
    else if L == 2 && |parts| != 3 then Failure(AssertionError("len(WX) == 3"))
    else if L == 3 && |parts| != 4 then Failure(AssertionError("len(WX) == 4"))
    else if !(1 <= L <= 3) then Failure(AssertionError("Z is not None"))
    else
      var Z := MapSeq(act.tanh, parts[0]);
      var F := ForgetGate(act.sigmoid, parts[1], zoneout, test, ratio, u);
      var O := if L >= 2 then Some(MapSeq(act.sigmoid, parts[2])) else None;
      var I := if L == 3 then Some(MapSeq(act.sigmoid, parts[3])) else None;
      Success(Gates(Z, F, O, I))
  }

  /** Gates built from parts of equal length have one entry per step. */
  lemma MakeGatesAligned(act: Activations, parts: seq<seq<Frame>>, L: nat, zoneout: bool, test: bool, ratio: real, u: seq<Frame>, skip: Option<seq<bool>>)
    requires zoneout && !test && |parts| >= 2 ==> SameGrid(u, parts[1])
    requires EqualLengths(parts) && MakeGates(act, parts, L, zoneout, test, ratio, u).Success?
    requires skip.Some? ==> |skip.value| >= |parts[0]|
    ensures Aligned(MakeGates(act, parts, L, zoneout, test, ratio, u).value, skip)
    ensures Steps(MakeGates(act, parts, L, zoneout, test, ratio, u).value) == |parts[0]|
  {
  }

  /** What a call of `pool` returns and the state it leaves. */
  datatype Outcome = Outcome(result: Result<Option<seq<Frame>>>, state: State)

  /** `pool(WX, skip_mask)` from state `s`: an assertion failure leaves the
      state as it was; otherwise the loop runs over every step and returns `H`. */
  function PoolSpec(s: State, act: Activations, parts: seq<seq<Frame>>, L: nat, zoneout: bool, test: bool, ratio: real, u: seq<Frame>, skip: Option<seq<bool>>): Outcome
    requires zoneout && !test && |parts| >= 2 ==> SameGrid(u, parts[1])
    requires EqualLengths(parts)
    requires skip.Some? && |parts| > 0 ==> |skip.value| >= |parts[0]|
  {
    var r := MakeGates(act, parts, L, zoneout, test, ratio, u);
    if r.Failure? then Outcome(Failure(r.error), s)
    else
      MakeGatesAligned(act, parts, L, zoneout, test, ratio, u, skip);
      var s' := Run(s, Zip(r.value, skip));
      Outcome(Success(s'.H), s')
  }

  /** `X *= skip_mask[:, None, :]`: a skipped step's input frame becomes 0. */
  function MaskInput(X: seq<Frame>, skip: Option<seq<bool>>): (Y: seq<Frame>)
    requires skip.Some? ==> |skip.value| == |X|
    ensures |Y| == |X|
    ensures forall t :: 0 <= t < |X| ==>
      Y[t] == if skip.None? || skip.value[t] then X[t] else Zeros(|X[t]|)
  {
    seq(|X|, t requires 0 <= t < |X| =>
      ScaleOne(X[t]);
      assert forall c :: 0 <= c < |X[t]| ==> Scale(X[t], 0.0)[c] == 0.0;
      Scale(X[t], SkipValue(skip, t)))
  }

  /** `V(ht_enc)` broadcast over the time axis and added to every step of `WX`. */
  function InjectEncoder(WX: seq<Frame>, Vh: Frame): (Y: seq<Frame>)
    ensures |Y| == |WX|
    ensures forall t :: 0 <= t < |WX| ==> Y[t] == Add(WX[t], Vh)
  {
    seq(|WX|, t requires 0 <= t < |WX| => Add(WX[t], Vh))
  }

  /** A zero encoder vector leaves the pre-activations of the plain layer. */
  lemma InjectZeroIsIdentity(WX: seq<Frame>, w: nat)
    requires Width(WX, w)
    ensures InjectEncoder(WX, Zeros(w)) == WX
  {
    var Y := InjectEncoder(WX, Zeros(w));
    forall t | 0 <= t < |WX|
      ensures Y[t] == WX[t]
    {
      assert forall c :: 0 <= c < w ==> Y[t][c] == WX[t][c] + 0.0;
    }
  }

  /** The injection is the same at every step: two steps whose convolution
      outputs agree receive identical pre-activations. */
  lemma InjectUniform(WX: seq<Frame>, Vh: Frame, t1: nat, t2: nat)
    requires t1 < |WX| && t2 < |WX| && WX[t1] == WX[t2]
    ensures InjectEncoder(WX, Vh)[t1] == InjectEncoder(WX, Vh)[t2]
  {
  }

  /** Every draw grid `u` that zoneout may use for `T` steps of `w` channels. */
  predicate Draws(u: seq<Frame>, T: nat, w: nat)
  {
    |u| == T && Width(u, w)
  }

  class QRNN {
    const inChannels: nat
    const outChannels: nat
    const kernelSize: nat
    const pooling: string
    const zoneout: bool
    const zoneoutRatio: real
    const numSplit: nat
    const W: Kernel
    const act: Activations
    const kind: Kind

    /** `_test` of the last call. */
    var test: bool
    /** Last cell state, last hidden state, all hidden states. */
    var ct: Option<Frame>
    var ht: Option<Frame>
    var H: Option<seq<Frame>>

    ghost predicate Valid()
    {
      && numSplit == |pooling| + 1
      && 1 <= kernelSize
      && (kind.GlobalAttentive? ==> pooling == "fo")
    }

    /** The recurrent state as a value. */
    function Current(): State
      reads this
    {
      State(ct, ht, H)
    }

    /** `QRNN(in_channels, out_channels, kernel_size, pooling, zoneout,
        zoneout_ratio)`; `kind` selects the decoder links. The attentive
        decoder fixes `pooling = "fo"` itself. */
    constructor (inChannels: nat, outChannels: nat, kernelSize: nat, pooling: string,
                 zoneout: bool, zoneoutRatio: real, W: Kernel, act: Activations, kind: Kind)
      requires 1 <= kernelSize
      requires kind.GlobalAttentive? ==> pooling == "fo"
      ensures Valid()
      ensures this.inChannels == inChannels && this.outChannels == outChannels
      ensures this.kernelSize == kernelSize && this.pooling == pooling
      ensures this.zoneout == zoneout && this.zoneoutRatio == zoneoutRatio
      ensures this.W == W && this.act == act && this.kind == kind
      ensures numSplit == |pooling| + 1
      ensures Current() == Empty && !test
    {
      this.inChannels := inChannels;
      this.outChannels := outChannels;
      this.kernelSize := kernelSize;
      this.pooling := pooling;
      this.zoneout := zoneout;
      this.zoneoutRatio := zoneoutRatio;
      this.numSplit := |pooling| + 1;
      this.W := W;
      this.act := act;
      this.kind := kind;
      test := false;
      ct, ht, H := None, None, None;
    }

    method ResetState()
      modifies this
      ensures Current() == Empty && test == old(test)
    {
      SetState(None, None, None);
    }

    method SetState(ct: Option<Frame>, ht: Option<Frame>, H: Option<seq<Frame>>)
      modifies this
      ensures Current() == State(ct, ht, H) && test == old(test)
    {
      this.ct := ct;
      this.ht := ht;
      this.H := H;
    }

    method GetLastHiddenState() returns (h: Option<Frame>)
      ensures h == ht
    {
      h := ht;
    }

    method GetAllHiddenStates() returns (hs: Option<seq<Frame>>)
      ensures hs == H
    {
      hs := H;
    }

    /** The parts `__call__` hands to `pool`: skip-masked input, the
        convolution trimmed by `[:-pad]`, split into `numSplit` parts of
        `outChannels`. At kernel width 1 the trim leaves no step. */
    function CallParts(X: seq<Frame>, skip: Option<seq<bool>>): (parts: seq<seq<Frame>>)
      requires Valid() && (skip.Some? ==> |skip.value| == |X|)
      ensures |parts| == numSplit && EqualLengths(parts)
      ensures forall p :: 0 <= p < |parts| ==> |parts[p]| == TrimmedSteps(|X|, kernelSize) && Width(parts[p], outChannels)
    {
      var WX := PreactAsWritten(MaskInput(X, skip), kernelSize, W, numSplit * outChannels, inChannels);
      SplitParts(WX, numSplit, outChannels)
    }

    /** The parts `forward_one_step` hands to `pool`: the newest column only
        (none at kernel width 1, where `[-1:-0]` is empty). */
    function OneStepParts(X: seq<Frame>): (parts: seq<seq<Frame>>)
      requires Valid()
      ensures |parts| == numSplit && EqualLengths(parts)
      ensures forall p :: 0 <= p < |parts| ==>
        |parts[p]| == TrimmedSteps(if |X| == 0 then 0 else 1, kernelSize) && Width(parts[p], outChannels)
    {
      var WX := OneStepAsWritten(X, kernelSize, W, numSplit * outChannels, inChannels);
      SplitParts(WX, numSplit, outChannels)
    }

    /** The parts `QRNNDecoder.__call__` hands to `pool`. */
    function DecoderParts(X: seq<Frame>, V: Linear, htEnc: Frame): (parts: seq<seq<Frame>>)
      requires Valid()
      ensures |parts| == numSplit && EqualLengths(parts)
      ensures forall p :: 0 <= p < |parts| ==> |parts[p]| == TrimmedSteps(|X|, kernelSize) && Width(parts[p], outChannels)
    {
      var WX := PreactAsWritten(X, kernelSize, W, numSplit * outChannels, inChannels);
      var Vh := LinearApply(V, numSplit * outChannels, htEnc);
      SplitParts(InjectEncoder(WX, Vh), numSplit, outChannels)
    }

    /** The body of the loop of `pool` for one step with inputs `zt`, `ft`,
        `ot`, `it` and skip value `xt`. */
    method PoolStep(zt: Frame, ft: Frame, ot: Option<Frame>, it: Option<Frame>, xt: real)
      modifies this
      ensures Current() == Advance(old(Current()), Step(zt, ft, ot, it, xt))
      ensures test == old(test)
    {
      if ct.None? {
        ct := Some(Scale(Mul(OneMinus(ft), zt), xt));
      } else {
        var i := if it.None? then OneMinus(ft) else it.value;
        ct := Some(Add(Mul(ft, ct.value), Scale(Mul(i, zt), xt)));
      }
      ht := if ot.None? then ct else Some(Mul(ot.value, ct.value));
      if H.None? {
        H := Some([ht.value]);
        assert [] + [ht.value] == [ht.value];
      } else {
        H := Some(H.value + [ht.value]);
      }
    }

    /** The loop of `pool` over every step of the gates `g`. */
    method PoolLoop(g: Gates, skip: Option<seq<bool>>)
      requires Aligned(g, skip)
      modifies this
      ensures Current() == Run(old(Current()), Zip(g, skip))
      ensures test == old(test)
    {
      ghost var s0 := Current();
      ghost var steps := Zip(g, skip);
      var T := |g.z|;
      var t := 0;
      while t < T
        invariant 0 <= t <= T
        invariant Current() == Run(s0, steps[..t])
        invariant test == old(test)
      {
        ghost var before := Current();
        PoolStep(g.z[t], g.f[t], At(g.o, t), At(g.i, t), SkipValue(skip, t));
        assert steps[t] == StepAt(g, skip, t);
        RunPrefixStep(s0, steps, t);
        t := t + 1;
      }
      assert steps[..T] == steps;
    }

    /** `pool(WX, skip_mask)`: the activated gates, then the loop, updating
        `ct`, `ht` and `H` in place; returns `H`. */
    method Pool(parts: seq<seq<Frame>>, skip: Option<seq<bool>>, u: seq<Frame>) returns (r: Result<Option<seq<Frame>>>)
      requires zoneout && !test && |parts| >= 2 ==> SameGrid(u, parts[1])
      requires EqualLengths(parts)
      requires skip.Some? && |parts| > 0 ==> |skip.value| >= |parts[0]|
      modifies this
      ensures test == old(test)
      ensures Outcome(r, Current()) == PoolSpec(old(Current()), act, parts, |pooling|, zoneout, test, zoneoutRatio, u, skip)
    {
      var gates := MakeGates(act, parts, |pooling|, zoneout, test, zoneoutRatio, u);
      if gates.Failure? {
        return Failure(gates.error);
      }
      MakeGatesAligned(act, parts, |pooling|, zoneout, test, zoneoutRatio, u, skip);
      PoolLoop(gates.value, skip);
      r := Success(H);
    }

    /** `__call__(X, skip_mask, test)`. */
    method Call(X: seq<Frame>, skip: Option<seq<bool>>, testFlag: bool, u: seq<Frame>) returns (r: Result<Option<seq<Frame>>>)
      requires Valid() && Width(X, inChannels)
      requires zoneout && !testFlag ==> Draws(u, TrimmedSteps(|X|, kernelSize), outChannels)
      modifies this
      ensures test == testFlag
      ensures skip.Some? && |skip.value| != |X| ==> r.Failure? && Current() == old(Current())
      ensures kernelSize == 1 ==> Current() == old(Current()) && (r.Success? ==> r.value == old(H))
      ensures (skip.Some? ==> |skip.value| == |X|) ==>
        Outcome(r, Current()) == PoolSpec(old(Current()), act, CallParts(X, skip), |pooling|, zoneout, testFlag, zoneoutRatio, u, skip)
    {
      test := testFlag;
      if skip.Some? && |skip.value| != |X| {
        return Failure(AssertionError("skip_mask.shape[1] == X.shape[2]"));
      }
      var parts := CallParts(X, skip);
      r := Pool(parts, skip, u);
    }

    /** `forward_one_step(X, test)`: the newest column of the convolution,
        pooled without a skip mask. */
    method ForwardOneStep(X: seq<Frame>, testFlag: bool, u: seq<Frame>) returns (r: Result<Option<seq<Frame>>>)
      requires Valid() && Width(X, inChannels)
      requires zoneout && !testFlag ==> Draws(u, TrimmedSteps(if |X| == 0 then 0 else 1, kernelSize), outChannels)
      modifies this
      ensures test == testFlag
      ensures kernelSize == 1 ==> Current() == old(Current()) && (r.Success? ==> r.value == old(H))
      ensures Outcome(r, Current()) == PoolSpec(old(Current()), act, OneStepParts(X), |pooling|, zoneout, testFlag, zoneoutRatio, u, None)
    {
      test := testFlag;
      var parts := OneStepParts(X);
      r := Pool(parts, None, u);
    }

    /** `QRNNDecoder.__call__(X, ht_enc, test)`. */
    method DecoderCall(X: seq<Frame>, htEnc: Frame, testFlag: bool, u: seq<Frame>) returns (r: Result<Option<seq<Frame>>>)
      requires Valid() && kind.Decoder? && Width(X, inChannels)
      requires zoneout && !testFlag ==> Draws(u, TrimmedSteps(|X|, kernelSize), outChannels)
      modifies this
      ensures test == testFlag
      ensures kernelSize == 1 ==> Current() == old(Current()) && (r.Success? ==> r.value == old(H))
      ensures Outcome(r, Current()) == PoolSpec(old(Current()), act, DecoderParts(X, kind.V, htEnc), |pooling|, zoneout, testFlag, zoneoutRatio, u, None)
    {
      test := testFlag;
      var parts := DecoderParts(X, kind.V, htEnc);
      r := Pool(parts, None, u);
    }

    /** The gates `z`, `f`, `o` of the attentive decoder. */
    function AttentiveGates(X: seq<Frame>, htEnc: Frame, testFlag: bool, u: seq<Frame>): (g: Gates)
      requires Valid() && kind.GlobalAttentive?
      requires zoneout && !testFlag ==> Draws(u, TrimmedSteps(|X|, kernelSize), outChannels)
      ensures var T := TrimmedSteps(|X|, kernelSize); |g.z| == T && |g.f| == T && g.o.Some? && |g.o.value| == T
    {
      var parts := DecoderParts(X, kind.V, htEnc);
      Gates(MapSeq(act.tanh, parts[0]), ForgetGate(act.sigmoid, parts[1], zoneout, testFlag, zoneoutRatio, u),
            Some(MapSeq(act.sigmoid, parts[2])), None)
    }

    /** One output of the attention loop: `self.ht` becomes `h`, which
        starts a new `self.H` at the first step and is appended afterwards. */
    method EmitOutput(h: Frame, first: bool)
      requires !first ==> H.Some?
      modifies this
      ensures ht == Some(h)
      ensures H == Some(if first then [h] else old(H).value + [h])
      ensures ct == old(ct) && test == old(test)
    {
      ht := Some(h);
      if first {
        H := Some([h]);
      } else {
        H := Some(H.value + [h]);
      }
    }

    /** The attention loop: step `t` attends over `H_enc[:, :t+1]` with
        context `contexts[t]` and output gate `O[t]`. */
    method AttentionLoop(Henc: seq<Frame>, contexts: seq<Frame>, O: seq<Frame>)
      requires kind.GlobalAttentive? && ExpPositive(act.exp) && |O| == |contexts|
      modifies this
      ensures ct == old(ct) && test == old(test)
      ensures |contexts| == 0 ==> ht == old(ht) && H == old(H)
      ensures |contexts| > 0 ==>
        H == Some(AttendAll(act.exp, kind.oLin, outChannels, Henc, contexts, O))
        && ht == Some(H.value[|contexts| - 1])
    {
      ghost var outs := AttendAll(act.exp, kind.oLin, outChannels, Henc, contexts, O);
      var T := |contexts|;
      var t := 0;
      while t < T
        invariant 0 <= t <= T && ct == old(ct) && test == old(test)
        invariant t == 0 ==> ht == old(ht) && H == old(H)
        invariant t > 0 ==> H.Some? && H.value == outs[..t] && ht == Some(outs[t - 1])
      {
        var c := contexts[t];
        var h := Window(Henc, t);
        var alpha := Softmax(act.exp, Scores(h, c));
        var k := WeightedSum(alpha, h, outChannels);
        var h' := Mul(O[t], LinearApply(kind.oLin, outChannels, k + c));
        assert h' == outs[t];
        ghost var prev := H;
        EmitOutput(h', t == 0);
        PrefixSnoc(outs, t);
        if t == 0 {
          assert H.value == [outs[0]] == outs[..1];
        } else {
          assert H.value == prev.value + [outs[t]] == outs[..t] + [outs[t]];
        }
        t := t + 1;
      }
      if T > 0 {
        assert outs[..T] == outs;
      }
    }

    /** `QRNNGlobalAttentiveDecoder.__call__(X, ht_enc, H_enc, test)`. */
    method AttentiveCall(X: seq<Frame>, htEnc: Frame, Henc: seq<Frame>, testFlag: bool, u: seq<Frame>) returns (r: Option<seq<Frame>>)
      requires Valid() && kind.GlobalAttentive? && Width(X, inChannels) && ExpPositive(act.exp)
      requires zoneout && !testFlag ==> Draws(u, TrimmedSteps(|X|, kernelSize), outChannels)
      modifies this
      ensures test == testFlag && ct == old(ct)
      ensures kernelSize == 1 || |X| == 0 ==> ht == old(ht) && H == old(H)
      ensures 2 <= kernelSize && |X| > 0 ==>
        var g := AttentiveGates(X, htEnc, testFlag, u);
        H == Some(AttendAll(act.exp, kind.oLin, outChannels, Henc, Contexts(g.z, g.f), g.o.value))
        && ht == Some(H.value[|X| - 1])
      ensures r == H
    {
      var g := AttentiveGates(X, htEnc, testFlag, u);
      r := AttendGates(g, Henc, testFlag);
    }

    /** The two loops of the attentive decoder on its gates: the contexts,
        then attention over `H_enc` with output gate `o`. */
    method AttendGates(g: Gates, Henc: seq<Frame>, testFlag: bool) returns (r: Option<seq<Frame>>)
      requires kind.GlobalAttentive? && ExpPositive(act.exp)
      requires |g.f| == |g.z| && g.o.Some? && |g.o.value| == |g.z|
      modifies this
      ensures ct == old(ct) && test == testFlag && r == H
      ensures |g.z| == 0 ==> ht == old(ht) && H == old(H)
      ensures |g.z| > 0 ==>
        H == Some(AttendAll(act.exp, kind.oLin, outChannels, Henc, Contexts(g.z, g.f), g.o.value))
        && ht == Some(H.value[|g.z| - 1])
    {
      test := testFlag;
      var contexts := ContextLoop(g.z, g.f);
      AttentionLoop(Henc, contexts, g.o.value);
      r := H;
    }
  }

  /** The contexts of the attentive decoder: the columns of f-pooling (no
      output gate, no skip mask) from no state at all; `self.ct` is not
      consulted. */
  function Contexts(Z: seq<Frame>, F: seq<Frame>): (cs: seq<Frame>)
    requires |F| == |Z|
    ensures |cs| == |Z|
  {
    RunAppends(Empty, ContextSteps(Z, F));
    Columns(Run(Empty, ContextSteps(Z, F)))
  }

  /** The contexts follow the recurrence of the context loop: `(1 - f) * z`
      at step 0 and `f * contexts[t - 1] + (1 - f) * z` at step `t > 0`. */
  lemma ContextsRecurrence(Z: seq<Frame>, F: seq<Frame>, t: nat)
    requires |F| == |Z| && t < |Z|
    ensures Contexts(Z, F)[t] == ContextStep(if t == 0 then None else Some(Contexts(Z, F)[t - 1]), Z[t], F[t])
  {
    var steps := ContextSteps(Z, F);
    ColumnIsStepOutput(Empty, steps, t);
    RunPrefixStep(Empty, steps, t);
    ContextStepIsPooling(Run(Empty, steps[..t]), Z[t], F[t]);
    if t == 0 {
      assert steps[..0] == [];
    } else {
      ColumnIsStepOutput(Empty, steps, t - 1);
      RunPrefixStep(Empty, steps, t - 1);
      FPoolingHiddenIsCell(Run(Empty, steps[..t - 1]), steps[t - 1]);
    }
  }

  /** The context loop of the attentive decoder: `(1 - f) * z` at `t = 0`,
      `f * contexts[-1] + (1 - f) * z` afterwards. The contexts are the
      columns of f-pooling from the empty state. */
  method ContextLoop(Z: seq<Frame>, F: seq<Frame>) returns (contexts: seq<Frame>)
    requires |F| == |Z|
    ensures contexts == Contexts(Z, F)
  {
    ghost var steps := ContextSteps(Z, F);
    var T := |Z|;
    contexts := [];
    var t := 0;
    while t < T
      invariant 0 <= t <= T && |contexts| == t
      invariant Run(Empty, steps[..t])
             == if t == 0 then Empty else State(Some(contexts[t - 1]), Some(contexts[t - 1]), Some(contexts))
    {
      var z := Z[t];
      var f := F[t];
      var c;
      if t == 0 {
        c := Mul(OneMinus(f), z);
      } else {
        c := Add(Mul(f, contexts[|contexts| - 1]), Mul(OneMinus(f), z));
      }
      ghost var before := Run(Empty, steps[..t]);
      assert steps[t] == Step(z, f, None, None, 1.0);
      assert c == ContextStep(before.ct, z, f);
      assert Columns(before) == contexts;
      ContextStepIsPooling(before, z, f);
      RunPrefixStep(Empty, steps, t);
      contexts := contexts + [c];
      t := t + 1;
    }
    assert steps[..T] == steps;
  }
}
