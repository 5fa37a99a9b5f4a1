/** Properties of whole calls of the QRNN layer: what `pool` does to the
    state, causality of `__call__`, the effect of the skip mask and of
    zoneout at the layer level, the decoder's encoder injection and the
    one-step path. */
module LayerProps {
  import opened PyOps
  import opened Tensor
  import opened Zoneout
  import opened CausalConv
  import opened Pooling
  import opened QRNNLayer

  /** `pool` fails exactly when the pooling string has a length outside
      1..3 (or the parts do not match it), and then leaves the state alone;
      otherwise it appends one column of `H` per step, keeps the old ones
      and returns the new `H`. */
  lemma PoolSpecAppends(s: State, act: Activations, parts: seq<seq<Frame>>, L: nat, zoneout: bool, test: bool, ratio: real, u: seq<Frame>, skip: Option<seq<bool>>)
    requires zoneout && !test && |parts| >= 2 ==> SameGrid(u, parts[1])
    requires EqualLengths(parts)
    requires skip.Some? && |parts| > 0 ==> |skip.value| >= |parts[0]|
    ensures var o := PoolSpec(s, act, parts, L, zoneout, test, ratio, u, skip);
      && (o.result.Failure? <==> !(1 <= L <= 3 && |parts| == L + 1))
      && (o.result.Failure? ==> o.state == s && o.result.error.AssertionError?)
      && (o.result.Success? ==>
            && o.result.value == o.state.H
            && |Columns(o.state)| == |Columns(s)| + |parts[0]|
            && Columns(o.state)[..|Columns(s)|] == Columns(s)
            && (|parts[0]| > 0 ==> o.state.ct.Some? && o.state.ht.Some? && o.state.H.Some?)
            && (|parts[0]| == 0 ==> o.state == s))
  {
    var r := MakeGates(act, parts, L, zoneout, test, ratio, u);
    if r.Success? {
      MakeGatesAligned(act, parts, L, zoneout, test, ratio, u, skip);
      RunAppends(s, Zip(r.value, skip));
    }
  }

  /** The forget gate at one step depends only on the pre-activation and
      the draws of that step. */
  lemma ForgetGateLocal(sigmoid: real -> real, U1: seq<Frame>, U2: seq<Frame>, zoneout: bool, test: bool, ratio: real,
                        u1: seq<Frame>, u2: seq<Frame>, t1: nat, t2: nat)
    requires zoneout && !test ==> SameGrid(u1, U1) && SameGrid(u2, U2)
    requires t1 < |U1| && t2 < |U2| && U1[t1] == U2[t2]
    requires zoneout && !test ==> u1[t1] == u2[t2]
    ensures ForgetGate(sigmoid, U1, zoneout, test, ratio, u1)[t1] == ForgetGate(sigmoid, U2, zoneout, test, ratio, u2)[t2]
  {
    var F1 := ForgetGate(sigmoid, U1, zoneout, test, ratio, u1);
    var F2 := ForgetGate(sigmoid, U2, zoneout, test, ratio, u2);
    if zoneout && !test {
      assert forall c :: 0 <= c < |U1[t1]| ==> F1[t1][c] == F2[t2][c];
    }
  }

  /** The gates `__call__` hands to the loop, when the pooling string has a
      valid length: one entry per input step from kernel width 2 on, none
      at width 1. */
  function CallGates(q: QRNN, X: seq<Frame>, skip: Option<seq<bool>>, testFlag: bool, u: seq<Frame>): (g: Gates)
    requires q.Valid() && 1 <= |q.pooling| <= 3
    requires skip.Some? ==> |skip.value| == |X|
    requires q.zoneout && !testFlag ==> Draws(u, TrimmedSteps(|X|, q.kernelSize), q.outChannels)
    ensures Aligned(g, skip) && Steps(g) == TrimmedSteps(|X|, q.kernelSize)
  {
    var parts := q.CallParts(X, skip);
    MakeGatesAligned(q.act, parts, |q.pooling|, q.zoneout, testFlag, q.zoneoutRatio, u, skip);
    MakeGates(q.act, parts, |q.pooling|, q.zoneout, testFlag, q.zoneoutRatio, u).value
  }

  /** Every iteration of a call reads frames `outChannels` wide. */
  lemma CallStepsShape(q: QRNN, X: seq<Frame>, skip: Option<seq<bool>>, testFlag: bool, u: seq<Frame>)
    requires q.Valid() && 1 <= |q.pooling| <= 3
    requires skip.Some? ==> |skip.value| == |X|
    requires q.zoneout && !testFlag ==> Draws(u, TrimmedSteps(|X|, q.kernelSize), q.outChannels)
    ensures StepsShape(Zip(CallGates(q, X, skip, testFlag, u), skip), q.outChannels)
  {
    var parts := q.CallParts(X, skip);
    var g := CallGates(q, X, skip, testFlag, u);
    var w := q.outChannels;
    forall t | 0 <= t < Steps(g)
      ensures |g.z[t]| == w && |g.f[t]| == w
      ensures g.o.Some? ==> |g.o.value[t]| == w
      ensures g.i.Some? ==> |g.i.value[t]| == w
    {
      assert |parts[0][t]| == w && |parts[1][t]| == w;
      if g.o.Some? {
        assert |parts[2][t]| == w;
      }
      if g.i.Some? {
        assert |parts[3][t]| == w;
      }
    }
  }

  /** With a valid pooling string, `__call__` leaves the state of running
      the loop over `CallGates`. */
  lemma CallGatesRun(q: QRNN, s: State, X: seq<Frame>, skip: Option<seq<bool>>, testFlag: bool, u: seq<Frame>)
    requires q.Valid() && 1 <= |q.pooling| <= 3
    requires skip.Some? ==> |skip.value| == |X|
    requires q.zoneout && !testFlag ==> Draws(u, TrimmedSteps(|X|, q.kernelSize), q.outChannels)
    ensures PoolSpec(s, q.act, q.CallParts(X, skip), |q.pooling|, q.zoneout, testFlag, q.zoneoutRatio, u, skip).state
         == Run(s, Zip(CallGates(q, X, skip, testFlag, u), skip))
  {
  }

  /** The loop keeps every part of the state `outChannels` wide. */
  lemma CallKeepsShape(q: QRNN, s: State, X: seq<Frame>, skip: Option<seq<bool>>, testFlag: bool, u: seq<Frame>)
    requires q.Valid() && Width(X, q.inChannels) && StateShape(s, q.outChannels)
    requires skip.Some? ==> |skip.value| == |X|
    requires q.zoneout && !testFlag ==> Draws(u, TrimmedSteps(|X|, q.kernelSize), q.outChannels)
    ensures StateShape(PoolSpec(s, q.act, q.CallParts(X, skip), |q.pooling|, q.zoneout, testFlag, q.zoneoutRatio, u, skip).state, q.outChannels)
  {
    if 1 <= |q.pooling| <= 3 {
      CallStepsShape(q, X, skip, testFlag, u);
      RunShape(s, Zip(CallGates(q, X, skip, testFlag, u), skip), q.outChannels);
    }
  }

  /** Two inputs that agree on their first `n` steps (input and skip mask)
      give the same pre-activations on the steps of those `n` that the trim
      keeps. */
  lemma CallPartsCausal(q: QRNN, X1: seq<Frame>, X2: seq<Frame>, skip1: Option<seq<bool>>, skip2: Option<seq<bool>>, n: nat)
    requires q.Valid()
    requires skip1.Some? ==> |skip1.value| == |X1|
    requires skip2.Some? ==> |skip2.value| == |X2|
    requires skip1.Some? == skip2.Some? && n <= |X1| && n <= |X2|
    requires forall t :: 0 <= t < n ==> X1[t] == X2[t]
    requires skip1.Some? ==> forall t :: 0 <= t < n ==> skip1.value[t] == skip2.value[t]
    ensures forall p, t :: 0 <= p < q.numSplit && 0 <= t < TrimmedSteps(n, q.kernelSize) ==>
      q.CallParts(X1, skip1)[p][t] == q.CallParts(X2, skip2)[p][t]
  {
    var M1 := MaskInput(X1, skip1);
    var M2 := MaskInput(X2, skip2);
    var w := q.numSplit * q.outChannels;
    forall t | 0 <= t < TrimmedSteps(n, q.kernelSize)
      ensures PreactAsWritten(M1, q.kernelSize, q.W, w, q.inChannels)[t] == PreactAsWritten(M2, q.kernelSize, q.W, w, q.inChannels)[t]
    {
      PreactCausal(M1, M2, t, q.kernelSize, q.W, w, q.inChannels);
    }
  }

  /** Iteration `t1` of one `pool` call and iteration `t2` of another are
      the same when their pre-activations, skip values and draws agree. */
  lemma GatesLocal(act: Activations, P1: seq<seq<Frame>>, P2: seq<seq<Frame>>, L: nat, zoneout: bool, test: bool, ratio: real,
                   u1: seq<Frame>, u2: seq<Frame>, skip1: Option<seq<bool>>, skip2: Option<seq<bool>>, t1: nat, t2: nat)
    requires 1 <= L <= 3 && |P1| == L + 1 && |P2| == L + 1 && EqualLengths(P1) && EqualLengths(P2)
    requires zoneout && !test ==> SameGrid(u1, P1[1]) && SameGrid(u2, P2[1])
    requires skip1.Some? ==> |skip1.value| == |P1[0]|
    requires skip2.Some? ==> |skip2.value| == |P2[0]|
    requires t1 < |P1[0]| && t2 < |P2[0]|
    requires forall p :: 0 <= p < |P1| ==> P1[p][t1] == P2[p][t2]
    requires SkipValue(skip1, t1) == SkipValue(skip2, t2)
    requires zoneout && !test ==> u1[t1] == u2[t2]
    ensures MakeGates(act, P1, L, zoneout, test, ratio, u1).Success?
    ensures MakeGates(act, P2, L, zoneout, test, ratio, u2).Success?
    ensures Aligned(MakeGates(act, P1, L, zoneout, test, ratio, u1).value, skip1)
    ensures Aligned(MakeGates(act, P2, L, zoneout, test, ratio, u2).value, skip2)
    ensures StepAt(MakeGates(act, P1, L, zoneout, test, ratio, u1).value, skip1, t1)
         == StepAt(MakeGates(act, P2, L, zoneout, test, ratio, u2).value, skip2, t2)
  {
    MakeGatesAligned(act, P1, L, zoneout, test, ratio, u1, skip1);
    MakeGatesAligned(act, P2, L, zoneout, test, ratio, u2, skip2);
    var g1 := MakeGates(act, P1, L, zoneout, test, ratio, u1).value;
    var g2 := MakeGates(act, P2, L, zoneout, test, ratio, u2).value;
    assert P1[0][t1] == P2[0][t2] && P1[1][t1] == P2[1][t2];
    ForgetGateLocal(act.sigmoid, P1[1], P2[1], zoneout, test, ratio, u1, u2, t1, t2);
    if 2 <= L {
      assert P1[2][t1] == P2[2][t2];
      assert g1.o.value[t1] == g2.o.value[t2];
    }
    if L == 3 {
      assert P1[3][t1] == P2[3][t2];
      assert g1.i.value[t1] == g2.i.value[t2];
    }
  }

  /** Iteration `t` of two calls is the same when their pre-activations,
      skip values and draws agree at `t`. */
  lemma CallStepLocal(q: QRNN, X1: seq<Frame>, X2: seq<Frame>, skip1: Option<seq<bool>>, skip2: Option<seq<bool>>,
                      testFlag: bool, u1: seq<Frame>, u2: seq<Frame>, t: nat)
    requires q.Valid() && 1 <= |q.pooling| <= 3
    requires skip1.Some? ==> |skip1.value| == |X1|
    requires skip2.Some? ==> |skip2.value| == |X2|
    requires q.zoneout && !testFlag ==> Draws(u1, TrimmedSteps(|X1|, q.kernelSize), q.outChannels) && Draws(u2, TrimmedSteps(|X2|, q.kernelSize), q.outChannels)
    requires skip1.Some? == skip2.Some? && t < TrimmedSteps(|X1|, q.kernelSize) && t < TrimmedSteps(|X2|, q.kernelSize)
    requires forall p :: 0 <= p < q.numSplit ==> q.CallParts(X1, skip1)[p][t] == q.CallParts(X2, skip2)[p][t]
    requires skip1.Some? ==> skip1.value[t] == skip2.value[t]
    requires q.zoneout && !testFlag ==> u1[t] == u2[t]
    ensures Zip(CallGates(q, X1, skip1, testFlag, u1), skip1)[t] == Zip(CallGates(q, X2, skip2, testFlag, u2), skip2)[t]
  {
    GatesLocal(q.act, q.CallParts(X1, skip1), q.CallParts(X2, skip2), |q.pooling|, q.zoneout, testFlag, q.zoneoutRatio,
               u1, u2, skip1, skip2, t, t);
  }

  /** The iterations two calls run over the first `n` steps, on which their
      inputs, skip masks and draws agree, are the same: all `n` of them from
      kernel width 2 on, none at width 1. */
  lemma CallStepsCausal(q: QRNN, X1: seq<Frame>, X2: seq<Frame>, skip1: Option<seq<bool>>, skip2: Option<seq<bool>>,
                        testFlag: bool, u1: seq<Frame>, u2: seq<Frame>, n: nat)
    requires q.Valid() && 1 <= |q.pooling| <= 3
    requires skip1.Some? ==> |skip1.value| == |X1|
    requires skip2.Some? ==> |skip2.value| == |X2|
    requires q.zoneout && !testFlag ==> Draws(u1, TrimmedSteps(|X1|, q.kernelSize), q.outChannels) && Draws(u2, TrimmedSteps(|X2|, q.kernelSize), q.outChannels)
    requires skip1.Some? == skip2.Some? && n <= |X1| && n <= |X2|
    requires forall t :: 0 <= t < n ==> X1[t] == X2[t]
    requires skip1.Some? ==> forall t :: 0 <= t < n ==> skip1.value[t] == skip2.value[t]
    requires q.zoneout && !testFlag ==> forall t :: 0 <= t < TrimmedSteps(n, q.kernelSize) ==> u1[t] == u2[t]
    ensures var m := TrimmedSteps(n, q.kernelSize);
      Zip(CallGates(q, X1, skip1, testFlag, u1), skip1)[..m] == Zip(CallGates(q, X2, skip2, testFlag, u2), skip2)[..m]
  {
    var m := TrimmedSteps(n, q.kernelSize);
    if m > 0 {
      CallPartsCausal(q, X1, X2, skip1, skip2, n);
      var z1 := Zip(CallGates(q, X1, skip1, testFlag, u1), skip1);
      var z2 := Zip(CallGates(q, X2, skip2, testFlag, u2), skip2);
      assert m == n && TrimmedSteps(|X1|, q.kernelSize) == |X1| && TrimmedSteps(|X2|, q.kernelSize) == |X2|;
      assert m <= |z1| && m <= |z2|;
      forall t | 0 <= t < m
        ensures z1[..m][t] == z2[..m][t]
      {
        CallStepLocal(q, X1, X2, skip1, skip2, testFlag, u1, u2, t);
      }
    }
  }

  /** Causality of `__call__`: the hidden state of step `t < n` is decided
      by the first `n` steps of the input, the skip mask and the draws;
      whatever follows cannot change it. At kernel width 1 no step is
      pooled, so there is no such state. */
  lemma CallCausal(q: QRNN, s: State, X1: seq<Frame>, X2: seq<Frame>, skip1: Option<seq<bool>>, skip2: Option<seq<bool>>,
                   testFlag: bool, u1: seq<Frame>, u2: seq<Frame>, n: nat)
    requires q.Valid() && 1 <= |q.pooling| <= 3
    requires skip1.Some? ==> |skip1.value| == |X1|
    requires skip2.Some? ==> |skip2.value| == |X2|
    requires q.zoneout && !testFlag ==> Draws(u1, TrimmedSteps(|X1|, q.kernelSize), q.outChannels) && Draws(u2, TrimmedSteps(|X2|, q.kernelSize), q.outChannels)
    requires skip1.Some? == skip2.Some? && n <= |X1| && n <= |X2|
    requires forall t :: 0 <= t < n ==> X1[t] == X2[t]
    requires skip1.Some? ==> forall t :: 0 <= t < n ==> skip1.value[t] == skip2.value[t]
    requires q.zoneout && !testFlag ==> forall t :: 0 <= t < TrimmedSteps(n, q.kernelSize) ==> u1[t] == u2[t]
    ensures var c1 := Columns(PoolSpec(s, q.act, q.CallParts(X1, skip1), |q.pooling|, q.zoneout, testFlag, q.zoneoutRatio, u1, skip1).state);
            var c2 := Columns(PoolSpec(s, q.act, q.CallParts(X2, skip2), |q.pooling|, q.zoneout, testFlag, q.zoneoutRatio, u2, skip2).state);
            var m := TrimmedSteps(n, q.kernelSize);
            |Columns(s)| + m <= |c1| && |Columns(s)| + m <= |c2|
            && forall j :: |Columns(s)| <= j < |Columns(s)| + m ==> c1[j] == c2[j]
  {
    CallStepsCausal(q, X1, X2, skip1, skip2, testFlag, u1, u2, n);
    CallGatesRun(q, s, X1, skip1, testFlag, u1);
    CallGatesRun(q, s, X2, skip2, testFlag, u2);
    RunPrefixColumns(s, Zip(CallGates(q, X1, skip1, testFlag, u1), skip1), Zip(CallGates(q, X2, skip2, testFlag, u2), skip2),
                     TrimmedSteps(n, q.kernelSize));
  }

  /** A step the skip mask turns off: its input frame is zeroed before the
      convolution, and from kernel width 2 on (where the loop runs that step)
      the cell only decays there, `c = f * c_prev` (or is 0 when there is no
      prior cell). */
  lemma CallSkippedStep(q: QRNN, s: State, X: seq<Frame>, skip: Option<seq<bool>>, testFlag: bool, u: seq<Frame>, t: nat)
    requires q.Valid() && 1 <= |q.pooling| <= 3 && Width(X, q.inChannels) && StateShape(s, q.outChannels)
    requires skip.Some? && |skip.value| == |X| && t < |X| && !skip.value[t]
    requires q.zoneout && !testFlag ==> Draws(u, TrimmedSteps(|X|, q.kernelSize), q.outChannels)
    ensures MaskInput(X, skip)[t] == Zeros(q.inChannels)
    ensures 2 <= q.kernelSize ==>
            var g := CallGates(q, X, skip, testFlag, u);
            var before := Run(s, Zip(g, skip)[..t]);
            var after := Run(s, Zip(g, skip)[..t + 1]);
            && (before.ct.Some? ==> after.ct == Some(Mul(g.f[t], before.ct.value)))
            && (before.ct.None? ==> after.ct == Some(Zeros(q.outChannels)))
  {
    if q.kernelSize == 1 {
      return;
    }
    var g := CallGates(q, X, skip, testFlag, u);
    var steps := Zip(g, skip);
    RunPrefixStep(s, steps, t);
    CallStepsShape(q, X, skip, testFlag, u);
    assert StepsShape(steps[..t], q.outChannels);
    RunShape(s, steps[..t], q.outChannels);
    SkippedStepDecays(Run(s, steps[..t]), steps[t]);
  }

  /** Zoneout with ratio 1 outside test mode freezes the cell state of f-
      and fo-pooling: after a nonempty call it is the cell state before the
      call, or 0 when there was none (from kernel width 2 on; at width 1
      the call pools nothing and leaves the state as it was). */
  lemma FullZoneoutFreezesCell(q: QRNN, s: State, X: seq<Frame>, skip: Option<seq<bool>>, u: seq<Frame>)
    requires q.Valid() && 1 <= |q.pooling| <= 2 && q.zoneout && 1.0 <= q.zoneoutRatio
    requires Width(X, q.inChannels) && 0 < |X| && StateShape(s, q.outChannels)
    requires skip.Some? ==> |skip.value| == |X|
    requires Draws(u, TrimmedSteps(|X|, q.kernelSize), q.outChannels) && UnitDraws(u)
    ensures 2 <= q.kernelSize ==>
      PoolSpec(s, q.act, q.CallParts(X, skip), |q.pooling|, q.zoneout, false, q.zoneoutRatio, u, skip).state.ct
      == Some(if s.ct.None? then Zeros(q.outChannels) else s.ct.value)
  {
    if q.kernelSize == 1 {
      return;
    }
    var parts := q.CallParts(X, skip);
    var g := CallGates(q, X, skip, false, u);
    ForgetGateAllZonedOut(q.act.sigmoid, parts[1], q.zoneoutRatio, u, q.outChannels);
    CallGatesRun(q, s, X, skip, false, u);
    CallStepsShape(q, X, skip, false, u);
    FrozenForgetGate(s, Zip(g, skip), q.outChannels);
  }

  /** A decoder whose link `V` is zero everywhere computes what the plain
      layer computes without a skip mask. */
  lemma DecoderZeroLinkIsPlain(q: QRNN, X: seq<Frame>, V: Linear, htEnc: Frame)
    requires q.Valid()
    requires forall c, x :: V(c, x) == 0.0
    ensures q.DecoderParts(X, V, htEnc) == q.CallParts(X, None)
  {
    var w := q.numSplit * q.outChannels;
    var Vh := LinearApply(V, w, htEnc);
    assert Vh == Zeros(w);
    var WX := PreactAsWritten(X, q.kernelSize, q.W, w, q.inChannels);
    InjectZeroIsIdentity(WX, w);
    assert MaskInput(X, None) == X;
  }

  /** `forward_one_step` on a nonempty input runs exactly one iteration of
      `pool`: the one a full call over the same input runs last (given the
      same draws for that step). At kernel width 1 neither runs any. */
  lemma OneStepIsLastStep(q: QRNN, s: State, X: seq<Frame>, testFlag: bool, u1: seq<Frame>, u: seq<Frame>)
    requires q.Valid() && 1 <= |q.pooling| <= 3 && Width(X, q.inChannels) && 0 < |X|
    requires q.zoneout && !testFlag ==>
      && Draws(u1, TrimmedSteps(1, q.kernelSize), q.outChannels) && Draws(u, TrimmedSteps(|X|, q.kernelSize), q.outChannels)
      && (2 <= q.kernelSize ==> u1[0] == u[|X| - 1])
    ensures q.kernelSize == 1 ==>
      && PoolSpec(s, q.act, q.OneStepParts(X), |q.pooling|, q.zoneout, testFlag, q.zoneoutRatio, u1, None).state == s
      && Steps(CallGates(q, X, None, testFlag, u)) == 0
    ensures 2 <= q.kernelSize ==>
      PoolSpec(s, q.act, q.OneStepParts(X), |q.pooling|, q.zoneout, testFlag, q.zoneoutRatio, u1, None).state
      == Advance(s, Zip(CallGates(q, X, None, testFlag, u), None)[|X| - 1])
  {
    if q.kernelSize == 1 {
      PoolSpecAppends(s, q.act, q.OneStepParts(X), |q.pooling|, q.zoneout, testFlag, q.zoneoutRatio, u1, None);
    } else {
      OneStepRunsLastStep(q, s, X, testFlag, u1, u);
    }
  }

  lemma OneStepRunsLastStep(q: QRNN, s: State, X: seq<Frame>, testFlag: bool, u1: seq<Frame>, u: seq<Frame>)
    requires q.Valid() && 1 <= |q.pooling| <= 3 && Width(X, q.inChannels) && 0 < |X| && 2 <= q.kernelSize
    requires q.zoneout && !testFlag ==> Draws(u1, 1, q.outChannels) && Draws(u, |X|, q.outChannels) && u1[0] == u[|X| - 1]
    ensures PoolSpec(s, q.act, q.OneStepParts(X), |q.pooling|, q.zoneout, testFlag, q.zoneoutRatio, u1, None).state
         == Advance(s, Zip(CallGates(q, X, None, testFlag, u), None)[|X| - 1])
  {
    var w := q.numSplit * q.outChannels;
    var n := |X| - 1;
    OneStepIsLastColumn(X, q.kernelSize, q.W, w, q.inChannels);
    assert MaskInput(X, None) == X;
    var one := q.OneStepParts(X);
    var all := q.CallParts(X, None);
    assert forall p :: 0 <= p < q.numSplit ==> one[p][0] == all[p][n];
    var g := CallGates(q, X, None, testFlag, u);
    GatesLocal(q.act, one, all, |q.pooling|, q.zoneout, testFlag, q.zoneoutRatio, u1, u, None, None, 0, n);
    var g1 := MakeGates(q.act, one, |q.pooling|, q.zoneout, testFlag, q.zoneoutRatio, u1).value;
    var st := Zip(g, None)[n];
    assert Zip(g1, None) == [st];
    RunSnoc(s, [], st);
    assert [] + [st] == [st];
  }

  /** At kernel width 1 the trims `[:-0]` and `[-1:-0]` leave no step, so
      `__call__`, `forward_one_step` and the decoder's `__call__` run no
      iteration of `pool`: the state is left as it was, and a successful
      call returns the `H` it held before. */
  lemma KernelOneLeavesState(q: QRNN, s: State, X: seq<Frame>, skip: Option<seq<bool>>, V: Linear, htEnc: Frame,
                             testFlag: bool, u: seq<Frame>)
    requires q.Valid() && q.kernelSize == 1
    requires skip.Some? ==> |skip.value| == |X|
    requires q.zoneout && !testFlag ==> u == []
    ensures var o := PoolSpec(s, q.act, q.CallParts(X, skip), |q.pooling|, q.zoneout, testFlag, q.zoneoutRatio, u, skip);
      o.state == s && (o.result.Success? ==> o.result.value == s.H)
    ensures var o := PoolSpec(s, q.act, q.OneStepParts(X), |q.pooling|, q.zoneout, testFlag, q.zoneoutRatio, u, None);
      o.state == s && (o.result.Success? ==> o.result.value == s.H)
    ensures var o := PoolSpec(s, q.act, q.DecoderParts(X, V, htEnc), |q.pooling|, q.zoneout, testFlag, q.zoneoutRatio, u, None);
      o.state == s && (o.result.Success? ==> o.result.value == s.H)
  {
    PoolSpecAppends(s, q.act, q.CallParts(X, skip), |q.pooling|, q.zoneout, testFlag, q.zoneoutRatio, u, skip);
    PoolSpecAppends(s, q.act, q.OneStepParts(X), |q.pooling|, q.zoneout, testFlag, q.zoneoutRatio, u, None);
    PoolSpecAppends(s, q.act, q.DecoderParts(X, V, htEnc), |q.pooling|, q.zoneout, testFlag, q.zoneoutRatio, u, None);
  }

}
