/** The pieces of `QRNNGlobalAttentiveDecoder.__call__` (qrnn.py:264-306):
    the ungated context recurrence, the causal attention window over the
    encoder states, the softmax weights, the weighted read-out and the
    output `o_t * W_o [k_t; c_t]`. Encoder states are time-major frames. */
module Attention {
  import opened PyOps
  import opened Tensor
  import opened Pooling

  /** The context loop reads `z` and `f` of each step; it has no output gate,
      no input gate and no skip mask. */
  function ContextSteps(Z: seq<Frame>, F: seq<Frame>): (r: seq<Step>)
    requires |F| == |Z|
    ensures |r| == |Z|
    ensures forall t :: 0 <= t < |r| ==> r[t] == Step(Z[t], F[t], None, None, 1.0)
  {
    seq(|Z|, t requires 0 <= t < |Z| => Step(Z[t], F[t], None, None, 1.0))
  }

  /** One context as the loop computes it: `(1 - f) * z` at `t = 0`,
      `f * c_prev + (1 - f) * z` afterwards. */
  function ContextStep(prev: Option<Frame>, z: Frame, f: Frame): Frame
  {
    if prev.None? then Mul(OneMinus(f), z) else Add(Mul(f, prev.value), Mul(OneMinus(f), z))
  }

  /** The context step is one step of f-pooling (`x = 1`, no gates besides
      `z` and `f`), whose hidden state is its cell state. */
  lemma ContextStepIsPooling(s: State, z: Frame, f: Frame)
    ensures Advance(s, Step(z, f, None, None, 1.0)).ct == Some(ContextStep(s.ct, z, f))
    ensures Advance(s, Step(z, f, None, None, 1.0)).ht == Some(ContextStep(s.ct, z, f))
  {
    ScaleOne(Mul(OneMinus(f), z));
  }

  /** `H_enc[:, :t+1, :]`: the encoder positions step `t` may attend to. */
  function Window(Henc: seq<Frame>, t: nat): (w: seq<Frame>)
    ensures |w| == Min(t + 1, |Henc|)
    ensures w == Henc[..|w|]
  {
    Slice(Henc, 0, t + 1)
  }

  /** `batch_matmul(h, c_t)`: one score per window position. */
  function Scores(h: seq<Frame>, c: Frame): (a: seq<real>)
    ensures |a| == |h|
    ensures forall s :: 0 <= s < |h| ==> a[s] == Dot(h[s], c)
  {
    seq(|h|, s requires 0 <= s < |h| => Dot(h[s], c))
  }

  /** Every entry of `exp(a)` is positive. */
  lemma MapExpPositive(exp: real -> real, a: seq<real>)
    requires ExpPositive(exp)
    ensures forall i :: 0 <= i < |a| ==> Map(exp, a)[i] > 0.0
  {
    forall i | 0 <= i < |a|
      ensures Map(exp, a)[i] > 0.0
    {
      var x := a[i];
      assert exp(x) > 0.0;
    }
  }

  /** `softmax` over the window positions. */
  function Softmax(exp: real -> real, a: seq<real>): (p: seq<real>)
    requires ExpPositive(exp)
    ensures |p| == |a|
    ensures forall i :: 0 <= i < |a| ==> p[i] > 0.0
    ensures |a| > 0 ==> Sum(p) == 1.0
  {
    var e := Map(exp, a);
    if |a| == 0 then []
    else
      MapExpPositive(exp, a);
      SumPositive(e);
      var p := Scale(e, 1.0 / Sum(e));
      SumScale(e, 1.0 / Sum(e));
      p
  }

  /** `sum(alpha * h, axis=1)`: the attention read-out, `w` channels wide. */
  function WeightedSum(alpha: seq<real>, h: seq<Frame>, w: nat): (k: Frame)
    requires |alpha| == |h|
    ensures |k| == w
    decreases |h|
  {
    if |h| == 0 then Zeros(w)
    else
      var n := |h| - 1;
      Add(WeightedSum(alpha[..n], h[..n], w), Scale(h[n], alpha[n]))
  }

  /** With non-negative weights, channel `c` of the read-out lies between
      the total weight times the least and the greatest value the positions
      hold in that channel. */
  lemma {:induction false} WeightedSumBounds(alpha: seq<real>, h: seq<Frame>, w: nat, c: nat, lo: real, hi: real)
    requires |alpha| == |h| && Width(h, w) && c < w
    requires forall s :: 0 <= s < |alpha| ==> alpha[s] >= 0.0
    requires forall s :: 0 <= s < |h| ==> lo <= h[s][c] <= hi
    ensures Sum(alpha) * lo <= WeightedSum(alpha, h, w)[c] <= Sum(alpha) * hi
    decreases |h|
  {
    if |h| > 0 {
      var n := |h| - 1;
      WeightedSumBounds(alpha[..n], h[..n], w, c, lo, hi);
      var x, a := h[n][c], alpha[n];
      var prev, total := Sum(alpha[..n]), Sum(alpha);
      assert a * lo <= x * a <= a * hi by {
        assert a * (x - lo) >= 0.0 && a * (hi - x) >= 0.0;
      }
      assert WeightedSum(alpha, h, w)[c] == WeightedSum(alpha[..n], h[..n], w)[c] + x * a;
      assert total == prev + a;
      assert total * lo == prev * lo + a * lo && total * hi == prev * hi + a * hi;
    }
  }

  /** The attention read-out `k_t` is a convex combination of the window:
      each of its channels lies between the least and the greatest value
      the window holds there. */
  lemma ReadOutBetween(exp: real -> real, h: seq<Frame>, ctx: Frame, w: nat, c: nat, lo: real, hi: real)
    requires ExpPositive(exp) && |h| > 0 && Width(h, w) && c < w
    requires forall s :: 0 <= s < |h| ==> lo <= h[s][c] <= hi
    ensures lo <= WeightedSum(Softmax(exp, Scores(h, ctx)), h, w)[c] <= hi
  {
    var alpha := Softmax(exp, Scores(h, ctx));
    WeightedSumBounds(alpha, h, w, c, lo, hi);
  }

  /** The output of step `t`: `o_t * W_o [k_t; c_t]`. */
  function AttendStep(exp: real -> real, oLin: Linear, out: nat, Henc: seq<Frame>, c: Frame, ot: Frame, t: nat): (h: Frame)
    requires ExpPositive(exp)
    ensures |h| == |ot|
  {
    var window := Window(Henc, t);
    var alpha := Softmax(exp, Scores(window, c));
    var k := WeightedSum(alpha, window, out);
    Mul(ot, LinearApply(oLin, out, k + c))
  }

  /** All outputs of a call: one per decoder step. */
  function AttendAll(exp: real -> real, oLin: Linear, out: nat, Henc: seq<Frame>, contexts: seq<Frame>, O: seq<Frame>): (H: seq<Frame>)
    requires ExpPositive(exp) && |O| == |contexts|
    ensures |H| == |contexts|
    ensures forall t :: 0 <= t < |H| ==> H[t] == AttendStep(exp, oLin, out, Henc, contexts[t], O[t], t)
  {
    seq(|contexts|, t requires 0 <= t < |contexts| => AttendStep(exp, oLin, out, Henc, contexts[t], O[t], t))
  }

  /** Step `t` sees exactly `min(t + 1, |H_enc|)` encoder positions, the
      first ones: encoder states after position `t` cannot change its output. */
  lemma AttendCausal(exp: real -> real, oLin: Linear, out: nat, H1: seq<Frame>, H2: seq<Frame>, c: Frame, ot: Frame, t: nat)
    requires ExpPositive(exp)
    requires H1[..Min(t + 1, |H1|)] == H2[..Min(t + 1, |H2|)]
    ensures AttendStep(exp, oLin, out, H1, c, ot, t) == AttendStep(exp, oLin, out, H2, c, ot, t)
  {
    assert Window(H1, t) == Window(H2, t);
  }

  /** A window of one position gets the whole weight. */
  lemma SoftmaxSingle(exp: real -> real, a: real)
    requires ExpPositive(exp)
    ensures Softmax(exp, [a]) == [1.0]
  {
    var p := Softmax(exp, [a]);
    assert Sum(p) == Sum(p[..0]) + p[0] == p[0];
  }

  /** The read-out of a single position with weight 1 is that position. */
  lemma WeightedSumSingle(v: Frame)
    ensures WeightedSum([1.0], [v], |v|) == v
  {
    assert [1.0][..0] == [] && [v][..0] == [];
    var zero := WeightedSum([], [], |v|);
    assert zero == Zeros(|v|);
    ScaleOne(v);
    var k := Add(zero, v);
    assert WeightedSum([1.0], [v], |v|) == k;
    assert forall c :: 0 <= c < |v| ==> k[c] == v[c];
  }

  /** At the first decoder step the window is the first encoder state, which
      is then read out unchanged: `o_0 * W_o [H_enc[0]; c_0]`. */
  lemma AttendFirstStep(exp: real -> real, oLin: Linear, out: nat, Henc: seq<Frame>, c: Frame, ot: Frame)
    requires ExpPositive(exp) && 0 < |Henc| && |Henc[0]| == out
    ensures AttendStep(exp, oLin, out, Henc, c, ot, 0) == Mul(ot, LinearApply(oLin, out, Henc[0] + c))
  {
    var window := Window(Henc, 0);
    assert window == [Henc[0]];
    assert Scores(window, c) == [Dot(Henc[0], c)];
    SoftmaxSingle(exp, Dot(Henc[0], c));
    WeightedSumSingle(Henc[0]);
  }
}
