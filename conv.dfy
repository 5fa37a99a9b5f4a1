/** The causal convolution of `QRNN.__call__` and `QRNN.forward_one_step`
    (qrnn.py:36, 57-58, 67-69). The convolution link is padded by
    `pad = kernel_size - 1` on both sides, so its output has `pad` more steps
    than its input, and the trailing `pad` steps are sliced away.
    The kernel itself is a parameter: output channel `c` is an arbitrary
    function of one window of `k` consecutive padded input frames. */
module CausalConv {
  import opened PyOps
  import opened Tensor

  /** Output channel `c` of the convolution computed from one window. */
  type Kernel = (nat, seq<Frame>) -> real

  /** The output frame of the convolution for one window. */
  function ConvFrame(W: Kernel, outCh: nat, window: seq<Frame>): (y: Frame)
    ensures |y| == outCh
    ensures forall c :: 0 <= c < outCh ==> y[c] == W(c, window)
  {
    LinearApply(W, outCh, window)
  }

  /** `pad` zero frames on each side of `x`. */
  function ZeroPad(x: seq<Frame>, pad: nat, width: nat): (p: seq<Frame>)
    ensures |p| == |x| + 2 * pad
    ensures forall i :: 0 <= i < |p| ==>
      p[i] == if pad <= i < pad + |x| then x[i - pad] else Zeros(width)
  {
    var z := seq(pad, i => Zeros(width));
    z + x + z
  }

  /** A stride-1 convolution over every window of exactly `k` frames. */
  function Convolve(xp: seq<Frame>, k: nat, W: Kernel, outCh: nat): (y: seq<Frame>)
    requires 1 <= k
    ensures |y| == if |xp| < k then 0 else |xp| - k + 1
    ensures forall j :: 0 <= j < |y| ==> y[j] == ConvFrame(W, outCh, xp[j..j + k])
  {
    if |xp| < k then []
    else seq(|xp| - k + 1, j requires 0 <= j <= |xp| - k => ConvFrame(W, outCh, xp[j..j + k]))
  }

  /** `self.W(X)`: the convolution link with `pad = k - 1` on both sides. */
  function ConvPadded(x: seq<Frame>, k: nat, W: Kernel, outCh: nat, width: nat): (y: seq<Frame>)
    requires 1 <= k
    ensures |y| == |x| + k - 1
    ensures Width(y, outCh)
  {
    Convolve(ZeroPad(x, k - 1, width), k, W, outCh)
  }

  /** `WX[:, :, :-pad]` exactly as written, with Python's slice rules. */
  function TrimAsWritten(y: seq<Frame>, pad: nat): seq<Frame>
  {
    Slice(y, 0, -(pad as int))
  }

  /** The intended causal trim: drop the last `pad` steps. */
  function CausalTrim(y: seq<Frame>, pad: nat): (r: seq<Frame>)
    requires pad <= |y|
    ensures |r| == |y| - pad
    ensures r == y[..|y| - pad]
  {
    y[..|y| - pad]
  }

  /** For every kernel width of at least 2 the slice as written is the causal trim. */
  lemma TrimAgreesFromWidthTwo(y: seq<Frame>, pad: nat)
    requires 1 <= pad <= |y|
    ensures TrimAsWritten(y, pad) == CausalTrim(y, pad)
  {
    SliceDropLast(y, pad);
  }

  /** Kernel width 1 (`pad = 0`): the slice `[:-0]` keeps nothing, so the layer
      sees no time steps at all, although the convolution produced `|x|` of them. */
  lemma TrimKernelOneIsEmpty(x: seq<Frame>, W: Kernel, outCh: nat, width: nat)
    ensures |ConvPadded(x, 1, W, outCh, width)| == |x|
    ensures TrimAsWritten(ConvPadded(x, 1, W, outCh, width), 0) == []
    ensures |CausalTrim(ConvPadded(x, 1, W, outCh, width), 0)| == |x|
  {
    SliceMinusZero(ConvPadded(x, 1, W, outCh, width));
  }

  /** The `k` input frames that output step `t` sees: zero frames where the
      window reaches before the start, then `x[t-k+1..t]`. */
  function CausalWindow(x: seq<Frame>, t: nat, k: nat, width: nat): (w: seq<Frame>)
    requires t < |x|
    ensures |w| == k
  {
    seq(k, j requires 0 <= j < k => if t + j < k - 1 then Zeros(width) else x[t + j - (k - 1)])
  }

  /** The gate pre-activations of `__call__`: padded convolution, causal trim. */
  function Preact(x: seq<Frame>, k: nat, W: Kernel, outCh: nat, width: nat): (r: seq<Frame>)
    requires 1 <= k
    ensures |r| == |x|
    ensures Width(r, outCh)
    ensures forall t :: 0 <= t < |x| ==> r[t] == ConvFrame(W, outCh, CausalWindow(x, t, k, width))
  {
    var y := ConvPadded(x, k, W, outCh, width);
    var r := CausalTrim(y, k - 1);
    forall t | 0 <= t < |x|
      ensures r[t] == ConvFrame(W, outCh, CausalWindow(x, t, k, width))
    {
      var p := ZeroPad(x, k - 1, width);
      assert p[t..t + k] == CausalWindow(x, t, k, width);
    }
    r
  }

  /** Causality: output step `t` depends only on input steps `t-k+1..t`;
      changing any other input step leaves it unchanged. */
  lemma PreactCausal(x1: seq<Frame>, x2: seq<Frame>, t: nat, k: nat, W: Kernel, outCh: nat, width: nat)
    requires 1 <= k && t < |x1| && t < |x2|
    requires forall s :: 0 <= s <= t && t < s + k ==> x1[s] == x2[s]
    ensures Preact(x1, k, W, outCh, width)[t] == Preact(x2, k, W, outCh, width)[t]
  {
    assert CausalWindow(x1, t, k, width) == CausalWindow(x2, t, k, width);
  }

  /** The number of steps the written trim `[:-pad]` leaves of an `n`-step
      input: all of them from kernel width 2 on, none at width 1. */
  function TrimmedSteps(n: nat, k: nat): nat
  {
    if k == 1 then 0 else n
  }

  /** `self.W(X)[:, :, :-pad]` as the layer computes it: nothing at all for
      kernel width 1, and the causal pre-activations from width 2 on. */
  function PreactAsWritten(x: seq<Frame>, k: nat, W: Kernel, outCh: nat, width: nat): (r: seq<Frame>)
    requires 1 <= k
    ensures |r| == TrimmedSteps(|x|, k)
    ensures Width(r, outCh)
    ensures k == 1 ==> r == []
    ensures 2 <= k ==> r == Preact(x, k, W, outCh, width)
  {
    var y := ConvPadded(x, k, W, outCh, width);
    if k == 1 then
      SliceMinusZero(y);
      TrimAsWritten(y, 0)
    else
      TrimAgreesFromWidthTwo(y, k - 1);
      TrimAsWritten(y, k - 1)
  }

  /** `WX[:, :, -pad-1:-pad]` exactly as written. */
  function LastStepAsWritten(y: seq<Frame>, pad: nat): seq<Frame>
  {
    Slice(y, -(pad as int) - 1, -(pad as int))
  }

  /** The intended step of `forward_one_step`: the one before the last `pad`. */
  function LastStep(y: seq<Frame>, pad: nat): (r: seq<Frame>)
    ensures |r| <= 1
    ensures pad < |y| ==> r == [y[|y| - pad - 1]]
    ensures |y| <= pad ==> r == []
  {
    if pad < |y| then [y[|y| - pad - 1]] else []
  }

  /** For kernel width at least 2 the one-step slice as written is `LastStep`. */
  lemma LastStepAgreesFromWidthTwo(y: seq<Frame>, pad: nat)
    requires 1 <= pad
    ensures LastStepAsWritten(y, pad) == LastStep(y, pad)
  {
  }

  /** Kernel width 1: `[-1:-0]` is `[-1:0]`, which is empty for every input. */
  lemma LastStepKernelOneIsEmpty(y: seq<Frame>)
    ensures LastStepAsWritten(y, 0) == []
  {
  }

  /** The pre-activation of `forward_one_step`. */
  function OneStepPreact(x: seq<Frame>, k: nat, W: Kernel, outCh: nat, width: nat): (r: seq<Frame>)
    requires 1 <= k
    ensures |r| == if |x| == 0 then 0 else 1
    ensures Width(r, outCh)
  {
    LastStep(ConvPadded(x, k, W, outCh, width), k - 1)
  }

  /** `self.W(X)[:, :, -pad-1:-pad]` as `forward_one_step` computes it:
      nothing for kernel width 1, and the intended step from width 2 on. */
  function OneStepAsWritten(x: seq<Frame>, k: nat, W: Kernel, outCh: nat, width: nat): (r: seq<Frame>)
    requires 1 <= k
    ensures |r| == TrimmedSteps(if |x| == 0 then 0 else 1, k)
    ensures Width(r, outCh)
    ensures k == 1 ==> r == []
    ensures 2 <= k ==> r == OneStepPreact(x, k, W, outCh, width)
  {
    var y := ConvPadded(x, k, W, outCh, width);
    if k == 1 then
      LastStepKernelOneIsEmpty(y);
      LastStepAsWritten(y, 0)
    else
      LastStepAgreesFromWidthTwo(y, k - 1);
      LastStepAsWritten(y, k - 1)
  }

  /** `forward_one_step` computes exactly the last column of the full causal
      convolution of the same inputs (and nothing for an empty input). */
  lemma OneStepIsLastColumn(x: seq<Frame>, k: nat, W: Kernel, outCh: nat, width: nat)
    requires 1 <= k
    ensures |x| == 0 ==> OneStepPreact(x, k, W, outCh, width) == []
    ensures 0 < |x| ==> OneStepPreact(x, k, W, outCh, width) == [Preact(x, k, W, outCh, width)[|x| - 1]]
  {
    var y := ConvPadded(x, k, W, outCh, width);
    if 0 < |x| {
      assert CausalTrim(y, k - 1)[|x| - 1] == y[|x| - 1];
    }
  }
}
