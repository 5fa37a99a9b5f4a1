/** The zoneout operator of qrnn.py: a Bernoulli keep-mask drawn once per
    operator instance, applied to the input and reused for the gradient.
    The uniform draws `numpy.random.rand` would produce are an input. */
module Zoneout {
  import opened PyOps
  import opened Tensor

  /** The keep-flags of one frame: channel `c` is kept when its uniform draw is
      at least the zoneout ratio. */
  function MaskFrame(u: Frame, ratio: real): (m: seq<bool>)
    ensures |m| == |u|
    ensures forall c :: 0 <= c < |u| ==> (m[c] <==> ratio <= u[c])
  {
    seq(|u|, c requires 0 <= c < |u| => ratio <= u[c])
  }

  /** The mask over a whole `[time][channel]` grid of draws. */
  function DrawMask(u: seq<Frame>, ratio: real): (m: seq<seq<bool>>)
    ensures |m| == |u|
    ensures forall t :: 0 <= t < |u| ==> m[t] == MaskFrame(u[t], ratio)
  {
    seq(|u|, t requires 0 <= t < |u| => MaskFrame(u[t], ratio))
  }

  /** `x` and the mask `m` have the same `[time][channel]` shape. */
  predicate SameShape(x: seq<Frame>, m: seq<seq<bool>>)
  {
    |x| == |m| && forall t :: 0 <= t < |x| ==> |x[t]| == |m[t]|
  }

  /** `x * mask` on one frame. */
  function ApplyFrame(x: Frame, m: seq<bool>): (y: Frame)
    requires |x| == |m|
    ensures |y| == |x|
    ensures forall c :: 0 <= c < |y| ==> y[c] == if m[c] then x[c] else 0.0
  {
    seq(|x|, c requires 0 <= c < |x| => if m[c] then x[c] else 0.0)
  }

  /** `x * mask` on a grid: kept positions pass through, the others are 0. */
  function ApplyMask(x: seq<Frame>, m: seq<seq<bool>>): (y: seq<Frame>)
    requires SameShape(x, m)
    ensures |y| == |x|
    ensures forall t :: 0 <= t < |y| ==> y[t] == ApplyFrame(x[t], m[t])
  {
    seq(|x|, t requires 0 <= t < |x| => ApplyFrame(x[t], m[t]))
  }

  /** Every draw lies in `[0, 1)`, as `numpy.random.rand` guarantees. */
  predicate UnitDraws(u: seq<Frame>)
  {
    forall t, c :: 0 <= t < |u| && 0 <= c < |u[t]| ==> 0.0 <= u[t][c] < 1.0
  }

  /** With ratio 1 every position is zoned out: the output is all zeros. */
  lemma RatioOneDropsAll(x: seq<Frame>, u: seq<Frame>)
    requires UnitDraws(u)
    requires SameShape(x, DrawMask(u, 1.0))
    ensures forall t, c :: 0 <= t < |x| && 0 <= c < |x[t]| ==> ApplyMask(x, DrawMask(u, 1.0))[t][c] == 0.0
  {
    forall t, c | 0 <= t < |x| && 0 <= c < |x[t]|
      ensures ApplyMask(x, DrawMask(u, 1.0))[t][c] == 0.0
    {
      assert !DrawMask(u, 1.0)[t][c];
    }
  }

  /** With ratio 0 nothing is zoned out: the operator is the identity. */
  lemma RatioZeroKeepsAll(x: seq<Frame>, u: seq<Frame>)
    requires UnitDraws(u)
    requires SameShape(x, DrawMask(u, 0.0))
    ensures ApplyMask(x, DrawMask(u, 0.0)) == x
  {
    var y := ApplyMask(x, DrawMask(u, 0.0));
    forall t | 0 <= t < |x|
      ensures y[t] == x[t]
    {
      assert forall c :: 0 <= c < |x[t]| ==> DrawMask(u, 0.0)[t][c];
    }
  }

  /** One `Zoneout` function object (qrnn.py:9-28). Its mask is drawn on the
      first forward call only and then kept, so that `Backward` multiplies the
      output gradient by exactly the mask that `Forward` used. */
  class ZoneoutFunction {
    const ratio: real
    var mask: Option<seq<seq<bool>>>

    constructor (ratio: real)
      ensures this.ratio == ratio && mask == None
    {
      this.ratio := ratio;
      mask := None;
    }

    /** `u` is the uniform draw, used only when no mask exists yet. */
    method Forward(x: seq<Frame>, u: seq<Frame>) returns (y: seq<Frame>)
      requires mask.None? ==> |u| == |x| && forall t :: 0 <= t < |x| ==> |u[t]| == |x[t]|
      requires mask.Some? ==> SameShape(x, mask.value)
      modifies this
      ensures mask == if old(mask).None? then Some(DrawMask(u, ratio)) else old(mask)
      ensures SameShape(x, mask.value) && y == ApplyMask(x, mask.value)
    {
      if mask.None? {
        mask := Some(DrawMask(u, ratio));
      }
      y := ApplyMask(x, mask.value);
    }

    /** The gradient `gy * mask` with the mask the forward pass drew. */
    method Backward(gy: seq<Frame>) returns (gx: seq<Frame>)
      requires mask.Some? && SameShape(gy, mask.value)
      ensures gx == ApplyMask(gy, mask.value)
    {
      gx := ApplyMask(gy, mask.value);
    }
  }

  /** `zoneout(x, ratio)` (qrnn.py:30-31): a fresh operator, hence a fresh mask
      drawn from `u`, applied once. */
  method ApplyZoneout(x: seq<Frame>, u: seq<Frame>, ratio: real) returns (y: seq<Frame>)
    requires |u| == |x| && forall t :: 0 <= t < |x| ==> |u[t]| == |x[t]|
    ensures |y| == |x| && forall t :: 0 <= t < |x| ==> |y[t]| == |x[t]|
    ensures forall t, c :: 0 <= t < |x| && 0 <= c < |x[t]| ==>
      y[t][c] == if ratio <= u[t][c] then x[t][c] else 0.0
  {
    var op := new ZoneoutFunction(ratio);
    y := op.Forward(x, u);
  }
}
