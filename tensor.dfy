/** Elementwise arithmetic on the values the layer passes around. One example of
    the batch is modelled: a `Frame` holds the channels of one time step, and a
    sequence over time is a `seq<Frame>` (time-major; the source keeps the time
    axis last, `[batch, channels, time]`). */
module Tensor {

  type Frame = seq<real>

  /** Every frame of `xs` has `n` channels. */
  predicate Width(xs: seq<Frame>, n: nat)
  {
    forall t :: 0 <= t < |xs| ==> |xs[t]| == n
  }

  function Zeros(n: nat): (r: Frame)
    ensures |r| == n
    ensures forall c :: 0 <= c < n ==> r[c] == 0.0
  {
    seq(n, c => 0.0)
  }

  function Ones(n: nat): (r: Frame)
    ensures |r| == n
    ensures forall c :: 0 <= c < n ==> r[c] == 1.0
  {
    seq(n, c => 1.0)
  }

  /** Channel `c` of `b`, or 0 beyond its end. The binary operations below are
      total so that shape agreement can be stated once, where it matters; on
      frames of equal width they are the ordinary elementwise operations. */
  function Get(b: Frame, c: int): real
  {
    if 0 <= c < |b| then b[c] else 0.0
  }

  function Add(a: Frame, b: Frame): (r: Frame)
    ensures |r| == |a|
    ensures forall c :: 0 <= c < |r| ==> r[c] == a[c] + Get(b, c)
  {
    seq(|a|, c requires 0 <= c < |a| => a[c] + Get(b, c))
  }

  function Mul(a: Frame, b: Frame): (r: Frame)
    ensures |r| == |a|
    ensures forall c :: 0 <= c < |r| ==> r[c] == a[c] * Get(b, c)
  {
    seq(|a|, c requires 0 <= c < |a| => a[c] * Get(b, c))
  }

  /** `a * x` for a scalar `x` broadcast over the channels. */
  function Scale(a: Frame, x: real): (r: Frame)
    ensures |r| == |a|
    ensures forall c :: 0 <= c < |r| ==> r[c] == a[c] * x
  {
    seq(|a|, c requires 0 <= c < |a| => a[c] * x)
  }

  /** `1 - a`. */
  function OneMinus(a: Frame): (r: Frame)
    ensures |r| == |a|
    ensures forall c :: 0 <= c < |r| ==> r[c] == 1.0 - a[c]
  {
    seq(|a|, c requires 0 <= c < |a| => 1.0 - a[c])
  }

  /** An elementwise activation such as `tanh` or `sigmoid`. */
  function Map(g: real -> real, a: Frame): (r: Frame)
    ensures |r| == |a|
    ensures forall c :: 0 <= c < |r| ==> r[c] == g(a[c])
  {
    seq(|a|, c requires 0 <= c < |a| => g(a[c]))
  }

  /** The activation applied to every frame of a sequence. */
  function MapSeq(g: real -> real, xs: seq<Frame>): (r: seq<Frame>)
    ensures |r| == |xs|
    ensures forall t :: 0 <= t < |r| ==> r[t] == Map(g, xs[t])
  {
    seq(|xs|, t requires 0 <= t < |xs| => Map(g, xs[t]))
  }

  /** Elementwise sum of two sequences of the same shape. */
  function AddSeq(xs: seq<Frame>, ys: seq<Frame>): (r: seq<Frame>)
    requires |xs| == |ys|
    ensures |r| == |xs|
    ensures forall t :: 0 <= t < |r| ==> r[t] == Add(xs[t], ys[t])
  {
    seq(|xs|, t requires 0 <= t < |xs| => Add(xs[t], ys[t]))
  }

  /** The elementwise nonlinearities the layer uses, left uninterpreted. */
  datatype Activations = Activations(tanh: real -> real, sigmoid: real -> real, exp: real -> real)

  /** `exp` only ever yields positive values. */
  ghost predicate ExpPositive(exp: real -> real)
  {
    forall x :: exp(x) > 0.0
  }

  /** A `Linear` link: output channel `c` as a function of the input vector. */
  type Linear = (nat, Frame) -> real

  /** `V(x)` with `outDim` output channels, for a link given channel by
      channel; the input may be a frame or, for a convolution, a window. */
  function LinearApply<X>(V: (nat, X) -> real, outDim: nat, x: X): (y: Frame)
    ensures |y| == outDim
    ensures forall c :: 0 <= c < outDim ==> y[c] == V(c, x)
  {
    seq(outDim, c requires 0 <= c < outDim => V(c, x))
  }

  /** The sum of the entries of a vector. */
  function Sum(a: seq<real>): real
  {
    if |a| == 0 then 0.0 else Sum(a[..|a| - 1]) + a[|a| - 1]
  }

  /** Scaling every entry scales the sum. */
  lemma {:induction false} SumScale(a: seq<real>, k: real)
    ensures Sum(Scale(a, k)) == Sum(a) * k
  {
    if |a| > 0 {
      var n := |a| - 1;
      var b := Scale(a, k);
      assert forall i :: 0 <= i < n ==> b[..n][i] == Scale(a[..n], k)[i];
      assert b[..n] == Scale(a[..n], k);
      SumScale(a[..n], k);
      calc {
        Sum(b);
        Sum(b[..n]) + b[n];
        Sum(a[..n]) * k + a[n] * k;
        (Sum(a[..n]) + a[n]) * k;
      }
    }
  }

  /** A sum of positive entries is positive. */
  lemma {:induction false} SumPositive(a: seq<real>)
    requires 0 < |a| && forall i :: 0 <= i < |a| ==> a[i] > 0.0
    ensures Sum(a) > 0.0
  {
    var n := |a| - 1;
    if n > 0 {
      SumPositive(a[..n]);
    }
  }

  /** Scaling by 1 changes nothing. */
  lemma ScaleOne(a: Frame)
    ensures Scale(a, 1.0) == a
  {
  }

  /** The dot product of two vectors of equal length. */
  function Dot(a: Frame, b: Frame): real
  {
    Sum(Mul(a, b))
  }
}
