/** The training scripts' schedule: how many batches each bucket
    contributes per iteration ("to maintain equilibrium"), how many
    iterations an epoch runs, the `--buckets-limit` truncation, the skip
    mask of the translation model, and the learning-rate decay at the end
    of an epoch. */
module Equilibrium {
  import opened PyOps
  import opened Tensor
  import opened Buckets
  import opened Evaluation
  import opened QRNNLayer

  /** The row count of every bucket. */
  function Sizes<T>(buckets: seq<seq<T>>): (sizes: seq<nat>)
    ensures |sizes| == |buckets|
    ensures forall i :: 0 <= i < |buckets| ==> sizes[i] == |buckets[i]|
  {
    seq(|buckets|, i requires 0 <= i < |buckets| => |buckets[i]|)
  }

  // ---------------------------------------------------------------------
  // min_num_data

  /** One step of the `min_num_data` loop; a running value of 0 stands for
      "no bucket seen yet". */
  function MinStep(m: nat, n: nat): nat
  {
    if m == 0 || n < m then n else m
  }

  /** `min_num_data` after the loop over buckets of the given row counts. */
  function MinNumData(sizes: seq<nat>): nat
  {
    if |sizes| == 0 then 0 else MinStep(MinNumData(sizes[..|sizes| - 1]), sizes[|sizes| - 1])
  }

  /** With no empty bucket, `min_num_data` is the smallest row count. */
  lemma {:induction false} MinNumDataIsMinimum(sizes: seq<nat>)
    requires |sizes| > 0
    requires forall i :: 0 <= i < |sizes| ==> sizes[i] > 0
    ensures MinNumData(sizes) in sizes
    ensures forall i :: 0 <= i < |sizes| ==> MinNumData(sizes) <= sizes[i]
  {
    var init := sizes[..|sizes| - 1];
    if |init| > 0 {
      MinNumDataIsMinimum(init);
      assert forall i :: 0 <= i < |init| ==> sizes[i] == init[i];
    }
  }

  /** The running value is 0 exactly when no bucket was seen or the last
      bucket is empty: an empty bucket anywhere but last is forgotten. */
  lemma MinNumDataZero(sizes: seq<nat>)
    ensures MinNumData(sizes) == 0 <==> |sizes| == 0 || sizes[|sizes| - 1] == 0
  {
  }

  method ComputeMinNumData<T>(buckets: seq<seq<T>>) returns (m: nat)
    ensures m == MinNumData(Sizes(buckets))
  {
    ghost var sizes := Sizes(buckets);
    m := 0;
    for i := 0 to |buckets|
      invariant m == MinNumData(sizes[..i])
    {
      if m == 0 || |buckets[i]| < m {
        m := |buckets[i]|;
      }
      assert sizes[..i + 1][..i] == sizes[..i];
    }
    assert sizes[..|buckets|] == sizes;
  }

  // ---------------------------------------------------------------------
  // repeats

  /** The language model's `repeat`: `len(data) // min_num_data`, raised
      to 1 when it is 0. */
  function RnnRepeat(n: nat, m: nat): (r: nat)
    requires m > 0
    ensures r >= 1
  {
    var q := n / m;
    if q == 0 then q + 1 else q
  }

  /** The translation model's `repeat`: `len(data) // min_num_data + 1`. */
  function Seq2seqRepeat(n: nat, m: nat): (r: nat)
    requires m > 0
    ensures r >= 1
  {
    n / m + 1
  }

  /** The `repeats` loop of the language model: the first division
      raises when `min_num_data` is 0. */
  function RnnRepeats(sizes: seq<nat>, m: nat): (r: Result<seq<nat>>)
    ensures r.Failure? <==> |sizes| > 0 && m == 0
    ensures r.Failure? ==> r.error == ZeroDivisionError
    ensures r.Success? ==> |r.value| == |sizes| && forall i :: 0 <= i < |sizes| ==> r.value[i] >= 1
  {
    if |sizes| > 0 && m == 0 then Failure(ZeroDivisionError)
    else Success(seq(|sizes|, i requires 0 <= i < |sizes| => RnnRepeat(sizes[i], m)))
  }

  function Seq2seqRepeats(sizes: seq<nat>, m: nat): (r: Result<seq<nat>>)
    ensures r.Failure? <==> |sizes| > 0 && m == 0
    ensures r.Failure? ==> r.error == ZeroDivisionError
    ensures r.Success? ==> |r.value| == |sizes| && forall i :: 0 <= i < |sizes| ==> r.value[i] >= 1
  {
    if |sizes| > 0 && m == 0 then Failure(ZeroDivisionError)
    else Success(seq(|sizes|, i requires 0 <= i < |sizes| => Seq2seqRepeat(sizes[i], m)))
  }

  /** `n // m` is at least 1 once `n >= m`. */
  lemma QuotientAtLeastOne(n: nat, m: nat)
    requires 0 < m <= n
    ensures n / m >= 1
  {
    QuotientFits(n, m);
    assert Offset(0, m) == 0;
  }

  /** `n // n` is 1. */
  lemma QuotientSelf(n: nat)
    requires n > 0
    ensures n / n == 1
  {
    QuotientFits(n, n);
    assert Offset(1, n) == n;
    OffsetUnique(n / n, 1, n, n);
  }

  /** The balance the repeats keep for buckets without empty ones: every
      bucket is drawn `len // min_num_data` times per iteration (the bump
      to 1 never fires), so `repeat * min_num_data <= len < (repeat + 1) *
      min_num_data`, and the smallest bucket is drawn exactly once. */
  lemma RnnRepeatsBalanced(sizes: seq<nat>)
    requires |sizes| > 0
    requires forall i :: 0 <= i < |sizes| ==> sizes[i] > 0
    ensures RnnRepeats(sizes, MinNumData(sizes)).Success?
    ensures forall i :: 0 <= i < |sizes| ==>
      && RnnRepeats(sizes, MinNumData(sizes)).value[i] == sizes[i] / MinNumData(sizes)
      && Offset(RnnRepeats(sizes, MinNumData(sizes)).value[i], MinNumData(sizes)) <= sizes[i]
      && sizes[i] < Offset(RnnRepeats(sizes, MinNumData(sizes)).value[i], MinNumData(sizes)) + MinNumData(sizes)
    ensures exists i :: 0 <= i < |sizes| && RnnRepeats(sizes, MinNumData(sizes)).value[i] == 1
  {
    MinNumDataIsMinimum(sizes);
    var m := MinNumData(sizes);
    forall i | 0 <= i < |sizes|
      ensures RnnRepeat(sizes[i], m) == sizes[i] / m
      ensures Offset(sizes[i] / m, m) <= sizes[i] < Offset(sizes[i] / m, m) + m
    {
      QuotientAtLeastOne(sizes[i], m);
      QuotientFits(sizes[i], m);
    }
    var i0 :| 0 <= i0 < |sizes| && sizes[i0] == m;
    QuotientSelf(m);
    assert RnnRepeats(sizes, m).value[i0] == 1;
  }

  /** The translation model draws every bucket at least twice when no
      bucket is empty, and `(repeat - 1) * min_num_data <= len < repeat *
      min_num_data`. */
  lemma Seq2seqRepeatsBalanced(sizes: seq<nat>)
    requires |sizes| > 0
    requires forall i :: 0 <= i < |sizes| ==> sizes[i] > 0
    ensures Seq2seqRepeats(sizes, MinNumData(sizes)).Success?
    ensures forall i :: 0 <= i < |sizes| ==>
      && Seq2seqRepeats(sizes, MinNumData(sizes)).value[i] >= 2
      && Offset(Seq2seqRepeats(sizes, MinNumData(sizes)).value[i] - 1, MinNumData(sizes)) <= sizes[i]
      && sizes[i] < Offset(Seq2seqRepeats(sizes, MinNumData(sizes)).value[i], MinNumData(sizes))
  {
    MinNumDataIsMinimum(sizes);
    var m := MinNumData(sizes);
    var r := Seq2seqRepeats(sizes, m).value;
    forall i | 0 <= i < |sizes|
      ensures r[i] >= 2 && Offset(r[i] - 1, m) <= sizes[i] < Offset(r[i], m)
    {
      QuotientAtLeastOne(sizes[i], m);
      QuotientFits(sizes[i], m);
      assert r[i] == sizes[i] / m + 1;
      assert Offset(r[i], m) == Offset(r[i] - 1, m) + m;
    }
  }

  method ComputeRnnRepeats<T>(buckets: seq<seq<T>>, m: nat) returns (r: Result<seq<nat>>)
    ensures r == RnnRepeats(Sizes(buckets), m)
  {
    var repeats: seq<nat> := [];
    for i := 0 to |buckets|
      invariant |repeats| == i
      invariant m > 0 ==> forall j :: 0 <= j < i ==> repeats[j] == RnnRepeat(|buckets[j]|, m)
      invariant i > 0 ==> m > 0
    {
      if m == 0 {
        return Failure(ZeroDivisionError);
      }
      var repeat := |buckets[i]| / m;
      repeat := if repeat == 0 then repeat + 1 else repeat;
      repeats := repeats + [repeat];
    }
    assert |buckets| == 0 || m > 0;
    assert repeats == RnnRepeats(Sizes(buckets), m).value;
    r := Success(repeats);
  }

  method ComputeSeq2seqRepeats<T>(buckets: seq<seq<T>>, m: nat) returns (r: Result<seq<nat>>)
    ensures r == Seq2seqRepeats(Sizes(buckets), m)
  {
    var repeats: seq<nat> := [];
    for i := 0 to |buckets|
      invariant |repeats| == i
      invariant m > 0 ==> forall j :: 0 <= j < i ==> repeats[j] == Seq2seqRepeat(|buckets[j]|, m)
      invariant i > 0 ==> m > 0
    {
      if m == 0 {
        return Failure(ZeroDivisionError);
      }
      repeats := repeats + [|buckets[i]| / m + 1];
    }
    assert |buckets| == 0 || m > 0;
    assert repeats == Seq2seqRepeats(Sizes(buckets), m).value;
    r := Success(repeats);
  }

  // ---------------------------------------------------------------------
  // num_updates_per_iteration and num_iteration

  /** The sum of a list of counts. */
  function Total(xs: seq<nat>): nat
  {
    if |xs| == 0 then 0 else Total(xs[..|xs| - 1]) + xs[|xs| - 1]
  }

  /** `num_updates_per_iteration`: `repeat * batchsize` summed over the
      buckets (each product written as `Offset`). */
  function Updates(repeats: seq<nat>, batchsize: nat): nat
  {
    if |repeats| == 0 then 0 else Updates(repeats[..|repeats| - 1], batchsize) + Offset(repeats[|repeats| - 1], batchsize)
  }

  lemma {:induction false} OffsetAdd(a: nat, b: nat, w: nat)
    ensures Offset(a + b, w) == Offset(a, w) + Offset(b, w)
    decreases b
  {
    if b > 0 {
      OffsetAdd(a, b - 1, w);
    }
  }

  /** The updates of one iteration are `batchsize * sum(repeats)`. */
  lemma {:induction false} UpdatesIsProduct(repeats: seq<nat>, batchsize: nat)
    ensures Updates(repeats, batchsize) == Offset(Total(repeats), batchsize)
    ensures Updates(repeats, batchsize) == Total(repeats) * batchsize
  {
    if |repeats| > 0 {
      var init := repeats[..|repeats| - 1];
      UpdatesIsProduct(init, batchsize);
      OffsetAdd(Total(init), repeats[|repeats| - 1], batchsize);
    }
    OffsetIsProduct(Total(repeats), batchsize);
  }

  /** With every repeat at least 1 the sum is at least the bucket count. */
  lemma {:induction false} TotalAtLeastLength(xs: seq<nat>)
    requires forall i :: 0 <= i < |xs| ==> xs[i] >= 1
    ensures Total(xs) >= |xs|
  {
    if |xs| > 0 {
      var init := xs[..|xs| - 1];
      assert forall i :: 0 <= i < |init| ==> init[i] == xs[i];
      TotalAtLeastLength(init);
    }
  }

  method ComputeUpdates(repeats: seq<nat>, batchsize: nat) returns (u: nat)
    ensures u == Updates(repeats, batchsize)
  {
    u := 0;
    for i := 0 to |repeats|
      invariant u == Updates(repeats[..i], batchsize)
    {
      OffsetIsProduct(repeats[i], batchsize);
      u := u + repeats[i] * batchsize;
      assert repeats[..i + 1][..i] == repeats[..i];
    }
    assert repeats[..|repeats|] == repeats;
  }

  /** `num_iteration = len(train) // num_updates_per_iteration + 1`. */
  function NumIteration(numData: nat, updates: nat): (r: Result<nat>)
    ensures r.Failure? <==> updates == 0
    ensures r.Failure? ==> r.error == ZeroDivisionError
    ensures r.Success? ==> r.value >= 1
  {
    if updates == 0 then Failure(ZeroDivisionError) else Success(numData / updates + 1)
  }

  /** An epoch of `num_iteration` iterations draws more examples than the
      training set holds, and one iteration fewer would not reach it:
      `(num_iteration - 1) * U <= len(train) < num_iteration * U`. */
  lemma NumIterationCovers(numData: nat, updates: nat)
    requires updates > 0
    ensures Offset(NumIteration(numData, updates).value - 1, updates) <= numData
    ensures numData < Offset(NumIteration(numData, updates).value, updates)
  {
    QuotientFits(numData, updates);
  }

  /** For buckets without an empty one and a positive batch size nothing
      in the schedule raises, and an iteration draws at least one batch per
      bucket; a batch size of 0 makes `num_iteration` divide by 0. */
  lemma RnnScheduleDefined(sizes: seq<nat>, batchsize: nat, numData: nat)
    requires |sizes| > 0
    requires forall i :: 0 <= i < |sizes| ==> sizes[i] > 0
    ensures RnnRepeats(sizes, MinNumData(sizes)).Success?
    ensures Updates(RnnRepeats(sizes, MinNumData(sizes)).value, batchsize) >= Offset(|sizes|, batchsize)
    ensures NumIteration(numData, Updates(RnnRepeats(sizes, MinNumData(sizes)).value, batchsize)).Success? <==> batchsize > 0
  {
    MinNumDataIsMinimum(sizes);
    var repeats := RnnRepeats(sizes, MinNumData(sizes)).value;
    UpdatesIsProduct(repeats, batchsize);
    TotalAtLeastLength(repeats);
    OffsetMonotone(Total(repeats), batchsize);
  }

  // ---------------------------------------------------------------------
  // --buckets-limit

  /** `buckets[:buckets_limit + 1]` when a limit is given. */
  function LimitBuckets<T>(buckets: seq<T>, limit: Option<int>): (r: seq<T>)
  {
    if limit.None? then buckets else Slice(buckets, 0, limit.value + 1)
  }

  /** The limit keeps a prefix: the first `limit + 1` buckets for a limit of
      0 or more; a limit of -1 keeps none, and a lower one counts from the end
      as Python does. */
  lemma LimitKeepsPrefix<T>(buckets: seq<T>, limit: Option<int>)
    ensures LimitBuckets(buckets, limit) == buckets[..|LimitBuckets(buckets, limit)|]
    ensures limit.None? ==> LimitBuckets(buckets, limit) == buckets
    ensures limit.Some? && limit.value >= 0 ==> |LimitBuckets(buckets, limit)| == Min(limit.value + 1, |buckets|)
    ensures limit == Some(-1) ==> LimitBuckets(buckets, limit) == []
    ensures limit.Some? && limit.value < -1 ==> |LimitBuckets(buckets, limit)| == Max(0, |buckets| + limit.value + 1)
  {
  }

  /** Truncating the source and the target buckets with the same limit
      keeps them paired. */
  lemma LimitKeepsPairs<S, T>(source: seq<S>, target: seq<T>, limit: Option<int>)
    requires |source| == |target|
    ensures |LimitBuckets(source, limit)| == |LimitBuckets(target, limit)|
  {
    LimitKeepsPrefix(source, limit);
    LimitKeepsPrefix(target, limit);
  }

  // ---------------------------------------------------------------------
  // skip_mask

  /** `skip_mask = source_batch != ID_PAD`. */
  function SkipMask(source: seq<seq<int>>, pad: int): (mask: seq<seq<bool>>)
    ensures |mask| == |source|
    ensures forall i :: 0 <= i < |source| ==> |mask[i]| == |source[i]|
    ensures forall i, j :: 0 <= i < |source| && 0 <= j < |source[i]| ==> (mask[i][j] <==> source[i][j] != pad)
  {
    seq(|source|, i requires 0 <= i < |source| =>
      seq(|source[i]|, j requires 0 <= j < |source[i]| => source[i][j] != pad))
  }

  /** Handed to a QRNN layer, the mask of a source row zeroes the input at
      exactly the padded steps of that row. */
  lemma SkipMaskZeroesPadding(source: seq<seq<int>>, pad: int, i: nat, X: seq<Frame>)
    requires i < |source| && |X| == |source[i]|
    ensures forall t :: 0 <= t < |X| ==>
      MaskInput(X, Some(SkipMask(source, pad)[i]))[t] == if source[i][t] == pad then Zeros(|X[t]|) else X[t]
  {
  }

  // ---------------------------------------------------------------------
  // learning-rate decay

  /** `min_learning_rate`. */
  const MinLearningRate: real := 0.0000001

  /** The optimizer's `alpha` and the previous epoch's dev metric
      (`prev_ppl` or `prev_wer`). */
  datatype Schedule = Schedule(alpha: real, prev: Option<real>)

  /** The end of one epoch with dev metric `metric` (lower is better):
      halve `alpha` when the metric did not improve and `alpha` is still
      above the floor; remember the metric either way. */
  function EndOfEpoch(s: Schedule, metric: real): (t: Schedule)
    ensures t.prev == Some(metric)
  {
    var halve := s.prev.Some? && metric >= s.prev.value && s.alpha > MinLearningRate;
    Schedule(if halve then s.alpha * 0.5 else s.alpha, Some(metric))
  }

  /** The schedule after epochs with the given dev metrics. */
  function AfterEpochs(s: Schedule, metrics: seq<real>): Schedule
  {
    if |metrics| == 0 then s else EndOfEpoch(AfterEpochs(s, metrics[..|metrics| - 1]), metrics[|metrics| - 1])
  }

  /** One epoch halves a positive `alpha` exactly when the metric did not
      improve and `alpha` was above the floor, and otherwise keeps it. */
  lemma EndOfEpochDecays(s: Schedule, metric: real)
    requires s.alpha > 0.0
    ensures 0.0 < EndOfEpoch(s, metric).alpha <= s.alpha
    ensures EndOfEpoch(s, metric).alpha < s.alpha <==>
      s.prev.Some? && metric >= s.prev.value && s.alpha > MinLearningRate
    ensures EndOfEpoch(s, metric).alpha < s.alpha ==> EndOfEpoch(s, metric).alpha == s.alpha * 0.5
  {
  }

  /** Over any run of epochs `alpha` never grows, stays positive and never
      sinks below half the floor (or its start, if that is lower). */
  lemma {:induction false} AfterEpochsBounded(s: Schedule, metrics: seq<real>)
    requires s.alpha > 0.0
    ensures 0.0 < AfterEpochs(s, metrics).alpha <= s.alpha
    ensures AfterEpochs(s, metrics).alpha >= s.alpha || AfterEpochs(s, metrics).alpha > MinLearningRate * 0.5
  {
    if |metrics| > 0 {
      AfterEpochsBounded(s, metrics[..|metrics| - 1]);
    }
  }

  /** After at least one epoch `prev` is the last epoch's metric. */
  lemma AfterEpochsPrev(s: Schedule, metrics: seq<real>)
    ensures |metrics| > 0 ==> AfterEpochs(s, metrics).prev == Some(metrics[|metrics| - 1])
    ensures |metrics| == 0 ==> AfterEpochs(s, metrics) == s
  {
  }

  /** While the dev metric keeps improving, `alpha` is never touched. */
  lemma {:induction false} AfterEpochsImproving(s: Schedule, metrics: seq<real>)
    requires forall i :: 0 < i < |metrics| ==> metrics[i] < metrics[i - 1]
    requires |metrics| > 0 && s.prev.Some? ==> metrics[0] < s.prev.value
    ensures AfterEpochs(s, metrics).alpha == s.alpha
  {
    if |metrics| > 0 {
      var init := metrics[..|metrics| - 1];
      assert forall i :: 0 <= i < |init| ==> init[i] == metrics[i];
      AfterEpochsImproving(s, init);
      AfterEpochsPrev(s, init);
    }
  }

  /** The optimizer's learning rate together with the remembered metric. */
  class LearningRate {
    var alpha: real
    var prev: Option<real>

    function Current(): Schedule
      reads this
    {
      Schedule(alpha, prev)
    }

    constructor (alpha: real)
      ensures Current() == Schedule(alpha, None)
    {
      this.alpha := alpha;
      prev := None;
    }

    /** The decay step after an epoch's dev evaluation. */
    method Decay(metric: real)
      modifies this
      ensures Current() == EndOfEpoch(old(Current()), metric)
    {
      if prev.Some? && metric >= prev.value && alpha > MinLearningRate {
        alpha := alpha * 0.5;
      }
      prev := Some(metric);
    }

    /** The epoch loop's effect on the learning rate, given every epoch's
        dev metric. */
    method Epochs(metrics: seq<real>)
      modifies this
      ensures Current() == AfterEpochs(old(Current()), metrics)
    {
      for e := 0 to |metrics|
        invariant Current() == AfterEpochs(old(Current()), metrics[..e])
      {
        Decay(metrics[e]);
        assert metrics[..e + 1][..e] == metrics[..e];
      }
      assert metrics[..|metrics|] == metrics;
    }
  }
}
