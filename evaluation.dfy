/** The evaluation side of the language-model example: the buckets cut into
    sections of at most 100 rows, the perplexity of one batch from the
    model's word probabilities, and the mean of the per-section scores. */
module Evaluation {
  import opened PyOps
  import opened Buckets
  import Tensor

  /** The section size both evaluators use. */
  const SectionSize := 100

  /** `np.split(d, [bs, 2 * bs, ..., num * bs])`: `num` sections of `bs`
      rows followed by whatever is left, which may be nothing. */
  function SplitEvery<T>(d: seq<T>, bs: nat, num: nat): (pieces: seq<seq<T>>)
    requires Offset(num, bs) <= |d|
    ensures |pieces| == num + 1
  {
    OffsetMonotone(num, bs);
    seq(num + 1, k requires 0 <= k <= num =>
      if k < num then d[Offset(k, bs) .. Offset(k + 1, bs)] else d[Offset(num, bs) ..])
  }

  lemma {:induction false} OffsetMonotone(n: nat, w: nat)
    ensures forall a :: 0 <= a <= n ==> Offset(a, w) <= Offset(n, w)
  {
    if n > 0 {
      OffsetMonotone(n - 1, w);
    }
  }

  /** `(n / bs) * bs` is the largest multiple of `bs` not above `n`, and it
      is `n` itself exactly when `bs` divides `n`. */
  lemma QuotientFits(n: nat, bs: nat)
    requires bs > 0
    ensures Offset(n / bs, bs) <= n < Offset(n / bs, bs) + bs
    ensures n % bs == 0 <==> Offset(n / bs, bs) == n
  {
    OffsetIsProduct(n / bs, bs);
  }

  lemma {:induction false} OffsetStrict(a: nat, b: nat, w: nat)
    ensures a < b ==> Offset(a, w) + w <= Offset(b, w)
    decreases b
  {
    if a + 1 < b {
      OffsetStrict(a, b - 1, w);
    }
  }

  /** At most one multiple of `w` lies in a stretch of `w` integers. */
  lemma OffsetUnique(a: nat, b: nat, w: nat, x: int)
    requires Offset(a, w) <= x < Offset(a, w) + w
    requires Offset(b, w) <= x < Offset(b, w) + w
    ensures a == b
  {
    OffsetStrict(a, b, w);
    OffsetStrict(b, a, w);
  }

  /** The sections of one bucket exactly as the evaluators compute them:
      `len(d) // bs` cut points when `d` has more than `bs` rows. */
  function SectionsAsWritten<T>(d: seq<T>, bs: nat): (sections: seq<seq<T>>)
    requires bs > 0
  {
    if |d| > bs then
      QuotientFits(|d|, bs);
      SplitEvery(d, bs, |d| / bs)
    else [d]
  }

  /** The sections with `(len(d) - 1) // bs` cut points: the same cut
      points except that none is placed at the very end of `d`. */
  function Sections<T>(d: seq<T>, bs: nat): (sections: seq<seq<T>>)
    requires bs > 0
  {
    if |d| > bs then
      QuotientFits(|d| - 1, bs);
      SplitEvery(d, bs, (|d| - 1) / bs)
    else [d]
  }

  /** The sections concatenated. */
  lemma {:induction false} SplitEveryPrefix<T>(d: seq<T>, bs: nat, num: nat, k: nat)
    requires Offset(num, bs) <= |d| && k <= num
    ensures Offset(k, bs) <= |d|
    ensures Flatten(SplitEvery(d, bs, num)[..k]) == d[..Offset(k, bs)]
  {
    OffsetMonotone(num, bs);
    var pieces := SplitEvery(d, bs, num);
    if k > 0 {
      SplitEveryPrefix(d, bs, num, k - 1);
      assert pieces[..k][..k - 1] == pieces[..k - 1];
      assert Flatten(pieces[..k]) == d[..Offset(k - 1, bs)] + d[Offset(k - 1, bs) .. Offset(k, bs)];
    }
  }

  /** Together the sections are `d` again, in order, and every one but the
      last has exactly `bs` rows. */
  lemma SplitEveryPartition<T>(d: seq<T>, bs: nat, num: nat)
    requires Offset(num, bs) <= |d|
    ensures Flatten(SplitEvery(d, bs, num)) == d
    ensures forall k :: 0 <= k < num ==> |SplitEvery(d, bs, num)[k]| == bs
    ensures |SplitEvery(d, bs, num)[num]| == |d| - Offset(num, bs)
  {
    SplitEveryConcat(d, bs, num);
    SplitEverySizes(d, bs, num);
  }

  lemma SplitEveryConcat<T>(d: seq<T>, bs: nat, num: nat)
    requires Offset(num, bs) <= |d|
    ensures Flatten(SplitEvery(d, bs, num)) == d
  {
    var pieces := SplitEvery(d, bs, num);
    var cut := Offset(num, bs);
    calc {
      Flatten(pieces);
      Flatten(pieces[..num]) + pieces[num];
      { SplitEveryPrefix(d, bs, num, num); }
      d[..cut] + d[cut..];
      { TakeDrop(d, cut); }
      d;
    }
  }

  lemma SplitEverySizes<T>(d: seq<T>, bs: nat, num: nat)
    requires Offset(num, bs) <= |d|
    ensures forall k :: 0 <= k < num ==> |SplitEvery(d, bs, num)[k]| == bs
    ensures |SplitEvery(d, bs, num)[num]| == |d| - Offset(num, bs)
  {
    var pieces := SplitEvery(d, bs, num);
    OffsetMonotone(num, bs);
    forall k | 0 <= k < num
      ensures |pieces[k]| == bs
    {
      assert pieces[k] == d[Offset(k, bs) .. Offset(k + 1, bs)];
      assert Offset(k + 1, bs) == Offset(k, bs) + bs;
    }
  }

  /** The evaluators lose and repeat no row: the sections of a bucket
      concatenate to the bucket, and all but the last have `bs` rows. */
  lemma SectionsAsWrittenPartition<T>(d: seq<T>, bs: nat)
    requires bs > 0
    ensures Flatten(SectionsAsWritten(d, bs)) == d
    ensures forall k :: 0 <= k < |SectionsAsWritten(d, bs)| - 1 ==> |SectionsAsWritten(d, bs)[k]| == bs
  {
    if |d| > bs {
      QuotientFits(|d|, bs);
      SplitEveryPartition(d, bs, |d| / bs);
    } else {
      assert [d][..0] == [];
    }
  }

  /** When the bucket's length is a multiple of `bs` (and above it), the last
      cut point is the end of the bucket and the last section is empty. */
  lemma SectionsAsWrittenEmptyLast<T>(d: seq<T>, bs: nat)
    requires bs > 0 && |d| > bs && |d| % bs == 0
    ensures SectionsAsWritten(d, bs)[|SectionsAsWritten(d, bs)| - 1] == []
  {
    QuotientFits(|d|, bs);
    SplitEveryPartition(d, bs, |d| / bs);
  }

  /** A bucket of 200 rows gives three sections of 100, 100 and 0 rows. */
  lemma TwoHundredRowsGiveEmptySection(d: seq<seq<int>>)
    requires |d| == 200
    ensures |SectionsAsWritten(d, SectionSize)| == 3
    ensures SectionsAsWritten(d, SectionSize)[2] == []
  {
    SectionsAsWrittenEmptyLast(d, SectionSize);
  }

  /** The corrected sections also partition the bucket, and none is empty
      or longer than `bs`. */
  lemma SectionsPartition<T>(d: seq<T>, bs: nat)
    requires bs > 0
    ensures Flatten(Sections(d, bs)) == d
    ensures forall k :: 0 <= k < |Sections(d, bs)| - 1 ==> |Sections(d, bs)[k]| == bs
    ensures |d| > 0 ==> forall k :: 0 <= k < |Sections(d, bs)| ==> |Sections(d, bs)[k]| > 0
    ensures |d| > bs ==> forall k :: 0 <= k < |Sections(d, bs)| ==> |Sections(d, bs)[k]| <= bs
  {
    if |d| > bs {
      var num := (|d| - 1) / bs;
      QuotientFits(|d| - 1, bs);
      SplitEveryPartition(d, bs, num);
      OffsetIsProduct(num, bs);
    } else {
      assert [d][..0] == [];
    }
  }

  lemma PredecessorQuotient(n: nat, bs: nat)
    requires bs > 0 && n > 0 && n % bs != 0
    ensures (n - 1) / bs == n / bs
  {
    QuotientFits(n, bs);
    QuotientFits(n - 1, bs);
    OffsetUnique((n - 1) / bs, n / bs, bs, n - 1);
  }

  /** The two agree whenever the bucket's length is not a multiple of `bs`. */
  lemma SectionsAgree<T>(d: seq<T>, bs: nat)
    requires bs > 0 && |d| % bs != 0
    ensures SectionsAsWritten(d, bs) == Sections(d, bs)
  {
    if |d| > bs {
      PredecessorQuotient(|d|, bs);
    }
  }

  /** Which cut points the evaluators use: `len // bs` as the program
      writes them, or the corrected `(len - 1) // bs`. */
  datatype Cutting = AsWritten | Corrected

  /** The sections of one bucket under the given cutting. */
  function Cut<T>(d: seq<T>, bs: nat, c: Cutting): (sections: seq<seq<T>>)
    requires bs > 0
    ensures |sections| >= 1
  {
    if c.AsWritten? then SectionsAsWritten(d, bs) else Sections(d, bs)
  }

  /** The sections of every bucket, bucket after bucket. */
  function AllSections<T>(buckets: seq<seq<T>>, bs: nat, c: Cutting): (sections: seq<seq<T>>)
    requires bs > 0
    ensures |buckets| > 0 ==> |sections| > 0
  {
    if |buckets| == 0 then []
    else AllSections(buckets[..|buckets| - 1], bs, c) + Cut(buckets[|buckets| - 1], bs, c)
  }

  lemma {:induction false} AllSectionsAppend<T>(a: seq<seq<T>>, b: seq<seq<T>>, bs: nat, c: Cutting)
    requires bs > 0
    ensures AllSections(a + b, bs, c) == AllSections(a, bs, c) + AllSections(b, bs, c)
    decreases |b|
  {
    if |b| > 0 {
      var n := |b| - 1;
      calc {
        AllSections(a + b, bs, c);
        { assert (a + b)[..|a + b| - 1] == a + b[..n] && (a + b)[|a + b| - 1] == b[n]; }
        AllSections(a + b[..n], bs, c) + Cut(b[n], bs, c);
        { AllSectionsAppend(a, b[..n], bs, c); }
        (AllSections(a, bs, c) + AllSections(b[..n], bs, c)) + Cut(b[n], bs, c);
        { AppendAssoc(AllSections(a, bs, c), AllSections(b[..n], bs, c), Cut(b[n], bs, c)); }
        AllSections(a, bs, c) + AllSections(b, bs, c);
      }
    } else {
      assert b == [];
      assert a + b == a;
    }
  }

  /** Buckets of which none has a multiple of `bs` as its length are cut
      the same way by both cuttings. */
  lemma {:induction false} AllSectionsAgree<T>(buckets: seq<seq<T>>, bs: nat)
    requires bs > 0 && forall b :: 0 <= b < |buckets| ==> |buckets[b]| % bs != 0
    ensures AllSections(buckets, bs, AsWritten) == AllSections(buckets, bs, Corrected)
  {
    if |buckets| > 0 {
      var n := |buckets| - 1;
      AllSectionsAgree(buckets[..n], bs);
      SectionsAgree(buckets[n], bs);
    }
  }

  /** The scores of `batches` in order, or the first exception a score raises. */
  function ScoreAll<B>(batches: seq<B>, score: B -> Result<real>): (r: Result<seq<real>>)
    ensures r.Success? ==> |r.value| == |batches|
    ensures r.Success? ==> forall k :: 0 <= k < |batches| ==> score(batches[k]) == Success(r.value[k])
  {
    if |batches| == 0 then Success([])
    else
      match ScoreAll(batches[..|batches| - 1], score)
      case Failure(e) => Failure(e)
      case Success(xs) =>
        match score(batches[|batches| - 1])
        case Failure(e) => Failure(e)
        case Success(x) => Success(xs + [x])
  }

  /** Every batch scores when none raises. */
  lemma {:induction false} ScoreAllSucceeds<B>(batches: seq<B>, score: B -> Result<real>)
    requires forall k :: 0 <= k < |batches| ==> score(batches[k]).Success?
    ensures ScoreAll(batches, score).Success?
  {
    if |batches| > 0 {
      ScoreAllSucceeds(batches[..|batches| - 1], score);
    }
  }

  /** Once a prefix has raised, nothing after it runs. */
  lemma {:induction false} ScoreAllStops<B>(p: seq<B>, q: seq<B>, score: B -> Result<real>)
    requires ScoreAll(p, score).Failure?
    ensures ScoreAll(p + q, score) == ScoreAll(p, score)
    decreases |q|
  {
    if |q| == 0 {
      assert p + q == p;
    } else {
      var m := |q| - 1;
      ScoreAllStops(p, q[..m], score);
      assert (p + q)[..|p + q| - 1] == p + q[..m];
    }
  }

  /** `total / n` for a positive count `n` (true division). */
  function Average(total: real, n: nat): real
    requires n > 0
  {
    total / n as real
  }

  /** `reduce(lambda x, y: x + y, xs) / len(xs)`; `reduce` raises a
      `TypeError` on an empty list. */
  function Mean(xs: seq<real>): (r: Result<real>)
    ensures r.Failure? <==> |xs| == 0
  {
    if |xs| == 0 then Failure(TypeError("reduce() of empty sequence with no initial value"))
    else Success(Average(Tensor.Sum(xs), |xs|))
  }

  lemma {:induction false} SumBounds(xs: seq<real>, lo: real, hi: real)
    requires forall k :: 0 <= k < |xs| ==> lo <= xs[k] <= hi
    ensures lo * |xs| as real <= Tensor.Sum(xs) <= hi * |xs| as real
  {
    if |xs| > 0 {
      SumBounds(xs[..|xs| - 1], lo, hi);
      assert lo * |xs| as real == lo * (|xs| - 1) as real + lo;
      assert hi * |xs| as real == hi * (|xs| - 1) as real + hi;
    }
  }

  /** The mean lies between any bounds of the scores. */
  lemma MeanBounds(xs: seq<real>, lo: real, hi: real)
    requires |xs| > 0
    requires forall k :: 0 <= k < |xs| ==> lo <= xs[k] <= hi
    ensures lo <= Mean(xs).value <= hi
  {
    SumBounds(xs, lo, hi);
    var n := |xs| as real;
    assert Mean(xs).value * n == Tensor.Sum(xs);
  }

  /** `compute_accuracy` and `compute_perplexity` under a cutting: score
      every section of every bucket and average; the first exception
      propagates. The program is the `AsWritten` cutting. */
  function EvaluateBuckets<B>(buckets: seq<seq<B>>, bs: nat, c: Cutting, score: seq<B> -> Result<real>): (r: Result<real>)
    requires bs > 0
  {
    match ScoreAll(AllSections(buckets, bs, c), score)
    case Failure(e) => Failure(e)
    case Success(xs) => Mean(xs)
  }

  /** With no buckets there is nothing to average and `reduce` raises. */
  lemma EvaluateNoBuckets<B>(bs: nat, c: Cutting, score: seq<B> -> Result<real>)
    requires bs > 0
    ensures EvaluateBuckets([], bs, c, score) == Failure(TypeError("reduce() of empty sequence with no initial value"))
  {
  }

  /** When every section scores between `lo` and `hi`, so does the result. */
  lemma EvaluateBounds<B>(buckets: seq<seq<B>>, bs: nat, c: Cutting, score: seq<B> -> Result<real>, lo: real, hi: real)
    requires bs > 0 && |buckets| > 0
    requires forall s: seq<B> :: score(s).Success? && lo <= score(s).value <= hi
    ensures EvaluateBuckets(buckets, bs, c, score).Success?
    ensures lo <= EvaluateBuckets(buckets, bs, c, score).value <= hi
  {
    var all := AllSections(buckets, bs, c);
    ScoreAllBounded(all, score, lo, hi);
    MeanBounds(ScoreAll(all, score).value, lo, hi);
  }

  lemma ScoreAllBounded<B>(batches: seq<B>, score: B -> Result<real>, lo: real, hi: real)
    requires forall s: B :: score(s).Success? && lo <= score(s).value <= hi
    ensures ScoreAll(batches, score).Success?
    ensures forall k :: 0 <= k < |batches| ==> lo <= ScoreAll(batches, score).value[k] <= hi
  {
    ScoreAllSucceeds(batches, score);
  }

  /** The two evaluators agree when no bucket's length is a multiple of `bs`;
      they can differ only through an empty last section. */
  lemma EvaluateAgrees<B>(buckets: seq<seq<B>>, bs: nat, score: seq<B> -> Result<real>)
    requires bs > 0 && forall b :: 0 <= b < |buckets| ==> |buckets[b]| % bs != 0
    ensures EvaluateBuckets(buckets, bs, AsWritten, score) == EvaluateBuckets(buckets, bs, Corrected, score)
  {
    AllSectionsAgree(buckets, bs);
  }

  lemma AllSectionsStep<T>(buckets: seq<seq<T>>, bs: nat, c: Cutting, b: nat)
    requires bs > 0 && b < |buckets|
    ensures AllSections(buckets[..b + 1], bs, c) == AllSections(buckets[..b], bs, c) + Cut(buckets[b], bs, c)
  {
    assert buckets[..b + 1][..b] == buckets[..b];
  }

  /** Scoring one more batch extends the scores, or raises what it raised. */
  lemma ScoreAllStep<B>(p: seq<B>, x: B, score: B -> Result<real>, acc: seq<real>)
    requires ScoreAll(p, score) == Success(acc)
    ensures score(x).Success? ==> ScoreAll(p + [x], score) == Success(acc + [score(x).value])
    ensures score(x).Failure? ==> ScoreAll(p + [x], score) == Failure(score(x).error)
  {
    assert (p + [x])[..|p|] == p;
  }

  /** An exception in section `j` of bucket `b` is the outcome of the whole
      evaluation. */
  lemma EvaluateStops<T>(buckets: seq<seq<T>>, bs: nat, c: Cutting, b: nat, j: nat, score: seq<T> -> Result<real>)
    requires bs > 0 && b < |buckets| && j < |Cut(buckets[b], bs, c)|
    requires ScoreAll(AllSections(buckets[..b], bs, c) + Cut(buckets[b], bs, c)[..j + 1], score).Failure?
    ensures ScoreAll(AllSections(buckets, bs, c), score)
         == ScoreAll(AllSections(buckets[..b], bs, c) + Cut(buckets[b], bs, c)[..j + 1], score)
  {
    var sections := Cut(buckets[b], bs, c);
    var done := AllSections(buckets[..b], bs, c);
    var later := AllSections(buckets[b + 1..], bs, c);
    var prefix := done + sections[..j + 1];
    var rest := sections[j + 1..] + later;
    calc {
      AllSections(buckets, bs, c);
      { TakeDrop(buckets, b + 1); }
      AllSections(buckets[..b + 1] + buckets[b + 1..], bs, c);
      { AllSectionsAppend(buckets[..b + 1], buckets[b + 1..], bs, c); }
      AllSections(buckets[..b + 1], bs, c) + later;
      { AllSectionsStep(buckets, bs, c, b); }
      done + sections + later;
      { TakeDrop(sections, j + 1); AppendAssoc(done, sections[..j + 1], sections[j + 1..]);
        AppendAssoc(done + sections[..j + 1], sections[j + 1..], later);
        AppendAssoc(done, sections, later); AppendAssoc(sections[..j + 1], sections[j + 1..], later); }
      prefix + rest;
    }
    ScoreAllStops(prefix, rest, score);
  }

  /** The inner loop of the evaluators, over the sections of one bucket:
      it extends the scores so far and stops at the first exception. */
  method ScoreSections<B>(ghost done: seq<seq<B>>, sections: seq<seq<B>>, score: seq<B> -> Result<real>, acc: seq<real>)
    returns (r: Result<seq<real>>)
    requires ScoreAll(done, score) == Success(acc)
    ensures r == ScoreAll(done + sections, score)
  {
    var xs := acc;
    var j := 0;
    assert done + sections[..0] == done;
    while j < |sections|
      invariant 0 <= j <= |sections|
      invariant ScoreAll(done + sections[..j], score) == Success(xs)
    {
      var s := score(sections[j]);
      ScoreAllStep(done + sections[..j], sections[j], score, xs);
      PrefixSnoc(sections, j);
      assert done + sections[..j + 1] == (done + sections[..j]) + [sections[j]];
      if s.Failure? {
        ScoreAllStops(done + sections[..j + 1], sections[j + 1..], score);
        TakeDrop(sections, j + 1);
        AppendAssoc(done, sections[..j + 1], sections[j + 1..]);
        return Failure(s.error);
      }
      xs := xs + [s.value];
      j := j + 1;
    }
    assert sections[..j] == sections;
    r := Success(xs);
  }

  /** An exception while scoring the buckets up to `b` is the outcome of
      the whole evaluation. */
  lemma EvaluateStopsInBucket<T>(buckets: seq<seq<T>>, bs: nat, c: Cutting, b: nat, score: seq<T> -> Result<real>)
    requires bs > 0 && b < |buckets|
    requires ScoreAll(AllSections(buckets[..b], bs, c) + Cut(buckets[b], bs, c), score).Failure?
    ensures EvaluateBuckets(buckets, bs, c, score)
         == Failure(ScoreAll(AllSections(buckets[..b], bs, c) + Cut(buckets[b], bs, c), score).error)
  {
    var done := AllSections(buckets[..b], bs, c);
    var sections := Cut(buckets[b], bs, c);
    assert |sections| > 0;
    var j := |sections| - 1;
    assert sections[..j + 1] == sections;
    EvaluateStops(buckets, bs, c, b, j, score);
    assert ScoreAll(AllSections(buckets, bs, c), score) == ScoreAll(done + sections, score);
  }

  /** The two nested loops of the evaluators, with the program's sections
      of `len(dataset) // batchsize` cut points. */
  method Evaluate<B>(buckets: seq<seq<B>>, bs: nat, score: seq<B> -> Result<real>) returns (r: Result<real>)
    requires bs > 0
    ensures r == EvaluateBuckets(buckets, bs, AsWritten, score)
  {
    var acc: seq<real> := [];
    var b := 0;
    while b < |buckets|
      invariant 0 <= b <= |buckets|
      invariant ScoreAll(AllSections(buckets[..b], bs, AsWritten), score) == Success(acc)
    {
      var sections := SectionsAsWritten(buckets[b], bs);
      assert sections == Cut(buckets[b], bs, AsWritten);
      var scored := ScoreSections(AllSections(buckets[..b], bs, AsWritten), sections, score, acc);
      if scored.Failure? {
        EvaluateStopsInBucket(buckets, bs, AsWritten, b, score);
        return Failure(scored.error);
      }
      AllSectionsStep(buckets, bs, AsWritten, b);
      acc := scored.value;
      b := b + 1;
    }
    assert buckets[..b] == buckets;
    r := Mean(acc);
  }

  /** Every section the corrected cutting hands to the score has at least
      one row, as long as every bucket does (`make_buckets` drops the empty
      ones). */
  lemma {:induction false} AllSectionsNonEmpty<T>(buckets: seq<seq<T>>, bs: nat)
    requires bs > 0
    requires forall b :: 0 <= b < |buckets| ==> |buckets[b]| > 0
    ensures forall k :: 0 <= k < |AllSections(buckets, bs, Corrected)| ==> |AllSections(buckets, bs, Corrected)[k]| > 0
  {
    if |buckets| > 0 {
      var n := |buckets| - 1;
      AllSectionsNonEmpty(buckets[..n], bs);
      SectionsPartition(buckets[n], bs);
    }
  }

  /** A score that raises on some section makes the whole evaluation raise. */
  lemma {:induction false} ScoreAllRaises<B>(batches: seq<B>, score: B -> Result<real>, k: nat)
    requires k < |batches| && score(batches[k]).Failure?
    ensures ScoreAll(batches, score).Failure?
  {
  }

  /** The number of target words `compute_perplexity_batch` scores in one
      row: the positions before the first padding id 0. */
  function NumTokens(target: seq<int>): (n: nat)
    ensures n <= |target|
    ensures forall t :: 0 <= t < n ==> target[t] != 0
    ensures n < |target| ==> target[n] == 0
  {
    if |target| == 0 || target[0] == 0 then 0
    else
      var n := 1 + NumTokens(target[1..]);
      assert forall t :: 1 <= t < n ==> target[t] == target[1..][t - 1];
      n
  }

  /** The sum of `log(Y[t, target[t]])` over the first `n` positions of row
      `i`; `logProb(i, t, w)` is the logarithm of the probability the model
      gives word `w` at position `t` of row `i`. */
  function LogLikelihood(target: seq<int>, n: nat, logProb: (nat, nat, int) -> real, i: nat): real
    requires n <= |target|
  {
    if n == 0 then 0.0 else LogLikelihood(target, n - 1, logProb, i) + logProb(i, n - 1, target[n - 1])
  }

  /** The mean log-likelihood of one row, or the `AssertionError` of
      `assert num_tokens > 0` when the row starts with padding. */
  function RowScore(target: seq<int>, logProb: (nat, nat, int) -> real, i: nat): (r: Result<real>)
    ensures r.Failure? <==> NumTokens(target) == 0
    ensures r.Failure? ==> r.error == AssertionError("num_tokens > 0")
  {
    var n := NumTokens(target);
    if n == 0 then Failure(AssertionError("num_tokens > 0"))
    else Success(Average(LogLikelihood(target, n, logProb, i), n))
  }

  /** The token loop of `compute_perplexity_batch` for row `i`. */
  method ScoreRow(target: seq<int>, logProb: (nat, nat, int) -> real, i: nat) returns (r: Result<real>)
    ensures r == RowScore(target, logProb, i)
  {
    var logLikelihood := 0.0;
    var numTokens := 0;
    var t := 0;
    while t < |target|
      invariant t <= |target| && numTokens == t
      invariant forall u :: 0 <= u < t ==> target[u] != 0
      invariant logLikelihood == LogLikelihood(target, t, logProb, i)
    {
      if target[t] == 0 {
        break;
      }
      logLikelihood := logLikelihood + logProb(i, t, target[t]);
      numTokens := numTokens + 1;
      t := t + 1;
    }
    assert numTokens == NumTokens(target);
    if numTokens == 0 {
      return Failure(AssertionError("num_tokens > 0"));
    }
    r := Success(Average(logLikelihood, numTokens));
  }

  /** A padded row `[bos] + words + [eos] + [0, ...]` scores every word and
      the end-of-sentence marker, and none of the padding. */
  lemma NumTokensOfPaddedRow(row: seq<int>, size: int)
    requires |row| >= 1
    requires forall k :: 1 <= k < |row| ==> row[k] != 0
    ensures NumTokens(Pad(row, size, 0)[1..]) == |row| - 1
  {
    var target := Pad(row, size, 0)[1..];
    var n := NumTokens(target);
    assert forall t :: 0 <= t < |row| - 1 ==> target[t] == row[t + 1];
    assert |row| - 1 <= |target|;
    assert |row| - 1 < |target| ==> target[|row| - 1] == 0;
  }

  /** The sum of the row scores of the first `k` rows, or the first row's
      exception. */
  function RowTotal(batch: seq<seq<int>>, k: nat, logProb: (nat, nat, int) -> real): (r: Result<real>)
    requires k <= |batch| && forall i :: 0 <= i < |batch| ==> |batch[i]| >= 1
    ensures r.Failure? ==> r.error == AssertionError("num_tokens > 0")
  {
    if k == 0 then Success(0.0)
    else
      match RowTotal(batch, k - 1, logProb)
      case Failure(e) => Failure(e)
      case Success(s) =>
        match RowScore(batch[k - 1][1..], logProb, k - 1)
        case Failure(e) => Failure(e)
        case Success(x) => Success(s + x)
  }

  /** The rows raise exactly when one of them has no word to score. */
  lemma {:induction false} RowTotalRaises(batch: seq<seq<int>>, k: nat, logProb: (nat, nat, int) -> real)
    requires k <= |batch| && forall i :: 0 <= i < |batch| ==> |batch[i]| >= 1
    ensures RowTotal(batch, k, logProb).Failure? <==> exists i :: 0 <= i < k && NumTokens(batch[i][1..]) == 0
  {
    if k > 0 {
      RowTotalRaises(batch, k - 1, logProb);
    }
  }

  lemma {:induction false} RowTotalStops(batch: seq<seq<int>>, k: nat, m: nat, logProb: (nat, nat, int) -> real)
    requires k <= m <= |batch| && forall i :: 0 <= i < |batch| ==> |batch[i]| >= 1
    requires RowTotal(batch, k, logProb).Failure?
    ensures RowTotal(batch, m, logProb) == RowTotal(batch, k, logProb)
    decreases m
  {
    if k < m {
      RowTotalStops(batch, k, m - 1, logProb);
    }
  }

  function Perplexity(total: real, rows: nat, exp: real -> real): real
    requires rows > 0
  {
    exp(-Average(total, rows))
  }

  /** `compute_perplexity_batch` for an `R x L` batch: `exp` of minus the
      mean over the rows of each row's mean log-likelihood. With no rows,
      `np.split(Y, 0)` divides by zero. */
  function BatchPerplexity(batch: seq<seq<int>>, L: nat, logProb: (nat, nat, int) -> real, exp: real -> real): (r: Result<real>)
    requires IsMatrix(batch, L) && L >= 1
    ensures r == Failure(ZeroDivisionError) <==> |batch| == 0
  {
    if |batch| == 0 then Failure(ZeroDivisionError)
    else
      match RowTotal(batch, |batch|, logProb)
      case Failure(e) => Failure(e)
      case Success(s) => Success(Perplexity(s, |batch|, exp))
  }

  /** The empty section of a bucket of 200 rows is given to
      `compute_perplexity_batch`, which raises on it. */
  lemma EmptySectionRaises(d: seq<seq<int>>, L: nat, logProb: (nat, nat, int) -> real, exp: real -> real)
    requires |d| == 200 && L >= 1
    ensures SectionsAsWritten(d, SectionSize)[2] == []
    ensures BatchPerplexity(SectionsAsWritten(d, SectionSize)[2], L, logProb, exp) == Failure(ZeroDivisionError)
  {
    TwoHundredRowsGiveEmptySection(d);
  }

  /** A batch of rows that each hold a word before their padding has a
      perplexity. */
  lemma BatchPerplexityDefined(batch: seq<seq<int>>, L: nat, logProb: (nat, nat, int) -> real, exp: real -> real)
    requires IsMatrix(batch, L) && L >= 1 && |batch| > 0
    requires forall i :: 0 <= i < |batch| ==> L >= 2 && batch[i][1] != 0
    ensures BatchPerplexity(batch, L, logProb, exp).Success?
  {
    RowTotalRaises(batch, |batch|, logProb);
    forall i | 0 <= i < |batch|
      ensures NumTokens(batch[i][1..]) > 0
    {
      assert batch[i][1..][0] == batch[i][1];
    }
  }

  /** A single bucket of 200 rows: the written cutting gives two full
      sections and an empty third one, the corrected cutting the two full
      sections only. */
  lemma TwoHundredSections<T>(d: seq<T>)
    requires |d| == 200
    ensures AllSections([d], SectionSize, AsWritten) == [d[..100], d[100..200], d[200..]]
    ensures AllSections([d], SectionSize, Corrected) == [d[..100], d[100..200]]
  {
    assert Offset(1, 100) == 100 && Offset(2, 100) == 200;
    assert [d][..0] == [] && [d][0] == d;
    assert SectionsAsWritten(d, SectionSize) == SplitEvery(d, 100, 2) == [d[..100], d[100..200], d[200..]];
    assert Sections(d, SectionSize) == SplitEvery(d, 100, 1) == [d[..100], d[100..]];
    assert d[100..] == d[100..200];
  }

  /** `compute_perplexity` on a single bucket of 200 rows that each hold a
      word: the two full sections score, and the empty third one makes the
      whole evaluation raise `ZeroDivisionError`; the corrected cutting
      scores both sections and returns their mean. */
  lemma EvaluateTwoHundredRaises(d: seq<seq<int>>, L: nat, logProb: (nat, nat, int) -> real, exp: real -> real,
                                 score: seq<seq<int>> -> Result<real>)
    requires |d| == 200 && L >= 2 && IsMatrix(d, L)
    requires forall i :: 0 <= i < |d| ==> d[i][1] != 0
    requires forall s :: IsMatrix(s, L) ==> score(s) == BatchPerplexity(s, L, logProb, exp)
    ensures EvaluateBuckets([d], SectionSize, AsWritten, score) == Failure(ZeroDivisionError)
    ensures EvaluateBuckets([d], SectionSize, Corrected, score).Success?
  {
    var s0, s1 := d[..100], d[100..200];
    TwoHundredSections(d);
    assert d[200..] == [];
    assert IsMatrix(s0, L) && IsMatrix(s1, L) && IsMatrix(d[200..], L);
    forall k | 0 <= k < 100
      ensures s0[k][1] != 0 && s1[k][1] != 0
    {
      assert s0[k] == d[k] && s1[k] == d[100 + k];
    }
    BatchPerplexityDefined(s0, L, logProb, exp);
    BatchPerplexityDefined(s1, L, logProb, exp);
    assert score(s0) == BatchPerplexity(s0, L, logProb, exp);
    assert score(s1) == BatchPerplexity(s1, L, logProb, exp);
    assert score(d[200..]) == Failure(ZeroDivisionError);
    assert score(s0).Success? && score(s1).Success?;
    ScoreAllStep([], s0, score, []);
    assert [] + [s0] == [s0] && [] + [score(s0).value] == [score(s0).value];
    ScoreAllStep([s0], s1, score, [score(s0).value]);
    assert [s0] + [s1] == [s0, s1] && [score(s0).value] + [score(s1).value] == [score(s0).value, score(s1).value];
    ScoreAllStep([s0, s1], d[200..], score, [score(s0).value, score(s1).value]);
    assert [s0, s1] + [d[200..]] == [s0, s1, d[200..]];
  }

  /** Row `i` of the split target, scored. */
  method ScoreTargetRow(batch: seq<seq<int>>, L: nat, logProb: (nat, nat, int) -> real, i: nat)
    returns (s: Result<real>)
    requires IsMatrix(batch, L) && L >= 1 && i < |batch|
    ensures s == RowScore(batch[i][1..], logProb, i)
  {
    var target := SourceTargetPair(batch).target;
    TargetRowAt(batch, L, i);
    s := ScoreRow(target[Offset(i, L - 1) .. Offset(i, L - 1) + L - 1], logProb, i);
  }

  /** The row loop of `compute_perplexity_batch`, reading row `i` of the
      target from the flattened `make_source_target_pair` output. */
  method PerplexityBatch(batch: seq<seq<int>>, L: nat, logProb: (nat, nat, int) -> real, exp: real -> real)
    returns (r: Result<real>)
    requires IsMatrix(batch, L) && L >= 1
    ensures r == BatchPerplexity(batch, L, logProb, exp)
  {
    if |batch| == 0 {
      return Failure(ZeroDivisionError);
    }
    var total := 0.0;
    var i := 0;
    while i < |batch|
      invariant i <= |batch|
      invariant RowTotal(batch, i, logProb) == Success(total)
    {
      var s := ScoreTargetRow(batch, L, logProb, i);
      if s.Failure? {
        RowTotalStops(batch, i + 1, |batch|, logProb);
        return s;
      }
      total := total + s.value;
      i := i + 1;
    }
    r := Success(Perplexity(total, |batch|, exp));
  }
}
