/** Bucketing by length: `make_buckets` of rnn/dataset.py:55-78 and
    `make_batch_buckets` of example/train_rnn.py:79-102, the sample size of
    `sample_batch_from_bucket` and the shifted pair of
    `make_source_target_pair`. A row is a list of word ids; the module-level
    list of bucket sizes is an object whose field the bucketing appends to. */
module Buckets {
  import opened PyOps

  /** The module-level `_bucket_sizes` of example/train_rnn.py:15. */
  const ExampleBucketSizes: seq<int> := [10, 20, 40, 60, 100, 120]

  /** The length of the longest row; 0 when there is none. */
  function MaxLength(rows: seq<seq<int>>): (m: nat)
    ensures forall i :: 0 <= i < |rows| ==> |rows[i]| <= m
    ensures |rows| == 0 ==> m == 0
    ensures |rows| > 0 ==> exists i :: 0 <= i < |rows| && |rows[i]| == m
  {
    if |rows| == 0 then 0
    else
      var front := rows[..|rows| - 1];
      var m := MaxLength(front);
      assert forall i :: 0 <= i < |front| ==> front[i] == rows[i];
      if |rows[|rows| - 1]| > m then |rows[|rows| - 1]| else m
  }

  /** The index the `for size in bucket_sizes` loop stops at: the first size
      at least `length`, or `len(sizes)` when none is. */
  function FirstFit(sizes: seq<int>, length: nat): (b: nat)
    ensures b <= |sizes|
    ensures forall j :: 0 <= j < b ==> sizes[j] < length
    ensures b < |sizes| ==> length <= sizes[b]
  {
    if |sizes| == 0 then 0
    else if length <= sizes[0] then 0
    else 1 + FirstFit(sizes[1..], length)
  }

  /** Every row has a bucket. */
  predicate AllFit(rows: seq<seq<int>>, sizes: seq<int>)
  {
    forall i :: 0 <= i < |rows| ==> FirstFit(sizes, |rows[i]|) < |sizes|
  }

  /** With the longest length appended to the sizes, every row fits. */
  lemma AppendMaxFits(rows: seq<seq<int>>, sizes: seq<int>)
    ensures AllFit(rows, sizes + [MaxLength(rows)])
  {
    var s := sizes + [MaxLength(rows)];
    forall i | 0 <= i < |rows|
      ensures FirstFit(s, |rows[i]|) < |s|
    {
      assert |rows[i]| <= s[|sizes|];
    }
  }

  /** `word_ids` after `size - length` appends of the pad id (none when the
      row is already as long). */
  function Pad(row: seq<int>, size: int, pad: int): (r: seq<int>)
    ensures |r| == Max(size, |row|) && r[..|row|] == row
    ensures forall k :: |row| <= k < |r| ==> r[k] == pad
  {
    row + seq(Max(size - |row|, 0), _ => pad)
  }

  /** A row padded to the size of its bucket. */
  function Place(row: seq<int>, sizes: seq<int>, pad: int): (r: seq<int>)
    requires FirstFit(sizes, |row|) < |sizes|
    ensures |r| == sizes[FirstFit(sizes, |row|)]
  {
    Pad(row, sizes[FirstFit(sizes, |row|)], pad)
  }

  /** `buckets_list` after the rows have been placed: one list per size, each
      holding its padded rows in dataset order. */
  function BucketsList(rows: seq<seq<int>>, sizes: seq<int>, pad: int): (bl: seq<seq<seq<int>>>)
    requires AllFit(rows, sizes)
    ensures |bl| == |sizes|
  {
    if |rows| == 0 then seq(|sizes|, _ => [])
    else
      var n := |rows| - 1;
      var front := rows[..n];
      assert forall i :: 0 <= i < n ==> front[i] == rows[i];
      var bl := BucketsList(front, sizes, pad);
      var b := FirstFit(sizes, |rows[n]|);
      bl[b := bl[b] + [Place(rows[n], sizes, pad)]]
  }

  /** One row more placed into its bucket. */
  lemma BucketsListSnoc(rows: seq<seq<int>>, i: nat, sizes: seq<int>, pad: int)
    requires i < |rows| && AllFit(rows, sizes)
    ensures AllFit(rows[..i], sizes) && AllFit(rows[..i + 1], sizes)
    ensures var b := FirstFit(sizes, |rows[i]|);
      var bl := BucketsList(rows[..i], sizes, pad);
      BucketsList(rows[..i + 1], sizes, pad) == bl[b := bl[b] + [Place(rows[i], sizes, pad)]]
  {
    assert rows[..i + 1][..i] == rows[..i];
  }

  /** `r` is one of the rows, first fitting bucket `b`, padded. */
  ghost predicate PlacedFrom(r: seq<int>, rows: seq<seq<int>>, sizes: seq<int>, pad: int, b: nat)
    requires AllFit(rows, sizes)
  {
    exists i :: 0 <= i < |rows| && FirstFit(sizes, |rows[i]|) == b && r == Place(rows[i], sizes, pad)
  }

  lemma PlacedFromPrefix(r: seq<int>, rows: seq<seq<int>>, n: nat, sizes: seq<int>, pad: int, b: nat)
    requires n <= |rows| && AllFit(rows, sizes) && AllFit(rows[..n], sizes)
    requires PlacedFrom(r, rows[..n], sizes, pad, b)
    ensures PlacedFrom(r, rows, sizes, pad, b)
  {
    var i :| 0 <= i < n && FirstFit(sizes, |rows[..n][i]|) == b && r == Place(rows[..n][i], sizes, pad);
    assert rows[..n][i] == rows[i];
  }

  /** In bucket `b` every row has length `sizes[b]` and is a dataset row
      that first fits there, padded. */
  lemma {:induction false} BucketRows(rows: seq<seq<int>>, sizes: seq<int>, pad: int, b: nat)
    requires AllFit(rows, sizes) && b < |sizes|
    ensures forall k :: 0 <= k < |BucketsList(rows, sizes, pad)[b]| ==>
      |BucketsList(rows, sizes, pad)[b][k]| == sizes[b] && PlacedFrom(BucketsList(rows, sizes, pad)[b][k], rows, sizes, pad, b)
    decreases |rows|
  {
    var bl := BucketsList(rows, sizes, pad);
    if |rows| > 0 {
      var n := |rows| - 1;
      var front := rows[..n];
      assert forall i :: 0 <= i < n ==> front[i] == rows[i];
      BucketRows(front, sizes, pad, b);
      var bl0 := BucketsList(front, sizes, pad);
      var x := Place(rows[n], sizes, pad);
      var grown := if FirstFit(sizes, |rows[n]|) == b then bl0[b] + [x] else bl0[b];
      assert bl[b] == grown;
      forall k | 0 <= k < |bl[b]|
        ensures |bl[b][k]| == sizes[b] && PlacedFrom(bl[b][k], rows, sizes, pad, b)
      {
        if k < |bl0[b]| {
          assert bl[b][k] == bl0[b][k];
          PlacedFromPrefix(bl[b][k], rows, n, sizes, pad, b);
        } else {
          assert bl[b][k] == x;
          assert PlacedFrom(x, rows, sizes, pad, b);
        }
      }
    }
  }

  /** Every dataset row that first fits bucket `b` is in it, padded. */
  lemma {:induction false} BucketHasRows(rows: seq<seq<int>>, sizes: seq<int>, pad: int, b: nat)
    requires AllFit(rows, sizes) && b < |sizes|
    ensures forall i :: 0 <= i < |rows| && FirstFit(sizes, |rows[i]|) == b ==> Place(rows[i], sizes, pad) in BucketsList(rows, sizes, pad)[b]
    decreases |rows|
  {
    var bl := BucketsList(rows, sizes, pad);
    if |rows| > 0 {
      var n := |rows| - 1;
      var front := rows[..n];
      assert forall i :: 0 <= i < n ==> front[i] == rows[i];
      BucketHasRows(front, sizes, pad, b);
      var bl0 := BucketsList(front, sizes, pad);
      var x := Place(rows[n], sizes, pad);
      if FirstFit(sizes, |rows[n]|) == b {
        assert bl[b] == bl0[b] + [x];
      } else {
        assert bl[b] == bl0[b];
      }
    }
  }

  /** The number of rows over all buckets. */
  function Total(bl: seq<seq<seq<int>>>): nat
  {
    if |bl| == 0 then 0 else Total(bl[..|bl| - 1]) + |bl[|bl| - 1]|
  }

  lemma {:induction false} TotalUpdate(bl: seq<seq<seq<int>>>, b: nat, x: seq<seq<int>>)
    requires b < |bl|
    ensures Total(bl[b := x]) + |bl[b]| == Total(bl) + |x|
    decreases |bl|
  {
    var n := |bl| - 1;
    if b < n {
      assert bl[b := x][..n] == bl[..n][b := x];
      TotalUpdate(bl[..n], b, x);
    } else {
      assert bl[b := x][..n] == bl[..n];
    }
  }

  lemma {:induction false} TotalEmpty(n: nat)
    ensures Total(seq(n, _ => [])) == 0
  {
    if n > 0 {
      var e: seq<seq<seq<int>>> := seq(n, _ => []);
      assert e[..n - 1] == seq(n - 1, _ => []);
      TotalEmpty(n - 1);
    }
  }

  /** Bucketing loses no row and adds none. */
  lemma {:induction false} BucketsListTotal(rows: seq<seq<int>>, sizes: seq<int>, pad: int)
    requires AllFit(rows, sizes)
    ensures Total(BucketsList(rows, sizes, pad)) == |rows|
    decreases |rows|
  {
    if |rows| == 0 {
      TotalEmpty(|sizes|);
    } else {
      var n := |rows| - 1;
      var front := rows[..n];
      assert forall i :: 0 <= i < n ==> front[i] == rows[i];
      BucketsListTotal(front, sizes, pad);
      var bl := BucketsList(front, sizes, pad);
      var b := FirstFit(sizes, |rows[n]|);
      TotalUpdate(bl, b, bl[b] + [Place(rows[n], sizes, pad)]);
    }
  }

  /** The list the last loop of `make_buckets` builds: the non-empty buckets
      in their order. */
  function DropEmpty(bl: seq<seq<seq<int>>>): (r: seq<seq<seq<int>>>)
    ensures |r| <= |bl|
  {
    if |bl| == 0 then []
    else DropEmpty(bl[..|bl| - 1]) + (if |bl[|bl| - 1]| == 0 then [] else [bl[|bl| - 1]])
  }

  lemma DropEmptySnoc(bl: seq<seq<seq<int>>>, n: nat)
    requires n == |bl| - 1
    ensures DropEmpty(bl) == DropEmpty(bl[..n]) + (if |bl[n]| == 0 then [] else [bl[n]])
  {
  }

  /** Every kept bucket is non-empty. */
  lemma {:induction false} DropEmptyNonEmpty(bl: seq<seq<seq<int>>>)
    ensures forall k :: 0 <= k < |DropEmpty(bl)| ==> |DropEmpty(bl)[k]| > 0
    decreases |bl|
  {
    if |bl| > 0 {
      var n := |bl| - 1;
      DropEmptyNonEmpty(bl[..n]);
      DropEmptySnoc(bl, n);
    }
  }

  /** Every kept bucket is one of the buckets, and every non-empty bucket is kept. */
  lemma {:induction false} DropEmptyMembers(bl: seq<seq<seq<int>>>)
    ensures forall k :: 0 <= k < |DropEmpty(bl)| ==> DropEmpty(bl)[k] in bl
    ensures forall k :: 0 <= k < |bl| && |bl[k]| > 0 ==> bl[k] in DropEmpty(bl)
    decreases |bl|
  {
    if |bl| > 0 {
      var n := |bl| - 1;
      var front := bl[..n];
      DropEmptyMembers(front);
      DropEmptySnoc(bl, n);
      var d := DropEmpty(bl);
      var d0 := DropEmpty(front);
      forall k | 0 <= k < |d|
        ensures d[k] in bl
      {
        if k < |d0| {
          assert d[k] == d0[k];
          assert d0[k] in front;
        }
      }
      forall k | 0 <= k < |bl| && |bl[k]| > 0
        ensures bl[k] in d
      {
        if k < n {
          assert bl[k] == front[k];
        }
      }
    }
  }

  /** Dropping the empty buckets drops no row. */
  lemma {:induction false} DropEmptyTotal(bl: seq<seq<seq<int>>>)
    ensures Total(DropEmpty(bl)) == Total(bl)
    decreases |bl|
  {
    if |bl| > 0 {
      var n := |bl| - 1;
      DropEmptyTotal(bl[..n]);
      DropEmptySnoc(bl, n);
      var front := DropEmpty(bl[..n]);
      if |bl[n]| > 0 {
        var r := front + [bl[n]];
        assert r[..|front|] == front && r[|front|] == bl[n];
        assert Total(r) == Total(front) + |bl[n]|;
      } else {
        assert front + [] == front;
      }
    }
  }

  /** Without empty buckets nothing is dropped. */
  lemma {:induction false} DropEmptyNone(bl: seq<seq<seq<int>>>)
    requires forall k :: 0 <= k < |bl| ==> |bl[k]| > 0
    ensures DropEmpty(bl) == bl
    decreases |bl|
  {
    if |bl| > 0 {
      var n := |bl| - 1;
      DropEmptyNone(bl[..n]);
      assert bl == bl[..n] + [bl[n]];
    }
  }

  /** The dataset rows after bucketing: each padded in place to its bucket. */
  function PadAll(rows: seq<seq<int>>, sizes: seq<int>, pad: int): (r: seq<seq<int>>)
    requires AllFit(rows, sizes)
    ensures |r| == |rows|
    ensures forall i :: 0 <= i < |rows| ==> |rows[i]| <= |r[i]| && r[i][..|rows[i]|] == rows[i]
  {
    seq(|rows|, i requires 0 <= i < |rows| => Place(rows[i], sizes, pad))
  }

  /** The longest row of the dataset array: the first loop of `make_buckets`. */
  method LongestRow(dataset: array<seq<int>>) returns (maxLength: nat)
    ensures maxLength == MaxLength(dataset[..])
  {
    maxLength := 0;
    for i := 0 to dataset.Length
      invariant maxLength == MaxLength(dataset[..i])
    {
      assert dataset[..i + 1][..i] == dataset[..i];
      if |dataset[i]| > maxLength {
        maxLength := |dataset[i]|;
      }
    }
    assert dataset[..dataset.Length] == dataset[..];
  }

  /** The `for size in bucket_sizes` loop with its `break`. */
  method FindBucket(sizes: seq<int>, length: nat) returns (bucketIndex: nat)
    ensures bucketIndex == FirstFit(sizes, length)
  {
    bucketIndex := 0;
    while bucketIndex < |sizes|
      invariant bucketIndex <= |sizes|
      invariant forall j :: 0 <= j < bucketIndex ==> sizes[j] < length
    {
      if length <= sizes[bucketIndex] {
        break;
      }
      bucketIndex := bucketIndex + 1;
    }
  }

  /** `for _ in xrange(size - length): word_ids.append(pad)`, on row `i` of
      the dataset, which the caller sees padded too. */
  method PadRow(dataset: array<seq<int>>, i: nat, size: int, pad: int)
    requires i < dataset.Length
    modifies dataset
    ensures dataset[..] == old(dataset[..])[i := Pad(old(dataset[i]), size, pad)]
  {
    var row := dataset[i];
    var count := size - |row|;
    assert row + seq(0, _ => pad) == row;
    assert dataset[..][i := row] == dataset[..];
    if count > 0 {
      for k := 0 to count
        invariant dataset[..] == old(dataset[..])[i := row + seq(k, _ => pad)]
      {
        assert row + seq(k + 1, _ => pad) == row + seq(k, _ => pad) + [pad];
        dataset[i] := dataset[i] + [pad];
      }
    }
    assert row + seq(Max(size - |row|, 0), _ => pad) == Pad(row, size, pad);
    assert Max(size - |row|, 0) == 0 ==> row + seq(0, _ => pad) == row;
  }

  /** The last loop of `make_buckets`: skip the empty buckets. */
  method KeepNonEmpty(bucketsList: seq<seq<seq<int>>>) returns (buckets: seq<seq<seq<int>>>)
    ensures buckets == DropEmpty(bucketsList)
  {
    buckets := [];
    for b := 0 to |bucketsList|
      invariant buckets == DropEmpty(bucketsList[..b])
    {
      assert bucketsList[..b + 1][..b] == bucketsList[..b];
      if |bucketsList[b]| == 0 {
        continue;
      }
      buckets := buckets + [bucketsList[b]];
    }
    assert bucketsList[..|bucketsList|] == bucketsList;
  }

  /** The dataset while the rows are placed: the first `i` padded, the
      rest as they were. */
  function PadPrefix(rows: seq<seq<int>>, i: nat, sizes: seq<int>, pad: int): (r: seq<seq<int>>)
    requires i <= |rows| && AllFit(rows, sizes)
    ensures |r| == |rows|
  {
    assert AllFit(rows[..i], sizes);
    PadAll(rows[..i], sizes, pad) + rows[i..]
  }

  lemma PadPrefixStep(rows: seq<seq<int>>, i: nat, sizes: seq<int>, pad: int)
    requires i < |rows| && AllFit(rows, sizes)
    ensures PadPrefix(rows, i, sizes, pad)[i] == rows[i]
    ensures PadPrefix(rows, i, sizes, pad)[i := Place(rows[i], sizes, pad)] == PadPrefix(rows, i + 1, sizes, pad)
  {
    assert rows[..i + 1][..i] == rows[..i];
    assert rows[i..] == [rows[i]] + rows[i + 1..];
  }

  lemma PadPrefixEnds(rows: seq<seq<int>>, sizes: seq<int>, pad: int)
    requires AllFit(rows, sizes)
    ensures PadPrefix(rows, 0, sizes, pad) == rows
    ensures PadPrefix(rows, |rows|, sizes, pad) == PadAll(rows, sizes, pad)
  {
    assert rows[..|rows|] == rows;
    assert rows[0..] == rows;
  }

  /** The body of the placing loop for one row: find its bucket, pad the row
      in place, and append it to that bucket. */
  method PlaceRow(dataset: array<seq<int>>, i: nat, sizes: seq<int>, pad: int, bucketsList: seq<seq<seq<int>>>)
    returns (placed: seq<seq<seq<int>>>)
    requires i < dataset.Length && FirstFit(sizes, |dataset[i]|) < |sizes| && |bucketsList| == |sizes|
    modifies dataset
    ensures var b := FirstFit(sizes, |old(dataset[i])|);
      placed == bucketsList[b := bucketsList[b] + [Place(old(dataset[i]), sizes, pad)]]
    ensures dataset[..] == old(dataset[..])[i := Place(old(dataset[i]), sizes, pad)]
  {
    var length := |dataset[i]|;
    var bucketIndex := FindBucket(sizes, length);
    PadRow(dataset, i, sizes[bucketIndex], pad);
    placed := bucketsList[bucketIndex := bucketsList[bucketIndex] + [dataset[i]]];
  }

  /** The module-level list of bucket sizes, which every bucketing call
      extends by the longest length it saw. */
  class BucketSizes {
    var sizes: seq<int>

    constructor(initial: seq<int>)
      ensures sizes == initial
    {
      sizes := initial;
    }

    /** `make_buckets(dataset)`. The rows of `dataset` are padded in place;
        the buckets are copies (`np.asarray`). */
    method MakeBuckets(dataset: array<seq<int>>, pad: int) returns (buckets: seq<seq<seq<int>>>)
      modifies this, dataset
      ensures sizes == old(sizes) + [MaxLength(old(dataset[..]))]
      ensures AllFit(old(dataset[..]), sizes)
      ensures dataset[..] == PadAll(old(dataset[..]), sizes, pad)
      ensures buckets == DropEmpty(BucketsList(old(dataset[..]), sizes, pad))
    {
      ghost var rows := dataset[..];
      var maxLength := LongestRow(dataset);
      AppendMaxFits(rows, sizes);
      sizes := sizes + [maxLength];
      var bucketsList: seq<seq<seq<int>>> := seq(|sizes|, _ => []);
      PadPrefixEnds(rows, sizes, pad);
      for i := 0 to dataset.Length
        invariant sizes == old(sizes) + [maxLength]
        invariant dataset[..] == PadPrefix(rows, i, sizes, pad)
        invariant bucketsList == BucketsList(rows[..i], sizes, pad)
      {
        BucketsListSnoc(rows, i, sizes, pad);
        PadPrefixStep(rows, i, sizes, pad);
        bucketsList := PlaceRow(dataset, i, sizes, pad, bucketsList);
      }
      assert rows[..dataset.Length] == rows;
      buckets := KeepNonEmpty(bucketsList);
    }
  }

  /** `make_buckets` keeps every row and pads each to the size of its bucket,
      which is the first size it fits, so the length limit of every row holds. */
  lemma MakeBucketsRows(rows: seq<seq<int>>, sizes: seq<int>, pad: int)
    ensures var s := sizes + [MaxLength(rows)];
      AllFit(rows, s)
      && Total(DropEmpty(BucketsList(rows, s, pad))) == |rows|
      && forall k :: 0 <= k < |DropEmpty(BucketsList(rows, s, pad))| ==> |DropEmpty(BucketsList(rows, s, pad))[k]| > 0
  {
    var s := sizes + [MaxLength(rows)];
    AppendMaxFits(rows, s[..|sizes|]);
    assert s[..|sizes|] == sizes;
    BucketsListTotal(rows, s, pad);
    DropEmptyTotal(BucketsList(rows, s, pad));
    DropEmptyNonEmpty(BucketsList(rows, s, pad));
  }

  /** `num_samples if len(bucket) >= num_samples else len(bucket)`. */
  function SampleSize(bucketLength: nat, numSamples: nat): (n: nat)
    ensures n <= bucketLength && n <= numSamples
    ensures n == bucketLength || n == numSamples
  {
    if bucketLength >= numSamples then numSamples else bucketLength
  }

  /** No index is repeated. */
  predicate DistinctIndices(indices: seq<nat>)
  {
    forall a, b :: 0 <= a < b < |indices| ==> indices[a] != indices[b]
  }

  /** `s[idx]`, NumPy's fancy indexing: the elements at the given positions. */
  function Pick<T>(s: seq<T>, idx: seq<nat>): (r: seq<T>)
    requires forall k :: 0 <= k < |idx| ==> idx[k] < |s|
    ensures |r| == |idx|
  {
    seq(|idx|, k requires 0 <= k < |idx| => s[idx[k]])
  }

  /** Removing position `m` takes one `s[m]` out of the multiset. */
  lemma RemoveAtMultiset<T>(s: seq<T>, m: nat)
    requires m < |s|
    ensures multiset(s) == multiset(s[..m] + s[m + 1..]) + multiset{s[m]}
  {
    assert s == s[..m] + [s[m]] + s[m + 1..];
  }

  /** The positions of `idx`, none of them `m`, renumbered for `s` with
      position `m` removed. */
  function Renumber(idx: seq<nat>, m: nat): (r: seq<nat>)
    ensures |r| == |idx|
  {
    seq(|idx|, k requires 0 <= k < |idx| => if idx[k] <= m then idx[k] else idx[k] - 1)
  }

  /** Renumbered positions pick the same elements from `s` without `m`,
      and stay distinct. */
  lemma RenumberPick<T>(s: seq<T>, idx: seq<nat>, m: nat)
    requires m < |s| && DistinctIndices(idx)
    requires forall k :: 0 <= k < |idx| ==> idx[k] < |s| && idx[k] != m
    ensures forall k :: 0 <= k < |idx| ==> Renumber(idx, m)[k] < |s| - 1
    ensures DistinctIndices(Renumber(idx, m))
    ensures Pick(s[..m] + s[m + 1..], Renumber(idx, m)) == Pick(s, idx)
  {
    var rest := s[..m] + s[m + 1..];
    var r := Renumber(idx, m);
    forall k | 0 <= k < |idx|
      ensures r[k] < |rest| && rest[r[k]] == s[idx[k]]
    {
    }
  }

  /** Picking at distinct positions takes no element more often than it
      occurs: the picked elements are a sub-multiset of `s`. */
  lemma {:induction false} PickSubMultiset<T>(s: seq<T>, idx: seq<nat>)
    requires forall k :: 0 <= k < |idx| ==> idx[k] < |s|
    requires DistinctIndices(idx)
    ensures multiset(Pick(s, idx)) <= multiset(s)
    decreases |idx|
  {
    if |idx| > 0 {
      var n := |idx| - 1;
      var m := idx[n];
      var front := idx[..n];
      assert forall k :: 0 <= k < n ==> front[k] == idx[k] && idx[k] != m;
      assert DistinctIndices(front);
      RenumberPick(s, front, m);
      PickSubMultiset(s[..m] + s[m + 1..], Renumber(front, m));
      RemoveAtMultiset(s, m);
      assert Pick(s, idx) == Pick(s, front) + [s[m]];
    }
  }

  /** `bucket[indices]` for the indices `np.random.choice(..., replace=False)`
      drew, which are a parameter here. */
  function SampleBatch(bucket: seq<seq<int>>, numSamples: nat, indices: seq<nat>): (batch: seq<seq<int>>)
    requires |indices| == SampleSize(|bucket|, numSamples) && DistinctIndices(indices)
    requires forall k :: 0 <= k < |indices| ==> indices[k] < |bucket|
    ensures |batch| == Min(numSamples, |bucket|)
    ensures forall k :: 0 <= k < |batch| ==> batch[k] == bucket[indices[k]]
    ensures forall k :: 0 <= k < |batch| ==> batch[k] in bucket
    ensures multiset(batch) <= multiset(bucket)
  {
    PickSubMultiset(bucket, indices);
    Pick(bucket, indices)
  }

  /** The rows of `batch` concatenated (`np.reshape(target, (-1,))`). */
  function Flatten<T>(rows: seq<seq<T>>): seq<T>
  {
    if |rows| == 0 then [] else Flatten(rows[..|rows| - 1]) + rows[|rows| - 1]
  }

  /** A two-dimensional array: every row has `width` entries. */
  predicate IsMatrix<T>(rows: seq<seq<T>>, width: nat)
  {
    forall i :: 0 <= i < |rows| ==> |rows[i]| == width
  }

  /** Where row `i` of a matrix of width `w` starts once flattened:
      `i * w`, written as `i` additions so that the solver keeps the
      arithmetic linear; `OffsetIsProduct` connects it to the product. */
  function Offset(i: nat, w: nat): nat
  {
    if i == 0 then 0 else Offset(i - 1, w) + w
  }

  lemma {:induction false} OffsetIsProduct(i: nat, w: nat)
    ensures Offset(i, w) == i * w
  {
    if i > 0 {
      OffsetIsProduct(i - 1, w);
      assert (i - 1) * w + w == i * w;
    }
  }

  lemma {:induction false} FlattenLength<T>(rows: seq<seq<T>>, w: nat)
    requires IsMatrix(rows, w)
    ensures |Flatten(rows)| == Offset(|rows|, w)
    decreases |rows|
  {
    if |rows| > 0 {
      FlattenLength(rows[..|rows| - 1], w);
    }
  }

  lemma {:induction false} FlattenRow<T>(rows: seq<seq<T>>, w: nat, i: nat)
    requires IsMatrix(rows, w) && i < |rows|
    ensures Offset(i, w) + w <= |Flatten(rows)|
    ensures Flatten(rows)[Offset(i, w) .. Offset(i, w) + w] == rows[i]
    decreases |rows|
  {
    var n := |rows| - 1;
    var front := rows[..n];
    FlattenLength(front, w);
    var a := Flatten(front);
    assert Flatten(rows) == a + rows[n];
    if i < n {
      assert front[i] == rows[i];
      FlattenRow(front, w, i);
      assert (a + rows[n])[Offset(i, w) .. Offset(i, w) + w] == a[Offset(i, w) .. Offset(i, w) + w];
    } else {
      assert (a + rows[n])[|a| ..] == rows[n];
    }
  }

  /** `(batch[:, :-1], np.reshape(batch[:, 1:], (-1,)))`. */
  datatype SourceTarget = SourceTarget(source: seq<seq<int>>, target: seq<int>)

  function SourceTargetPair(batch: seq<seq<int>>): (p: SourceTarget)
    ensures |p.source| == |batch|
  {
    SourceTarget(seq(|batch|, i requires 0 <= i < |batch| => Slice(batch[i], 0, -1)),
                 Flatten(seq(|batch|, i requires 0 <= i < |batch| => Slice(batch[i], 1, |batch[i]|))))
  }

  /** `flat` holds `row` from position `start` on. */
  predicate RowAt(flat: seq<int>, start: nat, row: seq<int>)
  {
    start + |row| <= |flat| && flat[start .. start + |row|] == row
  }

  /** For an `R x L` batch with `L >= 1`: the source drops the last column,
      and the target has `R * (L - 1)` entries, of which the stretch from
      `i * (L - 1)` on is row `i` without its first word: at each position
      the target holds the word that follows the source's. */
  lemma SourceTargetShift(batch: seq<seq<int>>, L: nat)
    requires IsMatrix(batch, L) && L >= 1
    ensures IsMatrix(SourceTargetPair(batch).source, L - 1)
    ensures forall i :: 0 <= i < |batch| ==> SourceTargetPair(batch).source[i] == batch[i][..L - 1]
    ensures |SourceTargetPair(batch).target| == Offset(|batch|, L - 1)
    ensures forall i :: 0 <= i < |batch| ==> RowAt(SourceTargetPair(batch).target, Offset(i, L - 1), batch[i][1..])
  {
    SourceColumns(batch, L);
    var shifted := seq(|batch|, i requires 0 <= i < |batch| => Slice(batch[i], 1, |batch[i]|));
    assert SourceTargetPair(batch).target == Flatten(shifted);
    assert forall i :: 0 <= i < |batch| ==> shifted[i] == batch[i][1..];
    FlattenLength(shifted, L - 1);
    forall i | 0 <= i < |batch|
      ensures RowAt(SourceTargetPair(batch).target, Offset(i, L - 1), batch[i][1..])
    {
      TargetRowAt(batch, L, i);
    }
  }

  lemma SourceColumns(batch: seq<seq<int>>, L: nat)
    requires IsMatrix(batch, L) && L >= 1
    ensures |SourceTargetPair(batch).source| == |batch|
    ensures forall i :: 0 <= i < |batch| ==> SourceTargetPair(batch).source[i] == batch[i][..L - 1]
    ensures IsMatrix(SourceTargetPair(batch).source, L - 1)
  {
    var p := SourceTargetPair(batch);
    forall i | 0 <= i < |batch|
      ensures p.source[i] == batch[i][..L - 1] && |p.source[i]| == L - 1
    {
      SliceDropLast(batch[i], 1);
    }
  }

  /** Row `i` of the target, on its own. */
  lemma TargetRowAt(batch: seq<seq<int>>, L: nat, i: nat)
    requires IsMatrix(batch, L) && L >= 1 && i < |batch|
    ensures Offset(i, L - 1) + L - 1 <= |SourceTargetPair(batch).target|
    ensures SourceTargetPair(batch).target[Offset(i, L - 1) .. Offset(i, L - 1) + L - 1] == batch[i][1..]
    ensures RowAt(SourceTargetPair(batch).target, Offset(i, L - 1), batch[i][1..])
  {
    var shifted := seq(|batch|, i requires 0 <= i < |batch| => Slice(batch[i], 1, |batch[i]|));
    assert SourceTargetPair(batch).target == Flatten(shifted);
    assert forall k :: 0 <= k < |batch| ==> shifted[k] == batch[k][1..];
    FlattenRow(shifted, L - 1, i);
  }

  /** Entry `i * (L - 1) + j` of the flattened target is the token that
      follows position `j` of row `i`: the next word the model must predict. */
  lemma TargetIndex(batch: seq<seq<int>>, L: nat, i: nat, j: nat)
    requires IsMatrix(batch, L) && L >= 1 && i < |batch| && j < L - 1
    ensures i * (L - 1) + j < |SourceTargetPair(batch).target|
    ensures SourceTargetPair(batch).target[i * (L - 1) + j] == batch[i][j + 1]
  {
    TargetRowAt(batch, L, i);
    OffsetIsProduct(i, L - 1);
    var t := SourceTargetPair(batch).target;
    assert t[Offset(i, L - 1) .. Offset(i, L - 1) + L - 1][j] == batch[i][1..][j];
  }

  /** Every bucket `make_buckets` returns is a matrix: its rows share the
      length of their bucket size, so `make_source_target_pair` applies. */
  lemma BucketIsMatrix(rows: seq<seq<int>>, sizes: seq<int>, pad: int, b: nat)
    requires AllFit(rows, sizes) && b < |sizes| && sizes[b] >= 0
    ensures IsMatrix(BucketsList(rows, sizes, pad)[b], sizes[b])
  {
    BucketRows(rows, sizes, pad, b);
  }
}
