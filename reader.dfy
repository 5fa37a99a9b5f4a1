/** `read_data` of rnn/dataset.py:6-47 and of example/train_rnn.py:32-71:
    read the sentences, shuffle them, and cut them into train, dev
    (validation) and test sets. The split ratios are Python floats, modelled
    as reals; `random.shuffle` is modelled by the swaps it performs, with its
    random numbers as a parameter. */
module Reader {
  import opened PyOps
  import opened Vocabulary

  /** Exchange two elements. */
  function Swap<T>(s: seq<T>, i: nat, j: nat): (r: seq<T>)
    requires i < |s| && j < |s|
    ensures |r| == |s| && r[i] == s[j] && r[j] == s[i]
    ensures forall k :: 0 <= k < |s| && k != i && k != j ==> r[k] == s[k]
    ensures multiset(r) == multiset(s)
  {
    s[i := s[j]][j := s[i]]
  }

  /** The Fisher-Yates loop of `random.shuffle` from position `i` down to 1:
      `j = randbelow(i + 1)`, then `x[i], x[j] = x[j], x[i]`. The random
      number drawn for position `i` is `rand(i)`. */
  function ShuffleFrom<T>(s: seq<T>, i: nat, rand: nat -> nat): (r: seq<T>)
    requires i < |s|
    ensures |r| == |s| && multiset(r) == multiset(s)
    decreases i
  {
    if i == 0 then s else ShuffleFrom(Swap(s, i, rand(i) % (i + 1)), i - 1, rand)
  }

  /** `random.shuffle(x)`: a permutation of `x`. */
  function Shuffle<T>(s: seq<T>, rand: nat -> nat): (r: seq<T>)
    ensures |r| == |s| && multiset(r) == multiset(s)
  {
    if |s| == 0 then s else ShuffleFrom(s, |s| - 1, rand)
  }

  /** The three parts, in the order `read_data` returns them. */
  datatype Splits<T> = Splits(train: seq<T>, dev: seq<T>, test: seq<T>)

  /** `(s[:k], s[k:])` for any integer `k`. */
  function CutAt<T>(s: seq<T>, k: int): (r: (seq<T>, seq<T>))
    ensures r.0 + r.1 == s
    ensures 0 <= k <= |s| ==> r.0 == s[..k] && r.1 == s[k..]
  {
    SliceSplit(s, k);
    (Slice(s, 0, k), Slice(s, k, |s|))
  }

  /** `n * x` for a list length `n`, written as `n` additions so that the
      products stay out of the solver's way; `TimesIsProduct` connects it to
      the product. */
  function Times(n: nat, x: real): real
  {
    if n == 0 then 0.0 else Times(n - 1, x) + x
  }

  lemma {:induction false} TimesIsProduct(n: nat, x: real)
    ensures Times(n, x) == n as real * x
  {
    if n > 0 {
      TimesIsProduct(n - 1, x);
      assert (n - 1) as real * x + x == n as real * x;
    }
  }

  /** `int(n * f)` for a fraction `f` lies in `0..n`. */
  lemma {:induction false} FractionOf(n: nat, f: real)
    requires 0.0 <= f <= 1.0
    ensures 0.0 <= Times(n, f) <= n as real
    ensures 0 <= Trunc(Times(n, f)) <= n
  {
    if n > 0 {
      FractionOf(n - 1, f);
    }
  }

  /** `int(m * a / s)` lies in `0..m` when `0 <= a <= s`. */
  lemma ShareOf(m: nat, a: real, s: real)
    requires 0.0 <= a <= s && 0.0 < s
    ensures 0 <= Trunc(Times(m, a) / s) <= m
  {
    TimesIsProduct(m, a);
    var x := m as real;
    assert 0.0 <= x * a <= x * s;
    DivMono(x * a, x * s, s);
    assert x * s / s == x;
  }

  lemma DivMono(y: real, z: real, s: real)
    requires 0.0 <= y <= z && 0.0 < s
    ensures 0.0 <= y / s <= z / s
  {
  }

  /** The cut points of rnn/dataset.py:38-45 (after the assertion of line 7):
      `[train][dev] | [test]` at `int(n * (tr + dv))`, then `[dev] | [train]`
      at `int(m * dv / (tr + dv))`, where `m` is the size of the first part. */
  function SplitDataset<T>(data: seq<T>, trainRatio: real, devRatio: real): (r: Result<Splits<T>>)
    ensures r.Failure? <==> trainRatio + devRatio == 0.0
    ensures r.Failure? ==> r.error == ZeroDivisionError
    ensures r.Success? ==> r.value.dev + r.value.train + r.value.test == data
  {
    var outer := CutAt(data, Trunc(Times(|data|, trainRatio + devRatio)));
    if trainRatio + devRatio == 0.0 then Failure(ZeroDivisionError)
    else
      var inner := CutAt(outer.0, Trunc(Times(|outer.0|, devRatio) / (trainRatio + devRatio)));
      Success(Splits(inner.1, inner.0, outer.1))
  }

  /** With ratios in `[0, 1]` summing to at most 1 and more than 0, the test
      set is what lies after `int(n * (tr + dv))`, and the dev set is the
      first `int(m * dv / (tr + dv))` of the remaining `m` sentences. */
  lemma SplitDatasetSizes<T>(data: seq<T>, trainRatio: real, devRatio: real)
    requires 0.0 <= trainRatio && 0.0 <= devRatio && 0.0 < trainRatio + devRatio <= 1.0
    ensures var r := SplitDataset(data, trainRatio, devRatio);
      var m := Trunc(Times(|data|, trainRatio + devRatio));
      r.Success? && 0 <= m <= |data|
      && |r.value.test| == |data| - m
      && |r.value.dev| == Trunc(Times(m, devRatio) / (trainRatio + devRatio))
      && |r.value.dev| + |r.value.train| == m
  {
    var s := trainRatio + devRatio;
    FractionOf(|data|, s);
    var m := Trunc(Times(|data|, s));
    ShareOf(m, devRatio, s);
  }

  /** The validation cut of example/train_rnn.py:67: `int(m * ratio)`, not
      renormalised, so there is no division. */
  function SplitExample<T>(data: seq<T>, trainRatio: real, validationRatio: real): (r: Splits<T>)
    ensures r.dev + r.train + r.test == data
  {
    var outer := CutAt(data, Trunc(Times(|data|, trainRatio + validationRatio)));
    var inner := CutAt(outer.0, Trunc(Times(|outer.0|, validationRatio)));
    Splits(inner.1, inner.0, outer.1)
  }

  /** The two scripts disagree on the dev share: with ratios 0.25 and 0.25
      and 100 sentences rnn/dataset.py keeps 25 dev sentences, the example 12. */
  lemma DevShareDiffers(data: seq<int>)
    requires |data| == 100
    ensures SplitDataset(data, 0.25, 0.25).Success?
    ensures |SplitDataset(data, 0.25, 0.25).value.dev| == 25
    ensures |SplitExample(data, 0.25, 0.25).dev| == 12
  {
    TimesIsProduct(100, 0.25 + 0.25);
    assert Trunc(Times(100, 0.25 + 0.25)) == 50;
    TimesIsProduct(50, 0.25);
    assert Trunc(Times(50, 0.25) / (0.25 + 0.25)) == 25;
    assert Trunc(Times(50, 0.25)) == 12;
  }

  /** What rnn/dataset.py's `read_data` returns. */
  datatype Loaded = Loaded(train: seq<seq<int>>, dev: seq<seq<int>>, test: seq<seq<int>>,
                           vocab: map<string, int>, vocabInv: map<int, string>)

  /** `read_data(filepath, train_split_ratio, dev_split_ratio)` of
      rnn/dataset.py, the file given as its lines. */
  function Load(lines: seq<string>, trainRatio: real, devRatio: real, rand: nat -> nat,
                pad: int, unk: int, bos: int, eos: int): (r: Result<Loaded>)
    ensures trainRatio + devRatio > 1.0 ==> r == Failure(AssertionError("train_split_ratio + dev_split_ratio <= 1"))
    ensures trainRatio + devRatio == 0.0 ==> r == Failure(ZeroDivisionError)
    ensures r.Success? <==> trainRatio + devRatio <= 1.0 && trainRatio + devRatio != 0.0
  {
    if trainRatio + devRatio > 1.0 then Failure(AssertionError("train_split_ratio + dev_split_ratio <= 1"))
    else
      var c := Read(Reserved(pad, unk, bos, eos), lines, bos, eos);
      var inv := InverseOf(c.vocab.keys, c.vocab.ids);
      match SplitDataset(Shuffle(c.data, rand), trainRatio, devRatio)
      case Failure(e) => Failure(e)
      case Success(p) => Success(Loaded(p.train, p.dev, p.test, c.vocab.ids, inv))
  }

  /** The three sets hold every encoded sentence exactly once, and nothing else. */
  lemma LoadPartitions(lines: seq<string>, trainRatio: real, devRatio: real, rand: nat -> nat,
                       pad: int, unk: int, bos: int, eos: int)
    requires Load(lines, trainRatio, devRatio, rand, pad, unk, bos, eos).Success?
    ensures var l := Load(lines, trainRatio, devRatio, rand, pad, unk, bos, eos).value;
      multiset(l.dev) + multiset(l.train) + multiset(l.test)
      == multiset(Read(Reserved(pad, unk, bos, eos), lines, bos, eos).data)
  {
    var c := Read(Reserved(pad, unk, bos, eos), lines, bos, eos);
    var p := SplitDataset(Shuffle(c.data, rand), trainRatio, devRatio).value;
    assert multiset(p.dev + p.train + p.test) == multiset(p.dev) + multiset(p.train) + multiset(p.test);
  }

  /** With the reserved ids `0..3` in any order, `vocab_inv[vocab[w]] == w`
      for every word, and every id is below `len(vocab)`. */
  lemma LoadVocabInverse(lines: seq<string>, trainRatio: real, devRatio: real, rand: nat -> nat,
                         pad: int, unk: int, bos: int, eos: int)
    requires Load(lines, trainRatio, devRatio, rand, pad, unk, bos, eos).Success?
    requires 0 <= pad < 4 && 0 <= unk < 4 && 0 <= bos < 4 && 0 <= eos < 4
    requires pad != unk && pad != bos && pad != eos && unk != bos && unk != eos && bos != eos
    ensures var l := Load(lines, trainRatio, devRatio, rand, pad, unk, bos, eos).value;
      forall w :: w in l.vocab ==> 0 <= l.vocab[w] < |l.vocab| && l.vocab[w] in l.vocabInv && l.vocabInv[l.vocab[w]] == w
  {
    var d := Reserved(pad, unk, bos, eos);
    ReservedDense(pad, unk, bos, eos);
    EncodeAllKeeps(d, Sentences(lines), bos, eos);
    InverseRoundTrip(Read(d, lines, bos, eos).vocab);
  }

  /** `read_data` of rnn/dataset.py: the assertion on the ratios, the reading
      loop, the inverse vocabulary, the shuffle and the two cuts. */
  method ReadData(lines: seq<string>, trainRatio: real, devRatio: real, rand: nat -> nat,
                  pad: int, unk: int, bos: int, eos: int) returns (r: Result<Loaded>)
    ensures r == Load(lines, trainRatio, devRatio, rand, pad, unk, bos, eos)
  {
    if trainRatio + devRatio > 1.0 {
      return Failure(AssertionError("train_split_ratio + dev_split_ratio <= 1"));
    }
    var d := Reserved(pad, unk, bos, eos);
    FromPairsWellFormed(DatasetReservedWords, [pad, unk, bos, eos]);
    var vocab, dataset := ReadLines(d, lines, bos, eos);
    EncodeAllKeeps(d, Sentences(lines), bos, eos);
    var vocabInv := Invert(vocab);
    dataset := Shuffle(dataset, rand);
    var parts := SplitDataset(dataset, trainRatio, devRatio);
    if parts.Failure? {
      return Failure(parts.error);
    }
    r := Success(Loaded(parts.value.train, parts.value.dev, parts.value.test, vocab.ids, vocabInv));
  }

  /** What example/train_rnn.py's `read_data` returns (no inverse vocabulary). */
  datatype ExampleLoaded = ExampleLoaded(train: seq<seq<int>>, validation: seq<seq<int>>,
                                         test: seq<seq<int>>, vocab: map<string, int>)

  /** `read_data` of example/train_rnn.py, the file given as its lines. */
  function LoadExample(lines: seq<string>, trainRatio: real, validationRatio: real, rand: nat -> nat): (r: Result<ExampleLoaded>)
    ensures r.Failure? <==> trainRatio + validationRatio > 1.0
    ensures r.Failure? ==> r.error == AssertionError("train_split_ratio + validation_split_ratio <= 1")
  {
    if trainRatio + validationRatio > 1.0 then Failure(AssertionError("train_split_ratio + validation_split_ratio <= 1"))
    else
      var c := Read(ExampleReserved(), lines, 1, 2);
      var p := SplitExample(Shuffle(c.data, rand), trainRatio, validationRatio);
      Success(ExampleLoaded(p.train, p.dev, p.test, c.vocab.ids))
  }

  /** The example's sets partition the encoded sentences too, and its
      dictionary gives distinct ids below `len(vocab)`. */
  lemma LoadExampleFacts(lines: seq<string>, trainRatio: real, validationRatio: real, rand: nat -> nat)
    requires LoadExample(lines, trainRatio, validationRatio, rand).Success?
    ensures var l := LoadExample(lines, trainRatio, validationRatio, rand).value;
      multiset(l.validation) + multiset(l.train) + multiset(l.test)
      == multiset(Read(ExampleReserved(), lines, 1, 2).data)
    ensures var l := LoadExample(lines, trainRatio, validationRatio, rand).value;
      forall w :: w in l.vocab ==> 0 <= l.vocab[w] < |l.vocab|
  {
    var c := Read(ExampleReserved(), lines, 1, 2);
    var p := SplitExample(Shuffle(c.data, rand), trainRatio, validationRatio);
    assert multiset(p.dev + p.train + p.test) == multiset(p.dev) + multiset(p.train) + multiset(p.test);
    ExampleReservedDense();
    EncodeAllKeeps(ExampleReserved(), Sentences(lines), 1, 2);
  }

  /** `read_data` of example/train_rnn.py: `<pad>` 0, `<bos>` 1, `<eos>` 2. */
  method ReadExampleData(lines: seq<string>, trainRatio: real, validationRatio: real, rand: nat -> nat)
    returns (r: Result<ExampleLoaded>)
    ensures r == LoadExample(lines, trainRatio, validationRatio, rand)
  {
    if trainRatio + validationRatio > 1.0 {
      return Failure(AssertionError("train_split_ratio + validation_split_ratio <= 1"));
    }
    var vocab, dataset := ReadLines(ExampleReserved(), lines, 1, 2);
    dataset := Shuffle(dataset, rand);
    var parts := SplitExample(dataset, trainRatio, validationRatio);
    r := Success(ExampleLoaded(parts.train, parts.dev, parts.test, vocab.ids));
  }
}
