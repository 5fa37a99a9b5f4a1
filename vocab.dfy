/** The vocabulary and the sentence encoding of `read_data`
    (rnn/dataset.py:8-32, example/train_rnn.py:34-56). The source is Python 2
    code, whose dicts iterate in no defined order. To state the loop over
    `vocab.items()` the dictionary is modelled as a list of its keys together
    with the key-to-id map; the list is kept in insertion order, which is a
    choice of the model. With distinct ids the inverse does not depend on
    that order (`InverseOfOrderFree`). */
module Vocabulary {
  import opened PyOps
  import opened Text

  /** `vocab`: its keys, listed in the order the model fixes, and the id of
      each key. */
  datatype Dict<K> = Dict(keys: seq<K>, ids: map<K, int>)

  /** No two elements of `s` are equal. */
  ghost predicate Distinct<K>(s: seq<K>)
  {
    forall i, j :: 0 <= i < j < |s| ==> s[i] != s[j]
  }

  /** The elements of `s`. */
  ghost function SetOf<K>(s: seq<K>): set<K>
    decreases |s|
  {
    if |s| == 0 then {} else SetOf(s[..|s| - 1]) + {s[|s| - 1]}
  }

  /** `SetOf` has the elements of the sequence and no others. */
  lemma {:induction false} SetOfMembers<K>(s: seq<K>)
    ensures forall x :: x in SetOf(s) <==> x in s
    decreases |s|
  {
    if |s| > 0 {
      var n := |s| - 1;
      SetOfMembers(s[..n]);
      assert s == s[..n] + [s[n]];
    }
  }

  /** `keys` lists every key of `ids`, each exactly once. */
  ghost predicate WellFormed<K>(d: Dict<K>)
  {
    d.ids.Keys == SetOf(d.keys) && Distinct(d.keys)
  }

  /** Each listed key is in the map and each key of the map is listed. */
  lemma WellFormedMembers<K>(d: Dict<K>)
    requires WellFormed(d)
    ensures forall i :: 0 <= i < |d.keys| ==> d.keys[i] in d.ids
    ensures forall w :: w in d.ids ==> w in d.keys
  {
    SetOfMembers(d.keys);
  }

  /** The ids are distinct and lie in `0 .. len(vocab) - 1`. */
  ghost predicate Dense<K>(d: Dict<K>)
  {
    (forall w :: w in d.ids ==> 0 <= d.ids[w] < |d.ids|)
    && (forall w1, w2 :: w1 in d.ids && w2 in d.ids && w1 != w2 ==> d.ids[w1] != d.ids[w2])
  }

  /** `d2` keeps every entry of `d1`, with the same id. */
  ghost predicate Extends<K>(d1: Dict<K>, d2: Dict<K>)
  {
    forall w :: w in d1.ids ==> w in d2.ids && d2.ids[w] == d1.ids[w]
  }

  /** Every word of `ws` is a key. */
  ghost predicate Knows<K>(d: Dict<K>, ws: seq<K>)
  {
    forall i :: 0 <= i < |ws| ==> ws[i] in d.ids
  }

  /** `vocab[w] = id`: `w` gets the new id and every other entry is kept. A
      new key is appended to the key list and an existing key stays where it
      was: the listing order is the model's choice. */
  function Put<K(!new)>(d: Dict<K>, w: K, id: int): (r: Dict<K>)
    ensures w in r.ids && r.ids[w] == id
    ensures forall v :: v in d.ids && v != w ==> v in r.ids && r.ids[v] == d.ids[v]
    ensures forall v :: v in r.ids <==> v in d.ids || v == w
    ensures w !in d.ids ==> r.keys == d.keys + [w] && |r.ids| == |d.ids| + 1
    ensures w in d.ids ==> r.keys == d.keys && |r.ids| == |d.ids|
  {
    if w in d.ids then Dict(d.keys, d.ids[w := id]) else Dict(d.keys + [w], d.ids[w := id])
  }

  /** `Put` keeps the key list in step with the map. */
  lemma PutWellFormed<K(!new)>(d: Dict<K>, w: K, id: int)
    requires WellFormed(d)
    ensures WellFormed(Put(d, w, id))
  {
    var r := Put(d, w, id);
    if w !in d.ids {
      SetOfMembers(d.keys);
      assert r.keys[..|d.keys|] == d.keys;
      assert r.ids.Keys == d.ids.Keys + {w};
    } else {
      assert r.ids.Keys == d.ids.Keys;
    }
  }

  /** A dict display `{k0: v0, k1: v1, ...}`, entered from left to right. */
  function FromPairs<K(!new)>(names: seq<K>, vals: seq<int>): (d: Dict<K>)
    requires |names| == |vals|
    decreases |names|
  {
    if |names| == 0 then Dict([], map[])
    else
      var n := |names| - 1;
      Put(FromPairs(names[..n], vals[..n]), names[n], vals[n])
  }

  /** A dict display is well formed. */
  lemma {:induction false} FromPairsWellFormed<K(!new)>(names: seq<K>, vals: seq<int>)
    requires |names| == |vals|
    ensures WellFormed(FromPairs(names, vals))
    decreases |names|
  {
    if |names| > 0 {
      var n := |names| - 1;
      FromPairsWellFormed(names[..n], vals[..n]);
      PutWellFormed(FromPairs(names[..n], vals[..n]), names[n], vals[n]);
    }
  }

  /** A dict display with distinct keys holds each of them with its own
      value; the model lists them in the order they are written. */
  lemma {:induction false} FromPairsDistinct<K(!new)>(names: seq<K>, vals: seq<int>)
    requires |names| == |vals| && Distinct(names)
    ensures FromPairs(names, vals).keys == names && |FromPairs(names, vals).ids| == |names|
    ensures forall i :: 0 <= i < |names| ==> names[i] in FromPairs(names, vals).ids && FromPairs(names, vals).ids[names[i]] == vals[i]
    decreases |names|
  {
    if |names| > 0 {
      var n := |names| - 1;
      var d := FromPairs(names[..n], vals[..n]);
      assert Distinct(names[..n]);
      FromPairsDistinct(names[..n], vals[..n]);
      FromPairsWellFormed(names[..n], vals[..n]);
      assert names[n] !in d.ids by {
        SetOfMembers(names[..n]);
      }
      var r := Put(d, names[n], vals[n]);
      assert FromPairs(names, vals) == r;
      assert r.keys == d.keys + [names[n]];
      assert names == names[..n] + [names[n]];
      forall i | 0 <= i < n
        ensures names[i] in r.ids && r.ids[names[i]] == vals[i]
      {
        assert names[..n][i] == names[i] && vals[..n][i] == vals[i];
        assert names[i] != names[n];
      }
    }
  }

  /** The reserved words of rnn/dataset.py, as its dict display writes them. */
  const DatasetReservedWords: seq<string> := ["<pad>", "<unk>", "<bos>", "<eos>"]

  /** The reserved words of example/train_rnn.py. */
  const ExampleReservedWords: seq<string> := ["<pad>", "<bos>", "<eos>"]

  /** The reserved words differ in their second character. */
  lemma ReservedWordsDistinct()
    ensures Distinct(DatasetReservedWords) && Distinct(ExampleReservedWords)
  {
    var s := DatasetReservedWords;
    assert s[0][1] == 'p' && s[1][1] == 'u' && s[2][1] == 'b' && s[3][1] == 'e';
    var e := ExampleReservedWords;
    assert e[0][1] == 'p' && e[1][1] == 'b' && e[2][1] == 'e';
  }

  /** The initial dictionary of rnn/dataset.py: the four reserved words with
      the ids `ID_PAD`, `ID_UNK`, `ID_BOS`, `ID_EOS` of the `common` module. */
  function Reserved(pad: int, unk: int, bos: int, eos: int): (d: Dict<string>)
    ensures WellFormed(d) && d.keys == DatasetReservedWords && |d.ids| == 4
    ensures forall i :: 0 <= i < 4 ==> DatasetReservedWords[i] in d.ids && d.ids[DatasetReservedWords[i]] == [pad, unk, bos, eos][i]
  {
    ReservedWordsDistinct();
    FromPairsWellFormed(DatasetReservedWords, [pad, unk, bos, eos]);
    FromPairsDistinct(DatasetReservedWords, [pad, unk, bos, eos]);
    FromPairs(DatasetReservedWords, [pad, unk, bos, eos])
  }

  /** A dict display with distinct keys and distinct values below its size is dense. */
  lemma FromPairsDense<K(!new)>(names: seq<K>, vals: seq<int>)
    requires |names| == |vals| && Distinct(names) && Distinct(vals)
    requires forall i :: 0 <= i < |vals| ==> 0 <= vals[i] < |vals|
    ensures Dense(FromPairs(names, vals))
  {
    var d := FromPairs(names, vals);
    FromPairsWellFormed(names, vals);
    FromPairsDistinct(names, vals);
    WellFormedMembers(d);
    forall w | w in d.ids
      ensures 0 <= d.ids[w] < |d.ids|
    {
      var i :| 0 <= i < |names| && names[i] == w;
    }
    forall w1, w2 | w1 in d.ids && w2 in d.ids && w1 != w2
      ensures d.ids[w1] != d.ids[w2]
    {
      var i :| 0 <= i < |names| && names[i] == w1;
      var j :| 0 <= j < |names| && names[j] == w2;
      assert i != j;
      if i < j { assert vals[i] != vals[j]; } else { assert vals[j] != vals[i]; }
    }
  }

  /** With distinct reserved ids below 4 the initial dictionary is dense. */
  lemma ReservedDense(pad: int, unk: int, bos: int, eos: int)
    requires 0 <= pad < 4 && 0 <= unk < 4 && 0 <= bos < 4 && 0 <= eos < 4
    requires pad != unk && pad != bos && pad != eos && unk != bos && unk != eos && bos != eos
    ensures Dense(Reserved(pad, unk, bos, eos))
  {
    ReservedWordsDistinct();
    var v := [pad, unk, bos, eos];
    assert Distinct(v);
    FromPairsDense(DatasetReservedWords, v);
  }

  /** The initial dictionary of example/train_rnn.py: `<pad>` 0, `<bos>` 1, `<eos>` 2. */
  function ExampleReserved(): (d: Dict<string>)
    ensures WellFormed(d) && d.keys == ExampleReservedWords && |d.ids| == 3
    ensures forall i :: 0 <= i < 3 ==> ExampleReservedWords[i] in d.ids && d.ids[ExampleReservedWords[i]] == i
  {
    ReservedWordsDistinct();
    FromPairsWellFormed(ExampleReservedWords, [0, 1, 2]);
    FromPairsDistinct(ExampleReservedWords, [0, 1, 2]);
    FromPairs(ExampleReservedWords, [0, 1, 2])
  }

  /** The example's initial dictionary is dense. */
  lemma ExampleReservedDense()
    ensures Dense(ExampleReserved())
  {
    ReservedWordsDistinct();
    var v := [0, 1, 2];
    assert Distinct(v);
    FromPairsDense(ExampleReservedWords, v);
  }

  /** `if word not in vocab: vocab[word] = len(vocab)`. */
  function Learn<K(!new)>(d: Dict<K>, w: K): (r: Dict<K>)
    ensures w in r.ids && Extends(d, r)
    ensures r.ids[w] == if w in d.ids then d.ids[w] else |d.ids|
    ensures w !in d.ids ==> |r.ids| == |d.ids| + 1
  {
    if w in d.ids then d else Put(d, w, |d.ids|)
  }

  /** Adding a word keeps the ids distinct and below `len(vocab)`. */
  lemma LearnDense<K(!new)>(d: Dict<K>, w: K)
    requires Dense(d)
    ensures Dense(Learn(d, w))
  {
    var r := Learn(d, w);
    if w !in d.ids {
      forall v1, v2 | v1 in r.ids && v2 in r.ids && v1 != v2
        ensures r.ids[v1] != r.ids[v2]
      {
        if v1 != w && v2 != w {
          assert d.ids[v1] != d.ids[v2];
        }
      }
    }
  }

  /** The dictionary after the words `ws`, in order, have been looked up. */
  function LearnAll<K(!new)>(d: Dict<K>, ws: seq<K>): (r: Dict<K>)
    ensures Extends(d, r) && Knows(r, ws)
    decreases |ws|
  {
    if |ws| == 0 then d
    else
      var n := |ws| - 1;
      Learn(LearnAll(d, ws[..n]), ws[n])
  }

  /** Looking up `ws` adds exactly the words of `ws` that were not keys. */
  lemma {:induction false} LearnAllKeys<K(!new)>(d: Dict<K>, ws: seq<K>)
    ensures forall v :: v in LearnAll(d, ws).ids <==> v in d.ids || v in ws
    decreases |ws|
  {
    if |ws| > 0 {
      var n := |ws| - 1;
      LearnAllKeys(d, ws[..n]);
      assert ws == ws[..n] + [ws[n]];
      var r := LearnAll(d, ws);
      forall v | v in r.ids
        ensures v in d.ids || v in ws
      {
        if v != ws[n] {
          assert v in LearnAll(d, ws[..n]).ids;
        }
      }
    }
  }

  /** Looking up a whole sentence keeps both invariants of the dictionary. */
  lemma {:induction false} LearnAllKeeps<K(!new)>(d: Dict<K>, ws: seq<K>)
    ensures WellFormed(d) ==> WellFormed(LearnAll(d, ws))
    ensures Dense(d) ==> Dense(LearnAll(d, ws))
    decreases |ws|
  {
    if |ws| > 0 {
      var n := |ws| - 1;
      LearnAllKeeps(d, ws[..n]);
      if WellFormed(d) && ws[n] !in LearnAll(d, ws[..n]).ids {
        PutWellFormed(LearnAll(d, ws[..n]), ws[n], |LearnAll(d, ws[..n]).ids|);
      }
      if Dense(d) {
        LearnDense(LearnAll(d, ws[..n]), ws[n]);
      }
    }
  }

  /** The ids of `ws` in `d`. */
  function Lookup<K>(d: Dict<K>, ws: seq<K>): (r: seq<int>)
    requires Knows(d, ws)
    ensures |r| == |ws|
    ensures forall i :: 0 <= i < |ws| ==> r[i] == d.ids[ws[i]]
  {
    seq(|ws|, i requires 0 <= i < |ws| => d.ids[ws[i]])
  }

  /** Looking up known words gives the same ids in any extension. */
  lemma LookupStable<K>(d1: Dict<K>, d2: Dict<K>, ws: seq<K>)
    requires Knows(d1, ws) && Extends(d1, d2)
    ensures Knows(d2, ws) && Lookup(d2, ws) == Lookup(d1, ws)
  {
  }

  /** `Extends` is transitive. */
  lemma ExtendsTrans<K>(d1: Dict<K>, d2: Dict<K>, d3: Dict<K>)
    requires Extends(d1, d2) && Extends(d2, d3)
    ensures Extends(d1, d3)
  {
  }

  /** The ids the inner loop appends, word by word, each taken right after
      the word was looked up. */
  function Encode<K(!new)>(d: Dict<K>, ws: seq<K>): (r: seq<int>)
    ensures |r| == |ws|
    ensures r == Lookup(LearnAll(d, ws), ws)
    decreases |ws|
  {
    if |ws| == 0 then []
    else
      var n := |ws| - 1;
      var front := Encode(d, ws[..n]);
      var r := front + [LearnAll(d, ws).ids[ws[n]]];
      LookupStable(LearnAll(d, ws[..n]), LearnAll(d, ws), ws[..n]);
      r
  }

  /** Each encoded word gets its own id: with a dense dictionary two
      positions share an id exactly when they hold the same word. */
  lemma EncodeInjective<K(!new)>(d: Dict<K>, ws: seq<K>, i: nat, j: nat)
    requires Dense(d) && i < |ws| && j < |ws|
    ensures Encode(d, ws)[i] == Encode(d, ws)[j] <==> ws[i] == ws[j]
  {
    LearnAllKeeps(d, ws);
  }

  /** A word never seen before gets `len(vocab)` as its id. */
  lemma NewWordId<K(!new)>(d: Dict<K>, w: K)
    requires w !in d.ids
    ensures Encode(d, [w]) == [|d.ids|]
  {
    assert [w][..0] == [];
  }

  /** The words of one stripped line. */
  function Words(s: string): seq<string>
  {
    Split(s, ' ')
  }

  /** One more word looked up and encoded. */
  lemma EncodeSnoc<K(!new)>(d: Dict<K>, ws: seq<K>, k: nat)
    requires k < |ws|
    ensures LearnAll(d, ws[..k + 1]) == Learn(LearnAll(d, ws[..k]), ws[k])
    ensures Encode(d, ws[..k + 1]) == Encode(d, ws[..k]) + [LearnAll(d, ws[..k + 1]).ids[ws[k]]]
  {
    assert ws[..k + 1][..k] == ws[..k];
  }

  /** The inner loop over the words of one sentence (rnn/dataset.py:20-27). */
  method EncodeSentence(d: Dict<string>, sentence: string, bos: int, eos: int) returns (r: Dict<string>, wordIds: seq<int>)
    ensures r == LearnAll(d, Words(sentence))
    ensures wordIds == [bos] + Encode(d, Words(sentence)) + [eos]
  {
    var words := Split(sentence, ' ');
    wordIds := [bos];
    r := d;
    for k := 0 to |words|
      invariant r == LearnAll(d, words[..k])
      invariant wordIds == [bos] + Encode(d, words[..k])
    {
      EncodeSnoc(d, words, k);
      var word := words[k];
      if word !in r.ids {
        r := Put(r, word, |r.ids|);
      }
      wordIds := wordIds + [r.ids[word]];
    }
    assert words[..|words|] == words;
    wordIds := wordIds + [eos];
  }

  /** The stripped, non-blank lines of a file, in order. */
  function NonBlank(lines: seq<string>): (r: seq<string>)
    ensures |r| <= |lines|
    ensures forall k :: 0 <= k < |r| ==> |r[k]| > 0
    decreases |lines|
  {
    if |lines| == 0 then []
    else
      var n := |lines| - 1;
      var s := Strip(lines[n]);
      if |s| == 0 then NonBlank(lines[..n]) else NonBlank(lines[..n]) + [s]
  }

  /** The words of each non-blank line, in order. */
  function Sentences(lines: seq<string>): (r: seq<seq<string>>)
    ensures |r| == |NonBlank(lines)|
    ensures forall k :: 0 <= k < |r| ==> r[k] == Words(NonBlank(lines)[k])
  {
    seq(|NonBlank(lines)|, k requires 0 <= k < |NonBlank(lines)| => Words(NonBlank(lines)[k]))
  }

  /** One more line read: a blank one adds nothing, another one adds its stripped text. */
  lemma NonBlankSnoc(lines: seq<string>, i: nat)
    requires i < |lines|
    ensures var s := Strip(lines[i]);
      NonBlank(lines[..i + 1]) == if |s| == 0 then NonBlank(lines[..i]) else NonBlank(lines[..i]) + [s]
  {
    assert lines[..i + 1][..i] == lines[..i];
  }

  /** One more line read: a blank one adds no sentence. */
  lemma SentencesSnoc(lines: seq<string>, i: nat)
    requires i < |lines|
    ensures var s := Strip(lines[i]);
      Sentences(lines[..i + 1]) == if |s| == 0 then Sentences(lines[..i]) else Sentences(lines[..i]) + [Words(s)]
  {
    NonBlankSnoc(lines, i);
    var s := Strip(lines[i]);
    if |s| > 0 {
      var a := Sentences(lines[..i + 1]);
      var b := Sentences(lines[..i]) + [Words(s)];
      assert |a| == |b|;
      forall k | 0 <= k < |a|
        ensures a[k] == b[k]
      {
        if k < |a| - 1 {
          assert NonBlank(lines[..i + 1])[k] == NonBlank(lines[..i])[k];
        }
      }
    }
  }

  /** The dictionary and the encoded sentences. */
  datatype Corpus<K> = Corpus(vocab: Dict<K>, data: seq<seq<int>>)

  /** Encoding the sentences one after the other, each as
      `[bos] + word ids + [eos]`, with the dictionary growing as it goes. */
  function EncodeAll<K(!new)>(d: Dict<K>, sents: seq<seq<K>>, bos: int, eos: int): (c: Corpus<K>)
    ensures |c.data| == |sents|
    ensures Extends(d, c.vocab)
    decreases |sents|
  {
    if |sents| == 0 then Corpus(d, [])
    else
      var n := |sents| - 1;
      var c := EncodeAll(d, sents[..n], bos, eos);
      var r := Corpus(LearnAll(c.vocab, sents[n]), c.data + [[bos] + Encode(c.vocab, sents[n]) + [eos]]);
      ExtendsTrans(d, c.vocab, r.vocab);
      r
  }

  /** Encoding keeps both invariants of the dictionary. */
  lemma {:induction false} EncodeAllKeeps<K(!new)>(d: Dict<K>, sents: seq<seq<K>>, bos: int, eos: int)
    ensures WellFormed(d) ==> WellFormed(EncodeAll(d, sents, bos, eos).vocab)
    ensures Dense(d) ==> Dense(EncodeAll(d, sents, bos, eos).vocab)
    decreases |sents|
  {
    if |sents| > 0 {
      var n := |sents| - 1;
      EncodeAllKeeps(d, sents[..n], bos, eos);
      LearnAllKeeps(EncodeAll(d, sents[..n], bos, eos).vocab, sents[n]);
    }
  }

  /** The `k`-th encoded sentence is `[bos] + ids of its words + [eos]`,
      with the ids of the final dictionary. */
  lemma {:induction false} EncodeAllRow<K(!new)>(d: Dict<K>, sents: seq<seq<K>>, bos: int, eos: int, k: nat)
    requires k < |sents|
    ensures Knows(EncodeAll(d, sents, bos, eos).vocab, sents[k])
    ensures EncodeAll(d, sents, bos, eos).data[k]
      == [bos] + Lookup(EncodeAll(d, sents, bos, eos).vocab, sents[k]) + [eos]
    decreases |sents|
  {
    var n := |sents| - 1;
    if k < n {
      var c := EncodeAll(d, sents[..n], bos, eos);
      EncodeAllRow(d, sents[..n], bos, eos, k);
      assert sents[..n][k] == sents[k];
      LookupStable(c.vocab, EncodeAll(d, sents, bos, eos).vocab, sents[k]);
    }
  }

  /** What the loop over the lines of the file computes. */
  function Read(d: Dict<string>, lines: seq<string>, bos: int, eos: int): (c: Corpus<string>)
    ensures |c.data| == |NonBlank(lines)|
  {
    EncodeAll(d, Sentences(lines), bos, eos)
  }

  /** One more line read: a blank line changes nothing, another one is
      encoded with the dictionary read so far and appended. */
  lemma ReadSnoc(d: Dict<string>, lines: seq<string>, i: nat, bos: int, eos: int)
    requires i < |lines|
    ensures var s := Strip(lines[i]);
      var c := Read(d, lines[..i], bos, eos);
      Read(d, lines[..i + 1], bos, eos)
      == if |s| == 0 then c
         else Corpus(LearnAll(c.vocab, Words(s)), c.data + [[bos] + Encode(c.vocab, Words(s)) + [eos]])
  {
    SentencesSnoc(lines, i);
    var sents := Sentences(lines[..i + 1]);
    if |Strip(lines[i])| > 0 {
      assert sents[..|sents| - 1] == Sentences(lines[..i]);
    }
  }

  /** The loop over the lines of the file (rnn/dataset.py:16-28): strip each
      line, skip it when blank, otherwise encode it and append it. */
  method ReadLines(d: Dict<string>, lines: seq<string>, bos: int, eos: int) returns (vocab: Dict<string>, dataset: seq<seq<int>>)
    ensures Corpus(vocab, dataset) == Read(d, lines, bos, eos)
  {
    vocab := d;
    dataset := [];
    for i := 0 to |lines|
      invariant Corpus(vocab, dataset) == Read(d, lines[..i], bos, eos)
    {
      ReadSnoc(d, lines, i, bos, eos);
      var sentence := Strip(lines[i]);
      if |sentence| == 0 {
        continue;
      }
      var wordIds;
      vocab, wordIds := EncodeSentence(vocab, sentence, bos, eos);
      dataset := dataset + [wordIds];
    }
    assert lines[..|lines|] == lines;
  }

  /** `vocab_inv` as the loop over `vocab.items()` builds it, visiting the
      keys in the listed order; where two keys share an id the one visited
      last wins. (Every key of a well-formed dictionary is in its map, so the
      `else` branch is never taken there.) */
  function InverseOf<K>(keys: seq<K>, ids: map<K, int>): (inv: map<int, K>)
    ensures forall k :: k in inv ==> inv[k] in ids && ids[inv[k]] == k && inv[k] in keys
    ensures forall i :: 0 <= i < |keys| && keys[i] in ids ==> ids[keys[i]] in inv
    decreases |keys|
  {
    if |keys| == 0 then map[]
    else
      var n := |keys| - 1;
      var inv := InverseOf(keys[..n], ids);
      if keys[n] in ids then inv[ids[keys[n]] := keys[n]] else inv
  }

  /** Distinct ids make the inverse independent of the order in which the
      loop visits the keys: any two listings of the same keys give the same
      `vocab_inv`. */
  lemma InverseOfOrderFree<K>(keys1: seq<K>, keys2: seq<K>, ids: map<K, int>)
    requires forall w :: w in keys1 <==> w in keys2
    requires forall i :: 0 <= i < |keys1| ==> keys1[i] in ids
    requires forall w1, w2 :: w1 in ids && w2 in ids && w1 != w2 ==> ids[w1] != ids[w2]
    ensures InverseOf(keys1, ids) == InverseOf(keys2, ids)
  {
    var inv1, inv2 := InverseOf(keys1, ids), InverseOf(keys2, ids);
    forall k | k in inv1
      ensures k in inv2 && inv2[k] == inv1[k]
    {
      var i :| 0 <= i < |keys2| && keys2[i] == inv1[k];
    }
    forall k | k in inv2
      ensures k in inv1
    {
      var i :| 0 <= i < |keys1| && keys1[i] == inv2[k];
    }
    assert inv1.Keys == inv2.Keys;
  }

  /** With distinct ids the inverse maps every id back to its word. */
  lemma {:induction false} InverseOfInjective<K>(keys: seq<K>, ids: map<K, int>)
    requires forall i :: 0 <= i < |keys| ==> keys[i] in ids
    requires forall w1, w2 :: w1 in ids && w2 in ids && w1 != w2 ==> ids[w1] != ids[w2]
    ensures forall i :: 0 <= i < |keys| ==> InverseOf(keys, ids)[ids[keys[i]]] == keys[i]
    decreases |keys|
  {
    if |keys| > 0 {
      var n := |keys| - 1;
      InverseOfInjective(keys[..n], ids);
      forall i | 0 <= i < n
        ensures InverseOf(keys, ids)[ids[keys[i]]] == keys[i]
      {
        assert keys[..n][i] == keys[i];
      }
    }
  }

  lemma InverseOfStep<K>(keys: seq<K>, ids: map<K, int>, i: nat)
    requires i < |keys| && keys[i] in ids
    ensures InverseOf(keys[..i + 1], ids) == InverseOf(keys[..i], ids)[ids[keys[i]] := keys[i]]
  {
    assert keys[..i + 1][..i] == keys[..i];
  }

  /** The loop of rnn/dataset.py:30-32 that builds `vocab_inv`. */
  method Invert<K>(d: Dict<K>) returns (inv: map<int, K>)
    requires WellFormed(d)
    ensures inv == InverseOf(d.keys, d.ids)
  {
    WellFormedMembers(d);
    inv := map[];
    for i := 0 to |d.keys|
      invariant inv == InverseOf(d.keys[..i], d.ids)
    {
      InverseOfStep(d.keys, d.ids, i);
      inv := inv[d.ids[d.keys[i]] := d.keys[i]];
    }
    assert d.keys[..|d.keys|] == d.keys;
  }

  /** `vocab_inv[vocab[w]] == w` for every word of a dense dictionary, and
      `vocab_inv` holds exactly the ids in use. */
  lemma InverseRoundTrip<K>(d: Dict<K>)
    requires WellFormed(d) && Dense(d)
    ensures forall w :: w in d.ids ==> d.ids[w] in InverseOf(d.keys, d.ids) && InverseOf(d.keys, d.ids)[d.ids[w]] == w
    ensures forall k :: k in InverseOf(d.keys, d.ids) <==> exists w :: w in d.ids && d.ids[w] == k
  {
    WellFormedMembers(d);
    InverseOfInjective(d.keys, d.ids);
    forall w | w in d.ids
      ensures d.ids[w] in InverseOf(d.keys, d.ids) && InverseOf(d.keys, d.ids)[d.ids[w]] == w
    {
      var i :| 0 <= i < |d.keys| && d.keys[i] == w;
    }
  }

  /** Reading ids back through `vocab_inv`. */
  function Decode<K>(inv: map<int, K>, row: seq<int>): (ws: seq<K>)
    requires forall j :: 0 <= j < |row| ==> row[j] in inv
    ensures |ws| == |row|
    ensures forall j :: 0 <= j < |row| ==> ws[j] == inv[row[j]]
  {
    seq(|row|, j requires 0 <= j < |row| => inv[row[j]])
  }

  /** Round trip of the encoding: starting from a dense dictionary, the
      `k`-th encoded sentence without its `bos` and `eos` decodes through
      `vocab_inv` to the `k`-th sentence. */
  lemma EncodeAllRoundTrip<K(!new)>(d: Dict<K>, sents: seq<seq<K>>, bos: int, eos: int, k: nat)
    requires WellFormed(d) && Dense(d) && k < |sents|
    ensures var c := EncodeAll(d, sents, bos, eos);
      var row := c.data[k];
      var inv := InverseOf(c.vocab.keys, c.vocab.ids);
      |row| == |sents[k]| + 2 && row[0] == bos && row[|row| - 1] == eos
      && (forall j :: 1 <= j < |row| - 1 ==> row[j] in inv)
      && Decode(inv, row[1..|row| - 1]) == sents[k]
  {
    var c := EncodeAll(d, sents, bos, eos);
    EncodeAllRow(d, sents, bos, eos, k);
    EncodeAllKeeps(d, sents, bos, eos);
    InverseRoundTrip(c.vocab);
    var row := c.data[k];
    assert row[1..|row| - 1] == Lookup(c.vocab, sents[k]);
  }

  /** Round trip of the whole reader: the `k`-th sentence of the dataset
      decodes through `vocab_inv` to the words of the `k`-th non-blank line. */
  lemma ReadRoundTrip(d: Dict<string>, lines: seq<string>, bos: int, eos: int, k: nat)
    requires WellFormed(d) && Dense(d) && k < |NonBlank(lines)|
    ensures var c := Read(d, lines, bos, eos);
      var row := c.data[k];
      var inv := InverseOf(c.vocab.keys, c.vocab.ids);
      |row| >= 3 && row[0] == bos && row[|row| - 1] == eos
      && (forall j :: 1 <= j < |row| - 1 ==> row[j] in inv)
      && Decode(inv, row[1..|row| - 1]) == Words(NonBlank(lines)[k])
  {
    EncodeAllRoundTrip(d, Sentences(lines), bos, eos, k);
  }
}
