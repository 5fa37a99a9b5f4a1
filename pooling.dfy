/** The pooling recurrence of `QRNN.pool` (qrnn.py:107-129) as a function of
    the activated gates and the state the layer starts from. Step `t`:
      - no cell state yet: `c = (1 - f) * z * x`,
      - otherwise:         `c = f * c_prev + i * z * x`, with `i = 1 - f` when
                           there is no input gate,
      - `h = c` without an output gate, `h = o * c` with one,
      - `h` is appended as a new column of `H`.
    `x` is the skip-mask value of step `t` (1 without a mask). */
module Pooling {
  import opened PyOps
  import opened Tensor

  /** The activated gates of one call: candidate `z`, forget `f`, and the
      output gate `o` (fo, ifo) and input gate `i` (ifo) when the mode has them. */
  datatype Gates = Gates(z: seq<Frame>, f: seq<Frame>, o: Option<seq<Frame>>, i: Option<seq<Frame>>)

  /** What one iteration of the loop reads: `zt`, `ft`, `ot` and `it` when the
      mode has those gates, and the skip value `xt`. */
  datatype Step = Step(z: Frame, f: Frame, o: Option<Frame>, i: Option<Frame>, x: real)

  /** The layer's recurrent state: last cell state, last hidden state, and all
      hidden states `H`, each `None` when absent. */
  datatype State = State(ct: Option<Frame>, ht: Option<Frame>, H: Option<seq<Frame>>)

  /** The state after `reset_state`. */
  const Empty: State := State(None, None, None)

  /** The number of time steps of a call. */
  function Steps(g: Gates): nat { |g.z| }

  /** Every gate has one entry per step, and the skip mask has an entry for
      every step (the loop reads `skip_mask[:, t]` only for `t < T`). */
  predicate Aligned(g: Gates, skip: Option<seq<bool>>)
  {
    && |g.f| == |g.z|
    && (g.o.Some? ==> |g.o.value| == |g.z|)
    && (g.i.Some? ==> |g.i.value| == |g.z|)
    && (skip.Some? ==> |skip.value| >= |g.z|)
  }

  /** `xt` of step `t`: 1 without a skip mask, otherwise the mask entry as 0 or 1. */
  function SkipValue(skip: Option<seq<bool>>, t: nat): real
    requires skip.Some? ==> t < |skip.value|
  {
    if skip.None? || skip.value[t] then 1.0 else 0.0
  }

  /** Frame `t` of an optional gate. */
  function At(gate: Option<seq<Frame>>, t: nat): Option<Frame>
    requires gate.Some? ==> t < |gate.value|
  {
    if gate.None? then None else Some(gate.value[t])
  }

  /** The inputs of iteration `t`. */
  function StepAt(g: Gates, skip: Option<seq<bool>>, t: nat): Step
    requires Aligned(g, skip) && t < Steps(g)
  {
    Step(g.z[t], g.f[t], At(g.o, t), At(g.i, t), SkipValue(skip, t))
  }

  /** The inputs of all iterations, in order. */
  function Zip(g: Gates, skip: Option<seq<bool>>): (r: seq<Step>)
    requires Aligned(g, skip)
    ensures |r| == Steps(g)
    ensures forall t :: 0 <= t < |r| ==> r[t] == StepAt(g, skip, t)
  {
    seq(Steps(g), t requires 0 <= t < Steps(g) => StepAt(g, skip, t))
  }

  /** The new cell state of one step. */
  function Cell(prev: Option<Frame>, z: Frame, f: Frame, i: Option<Frame>, x: real): (c: Frame)
    ensures |c| == |f|
  {
    if prev.None? then Scale(Mul(OneMinus(f), z), x)
    else
      var it := if i.None? then OneMinus(f) else i.value;
      Add(Mul(f, prev.value), Scale(Mul(it, z), x))
  }

  /** The new hidden state of one step. */
  function Hidden(c: Frame, o: Option<Frame>): (h: Frame)
    ensures o.None? ==> h == c
    ensures o.Some? ==> |h| == |o.value|
  {
    if o.None? then c else Mul(o.value, c)
  }

  /** The columns of `H` (none when `H` is absent). */
  function Columns(s: State): seq<Frame>
  {
    if s.H.None? then [] else s.H.value
  }

  /** One iteration of the loop of `pool`. */
  function Advance(s: State, st: Step): State
  {
    var c := Cell(s.ct, st.z, st.f, st.i, st.x);
    var h := Hidden(c, st.o);
    State(Some(c), Some(h), Some(Columns(s) + [h]))
  }

  /** The state after the iterations `steps`, in order. */
  function Run(s: State, steps: seq<Step>): State
    decreases |steps|
  {
    if |steps| == 0 then s else Advance(Run(s, steps[..|steps| - 1]), steps[|steps| - 1])
  }

  /** One more iteration at the end. */
  lemma RunSnoc(s: State, steps: seq<Step>, st: Step)
    ensures Run(s, steps + [st]) == Advance(Run(s, steps), st)
  {
    assert (steps + [st])[..|steps|] == steps;
  }

  /** One more iteration of a loop over a prefix of `steps`. */
  lemma RunPrefixStep(s: State, steps: seq<Step>, t: nat)
    requires t < |steps|
    ensures Run(s, steps[..t + 1]) == Advance(Run(s, steps[..t]), steps[t])
  {
    assert steps[..t + 1][..t] == steps[..t];
  }

  /** Each step appends exactly one column to `H` and keeps the columns that
      were there; once a step has run, the cell and hidden states are set. */
  lemma {:induction false} RunAppends(s: State, steps: seq<Step>)
    ensures |Columns(Run(s, steps))| == |Columns(s)| + |steps|
    ensures Columns(Run(s, steps))[..|Columns(s)|] == Columns(s)
    ensures |steps| > 0 ==> Run(s, steps).ct.Some? && Run(s, steps).ht.Some? && Run(s, steps).H.Some?
  {
    if |steps| > 0 {
      var prev := Run(s, steps[..|steps| - 1]);
      RunAppends(s, steps[..|steps| - 1]);
      var cur := Columns(Run(s, steps));
      assert cur == Columns(prev) + [Run(s, steps).ht.value];
      assert cur[..|Columns(s)|] == Columns(prev)[..|Columns(s)|];
    }
  }

  /** Without a reset the state carries over: running `a` and then `b`
      is running `a + b` from the same start. */
  lemma {:induction false} RunConcat(s: State, a: seq<Step>, b: seq<Step>)
    ensures Run(s, a + b) == Run(Run(s, a), b)
  {
    if |b| == 0 {
      assert a + b == a;
    } else {
      var b' := b[..|b| - 1];
      var last := b[|b| - 1];
      assert b == b' + [last];
      assert a + b == (a + b') + [last];
      RunConcat(s, a, b');
      RunSnoc(s, a + b', last);
      RunSnoc(Run(s, a), b', last);
    }
  }

  /** Column `|H| + j` after the call is the hidden state step `j` produced. */
  lemma ColumnIsStepOutput(s: State, steps: seq<Step>, j: nat)
    requires j < |steps|
    ensures |Columns(Run(s, steps))| == |Columns(s)| + |steps|
    ensures Run(s, steps[..j + 1]).ht.Some?
    ensures Columns(Run(s, steps))[|Columns(s)| + j] == Run(s, steps[..j + 1]).ht.value
  {
    var front := steps[..j + 1];
    var mid := Run(s, front);
    assert steps == front + steps[j + 1..];
    RunConcat(s, front, steps[j + 1..]);
    RunAppends(s, front);
    RunAppends(mid, steps[j + 1..]);
    var all := Columns(Run(s, steps));
    var k := |Columns(s)|;
    assert Columns(mid) == Columns(Run(s, front[..j])) + [mid.ht.value];
    RunAppends(s, front[..j]);
    assert all[..|Columns(mid)|] == Columns(mid);
    assert all[k + j] == all[..|Columns(mid)|][k + j];
  }

  /** Two loops from the same state whose first `n` iterations agree
      produce the same first `n` new columns of `H`. */
  lemma RunPrefixColumns(s: State, a: seq<Step>, b: seq<Step>, n: nat)
    requires n <= |a| && n <= |b| && a[..n] == b[..n]
    ensures |Columns(s)| + n <= |Columns(Run(s, a))| && |Columns(s)| + n <= |Columns(Run(s, b))|
    ensures forall j :: |Columns(s)| <= j < |Columns(s)| + n ==> Columns(Run(s, a))[j] == Columns(Run(s, b))[j]
  {
    RunAppends(s, a);
    RunAppends(s, b);
    var k := |Columns(s)|;
    forall j | k <= j < k + n
      ensures Columns(Run(s, a))[j] == Columns(Run(s, b))[j]
    {
      PrefixOfPrefix(a, b, n, j - k + 1);
      ColumnIsStepOutput(s, a, j - k);
      ColumnIsStepOutput(s, b, j - k);
    }
  }

  /** Sequences that agree on their first `n` elements agree on every
      shorter prefix. */
  lemma PrefixOfPrefix<T>(a: seq<T>, b: seq<T>, n: nat, m: nat)
    requires m <= n <= |a| && n <= |b| && a[..n] == b[..n]
    ensures a[..m] == b[..m]
  {
    assert a[..m] == a[..n][..m];
    assert b[..m] == b[..n][..m];
  }

  /** Causality of the recurrence: the state after `n` steps is decided by
      the first `n` steps alone, whatever later steps hold. */
  lemma RunCausal(s: State, g1: Gates, skip1: Option<seq<bool>>, g2: Gates, skip2: Option<seq<bool>>, n: nat)
    requires Aligned(g1, skip1) && Aligned(g2, skip2)
    requires n <= Steps(g1) && n <= Steps(g2)
    requires forall t :: 0 <= t < n ==> StepAt(g1, skip1, t) == StepAt(g2, skip2, t)
    ensures Run(s, Zip(g1, skip1)[..n]) == Run(s, Zip(g2, skip2)[..n])
  {
    assert Zip(g1, skip1)[..n] == Zip(g2, skip2)[..n];
  }

  /** The gates of two consecutive calls laid end to end. */
  function ConcatGates(g1: Gates, g2: Gates): (g: Gates)
    requires g1.o.Some? == g2.o.Some? && g1.i.Some? == g2.i.Some?
  {
    Gates(g1.z + g2.z, g1.f + g2.f,
          if g1.o.None? then None else Some(g1.o.value + g2.o.value),
          if g1.i.None? then None else Some(g1.i.value + g2.i.value))
  }

  function ConcatSkip(skip1: Option<seq<bool>>, skip2: Option<seq<bool>>): Option<seq<bool>>
    requires skip1.Some? == skip2.Some?
  {
    if skip1.None? then None else Some(skip1.value + skip2.value)
  }

  /** Two calls without a reset in between compute what one call over both
      inputs would: the iterations of the joined gates are those of the first
      call followed by those of the second. */
  lemma ZipConcat(g1: Gates, skip1: Option<seq<bool>>, g2: Gates, skip2: Option<seq<bool>>)
    requires Aligned(g1, skip1) && Aligned(g2, skip2)
    requires g1.o.Some? == g2.o.Some? && g1.i.Some? == g2.i.Some? && skip1.Some? == skip2.Some?
    requires skip1.Some? ==> |skip1.value| == Steps(g1)
    ensures Aligned(ConcatGates(g1, g2), ConcatSkip(skip1, skip2))
    ensures Zip(ConcatGates(g1, g2), ConcatSkip(skip1, skip2)) == Zip(g1, skip1) + Zip(g2, skip2)
  {
    var g := ConcatGates(g1, g2);
    var skip := ConcatSkip(skip1, skip2);
    var m := Steps(g1);
    assert Aligned(g, skip);
    forall t | 0 <= t < Steps(g)
      ensures Zip(g, skip)[t] == (Zip(g1, skip1) + Zip(g2, skip2))[t]
    {
      if t < m {
        assert StepAt(g, skip, t) == StepAt(g1, skip1, t);
      } else {
        assert StepAt(g, skip, t) == StepAt(g2, skip2, t - m);
      }
    }
  }

  /** At the first step of a state without a cell, `c = (1 - f) * z * x` in
      every mode: the input gate of ifo-pooling is not used there. */
  lemma FirstStepIgnoresInputGate(s: State, st: Step)
    requires s.ct.None?
    ensures Advance(s, st).ct == Some(Scale(Mul(OneMinus(st.f), st.z), st.x))
    ensures Advance(s, st) == Advance(s, st.(i := None))
  {
  }

  /** A step the skip mask turns off adds no new content: with a prior cell
      state the cell only decays, `c = f * c_prev`; without one it is 0. */
  lemma SkippedStepDecays(s: State, st: Step)
    requires st.x == 0.0 && |st.z| == |st.f|
    requires s.ct.Some? ==> |s.ct.value| == |st.f|
    ensures s.ct.Some? ==> Advance(s, st).ct == Some(Mul(st.f, s.ct.value))
    ensures s.ct.None? ==> Advance(s, st).ct == Some(Zeros(|st.f|))
  {
    var c := Advance(s, st).ct.value;
    if s.ct.Some? {
      var d := Mul(st.f, s.ct.value);
      assert forall j :: 0 <= j < |st.f| ==> c[j] == d[j];
      assert c == d;
    } else {
      assert forall j :: 0 <= j < |st.f| ==> c[j] == 0.0;
      assert c == Zeros(|st.f|);
    }
  }

  /** In f-pooling (no output gate) the hidden state is the cell state. */
  lemma FPoolingHiddenIsCell(s: State, st: Step)
    requires st.o.None?
    ensures Advance(s, st).ht == Advance(s, st).ct
  {
  }

  /** The input gate equals `1 - f` at every step. */
  predicate CoupledInputGate(steps: seq<Step>)
  {
    forall t :: 0 <= t < |steps| ==> steps[t].i == Some(OneMinus(steps[t].f))
  }

  /** The same steps without their input gates. */
  function DropInputGate(steps: seq<Step>): (r: seq<Step>)
    ensures |r| == |steps|
    ensures forall t :: 0 <= t < |r| ==> r[t] == steps[t].(i := None)
  {
    seq(|steps|, t requires 0 <= t < |steps| => steps[t].(i := None))
  }

  /** ifo-pooling whose input gate equals `1 - f` is fo-pooling. */
  lemma {:induction false} CoupledInputGateIsFo(s: State, steps: seq<Step>)
    requires CoupledInputGate(steps)
    ensures Run(s, steps) == Run(s, DropInputGate(steps))
  {
    if |steps| > 0 {
      var n := |steps| - 1;
      assert DropInputGate(steps)[..n] == DropInputGate(steps[..n]);
      CoupledInputGateIsFo(s, steps[..n]);
    }
  }

  /** f- or fo-pooling steps with a forget gate of 1 in `w` channels. */
  predicate ForgetOne(steps: seq<Step>, w: nat)
  {
    forall t :: 0 <= t < |steps| ==>
      steps[t].f == Ones(w) && |steps[t].z| == w && steps[t].i.None?
  }

  /** One step of f- or fo-pooling with a forget gate of 1 keeps the cell
      state (or yields 0 when there is none). */
  lemma CellForgetOne(prev: Option<Frame>, z: Frame, w: nat, x: real)
    requires |z| == w && (prev.Some? ==> |prev.value| == w)
    ensures Cell(prev, z, Ones(w), None, x) == if prev.None? then Zeros(w) else prev.value
  {
    var c := Cell(prev, z, Ones(w), None, x);
    var keep := Mul(OneMinus(Ones(w)), z);
    forall j | 0 <= j < w
      ensures keep[j] == 0.0
    {
      assert OneMinus(Ones(w))[j] == 0.0;
    }
    if prev.None? {
      assert forall j :: 0 <= j < w ==> c[j] == keep[j] * x;
      assert c == Zeros(w);
    } else {
      var p := prev.value;
      forall j | 0 <= j < w
        ensures c[j] == p[j]
      {
        assert Mul(Ones(w), p)[j] == p[j];
        assert Scale(keep, x)[j] == 0.0;
      }
      assert c == p;
    }
  }

  /** A forget gate of 1 everywhere (zoneout with ratio 1) freezes the cell
      state of f- and fo-pooling: after any nonempty run it is the prior cell
      state, or 0 when there was none. */
  lemma {:induction false} FrozenForgetGate(s: State, steps: seq<Step>, w: nat)
    requires ForgetOne(steps, w) && 0 < |steps|
    requires s.ct.Some? ==> |s.ct.value| == w
    ensures Run(s, steps).ct == Some(if s.ct.None? then Zeros(w) else s.ct.value)
  {
    var n := |steps| - 1;
    var before := Run(s, steps[..n]);
    if n > 0 {
      FrozenForgetGate(s, steps[..n], w);
    }
    assert before.ct.None? ==> n == 0 && s.ct.None?;
    CellForgetOne(before.ct, steps[n].z, w, steps[n].x);
  }

  /** The part of the state that `pool` keeps `w` channels wide. */
  predicate StateShape(s: State, w: nat)
  {
    && (s.ct.Some? ==> |s.ct.value| == w)
    && (s.ht.Some? ==> |s.ht.value| == w)
    && (s.H.Some? ==> Width(s.H.value, w))
  }

  /** Every step's frames are `w` channels wide. */
  predicate StepsShape(steps: seq<Step>, w: nat)
  {
    forall t :: 0 <= t < |steps| ==>
      && |steps[t].z| == w && |steps[t].f| == w
      && (steps[t].o.Some? ==> |steps[t].o.value| == w)
      && (steps[t].i.Some? ==> |steps[t].i.value| == w)
  }

  /** The loop keeps every part of the state `w` channels wide. */
  lemma {:induction false} RunShape(s: State, steps: seq<Step>, w: nat)
    requires StateShape(s, w) && StepsShape(steps, w)
    ensures StateShape(Run(s, steps), w)
  {
    if |steps| > 0 {
      var n := |steps| - 1;
      RunShape(s, steps[..n], w);
      var prev := Run(s, steps[..n]);
      var cur := Run(s, steps);
      assert cur.H.value == Columns(prev) + [cur.ht.value];
    }
  }

  /** f-pooling on `z = [0.2, 0.5]`, `f = [0.3, 0.7]` from a fresh state:
      `h0 = 0.14`, `h1 = 0.248`. */
  lemma FPoolingExample()
    ensures Run(Empty, [Step([0.2], [0.3], None, None, 1.0), Step([0.5], [0.7], None, None, 1.0)]).H
         == Some([[0.14], [0.248]])
  {
    var st0 := Step([0.2], [0.3], None, None, 1.0);
    var st1 := Step([0.5], [0.7], None, None, 1.0);
    var c1 := Scale(Mul(OneMinus([0.3]), [0.2]), 1.0);
    assert c1[0] == 0.14;
    assert c1 == [0.14];
    var s1 := Advance(Empty, st0);
    assert s1.ct.value == c1 && s1.ht.value == c1 && s1.H.value == [c1];
    var c2 := Add(Mul([0.7], [0.14]), Scale(Mul(OneMinus([0.7]), [0.5]), 1.0));
    assert c2[0] == 0.248;
    assert c2 == [0.248];
    var s2 := Advance(s1, st1);
    assert s2.ct.value == c2;
    assert s2.H.value == [c1] + [c2] == [[0.14], [0.248]];
    RunSnoc(Empty, [], st0);
    RunSnoc(Empty, [st0], st1);
    assert [st0] + [st1] == [st0, st1];
  }

  /** fo-pooling on the same gates with `o = [1.0, 0.5]`: `c = [0.14, 0.248]`,
      `h = [0.14, 0.124]`. */
  lemma FoPoolingExample()
    ensures Run(Empty, [Step([0.2], [0.3], Some([1.0]), None, 1.0), Step([0.5], [0.7], Some([0.5]), None, 1.0)])
         == State(Some([0.248]), Some([0.124]), Some([[0.14], [0.124]]))
  {
    var st0 := Step([0.2], [0.3], Some([1.0]), None, 1.0);
    var st1 := Step([0.5], [0.7], Some([0.5]), None, 1.0);
    var c1 := Scale(Mul(OneMinus([0.3]), [0.2]), 1.0);
    assert c1[0] == 0.14;
    assert c1 == [0.14];
    var h1 := Mul([1.0], c1);
    assert h1[0] == 0.14;
    assert h1 == [0.14];
    var s1 := Advance(Empty, st0);
    assert s1.ct.value == c1 && s1.ht.value == h1 && s1.H.value == [h1];
    var c2 := Add(Mul([0.7], [0.14]), Scale(Mul(OneMinus([0.7]), [0.5]), 1.0));
    assert c2[0] == 0.248;
    assert c2 == [0.248];
    var h2 := Mul([0.5], c2);
    assert h2[0] == 0.124;
    assert h2 == [0.124];
    var s2 := Advance(s1, st1);
    assert s2.ct.value == c2 && s2.ht.value == h2;
    assert s2.H.value == [h1] + [h2] == [[0.14], [0.124]];
    assert s2 == State(Some([0.248]), Some([0.124]), Some([[0.14], [0.124]]));
    RunSnoc(Empty, [], st0);
    RunSnoc(Empty, [st0], st1);
    assert [st0] + [st1] == [st0, st1];
  }
}
