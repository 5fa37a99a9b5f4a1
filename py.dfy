/** The pieces of Python's value semantics that the modelled code relies on:
    `None`, raised exceptions, list slicing with negative and out-of-range
    bounds, floor division `//` and the truncating conversion `int(x)`. */
module PyOps {

  /** A Python value that may be `None`. */
  datatype Option<T> = None | Some(value: T)

  /** The exceptions the modelled code can raise (or that an `assert` raises);
      `InvalidType` is the one a library function raises on operands of the
      wrong shape. */
  datatype Error =
    | AssertionError(what: string)
    | ZeroDivisionError
    | ValueError(what: string)
    | TypeError(what: string)
    | InvalidType(what: string)

  /** The outcome of a call that either returns or raises. */
  datatype Result<T> = Success(value: T) | Failure(error: Error)

  function Min(a: int, b: int): int { if a <= b then a else b }

  function Max(a: int, b: int): int { if a <= b then b else a }

  /** How Python normalises one bound of `s[start:stop]` for a list of length `n`:
      a negative bound counts from the end, and the result is clamped to `0..n`. */
  function SliceBound(i: int, n: nat): (b: nat)
    ensures b <= n
    ensures 0 <= i <= n ==> b == i
    ensures i < 0 <= i + n ==> b == n + i
    ensures i + n < 0 ==> b == 0
    ensures n < i ==> b == n
  {
    var j := if i < 0 then i + n else i;
    if j < 0 then 0 else if j > n then n else j
  }

  /** Python's `s[start:stop]` (step 1): empty when the normalised start is not
      before the normalised stop. */
  function Slice<T>(s: seq<T>, start: int, stop: int): (r: seq<T>)
    ensures |r| <= |s|
  {
    var a := SliceBound(start, |s|);
    var b := SliceBound(stop, |s|);
    if a <= b then s[a..b] else []
  }

  /** `s[:-k]` for k >= 1 drops the last k elements. */
  lemma SliceDropLast<T>(s: seq<T>, k: int)
    requires 1 <= k
    ensures Slice(s, 0, -k) == if k <= |s| then s[..|s| - k] else []
  {
  }

  /** `s[:-0]` is `s[:0]`: the empty list, whatever `s` is. */
  lemma SliceMinusZero<T>(s: seq<T>)
    ensures Slice(s, 0, -0) == []
  {
  }

  /** `s[:n]` for n >= 0 keeps the first `min(n, len(s))` elements. */
  lemma SlicePrefix<T>(s: seq<T>, n: int)
    requires 0 <= n
    ensures Slice(s, 0, n) == s[..Min(n, |s|)]
  {
  }

  /** `s[:i] + s[i:] == s` for every integer `i`, negative or out of range. */
  lemma SliceSplit<T>(s: seq<T>, i: int)
    ensures Slice(s, 0, i) + Slice(s, i, |s|) == s
  {
    var b := SliceBound(i, |s|);
    assert Slice(s, 0, i) == s[..b];
    assert Slice(s, i, |s|) == s[b..];
    assert s[..b] + s[b..] == s;
  }

  /** Python's floor division `a // b`, which rounds toward minus infinity. */
  function FloorDiv(a: int, b: int): (q: int)
    requires b != 0
    ensures 0 < b ==> q * b <= a < q * b + b
    ensures b < 0 ==> q * b + b < a <= q * b
  {
    if b > 0 then a / b else (-a) / (-b)
  }

  /** Python's `int(x)` for a float: truncation toward zero. */
  function Trunc(x: real): (n: int)
    ensures 0.0 <= x ==> 0 <= n && n as real <= x < n as real + 1.0
    ensures x < 0.0 ==> n <= 0 && n as real - 1.0 < x <= n as real
  {
    if x >= 0.0 then x.Floor else -((-x).Floor)
  }

  /** A prefix grown by the next element. */
  lemma PrefixSnoc<T>(s: seq<T>, t: nat)
    requires t < |s|
    ensures s[..t] + [s[t]] == s[..t + 1]
  {
  }

  /** A sequence is its prefix followed by the rest. */
  lemma TakeDrop<T>(s: seq<T>, i: nat)
    requires i <= |s|
    ensures s[..i] + s[i..] == s
  {
  }

  lemma AppendAssoc<T>(a: seq<T>, b: seq<T>, c: seq<T>)
    ensures (a + b) + c == a + (b + c)
  {
  }
}
