/** Sequence helpers shared by the models of the scripts: concatenation of
    chunks, first-occurrence de-duplication, ceiling division and the forward
    stride `s[::k]`. */
module Seqs {

  function Min(a: int, b: int): int { if a <= b then a else b }

  function Max(a: int, b: int): int { if a >= b then a else b }

  /** The elements of the sequences of `ss`, one sequence after the other. */
  function Concat<T>(ss: seq<seq<T>>): seq<T>
  {
    if |ss| == 0 then [] else Concat(ss[..|ss| - 1]) + ss[|ss| - 1]
  }

  lemma ConcatAppend<T>(ss: seq<seq<T>>, s: seq<T>)
    ensures Concat(ss + [s]) == Concat(ss) + s
  {
    assert (ss + [s])[..|ss|] == ss;
  }

  predicate Distinct<T(==)>(s: seq<T>)
  {
    forall i, j :: 0 <= i < j < |s| ==> s[i] != s[j]
  }

  /** `seen`, followed by the elements of `vs` that it does not hold yet, in
      the order in which they first occur in `vs`. */
  function Extend<T(==)>(seen: seq<T>, vs: seq<T>): seq<T>
    decreases |vs|
  {
    if |vs| == 0 then seen
    else Extend(if vs[0] in seen then seen else seen + [vs[0]], vs[1..])
  }

  /** The distinct elements of `vs` in order of first occurrence (the key
      order of a Python `collections.Counter` built from `vs`). */
  function Dedup<T(==)>(vs: seq<T>): seq<T>
  {
    Extend([], vs)
  }

  lemma {:induction false} ExtendProperties<T>(seen: seq<T>, vs: seq<T>)
    requires Distinct(seen)
    ensures Distinct(Extend(seen, vs))
    ensures seen <= Extend(seen, vs)
    ensures forall x :: x in Extend(seen, vs) <==> x in seen || x in vs
    decreases |vs|
  {
    if |vs| > 0 {
      var next := if vs[0] in seen then seen else seen + [vs[0]];
      assert Distinct(next);
      ExtendProperties(next, vs[1..]);
      assert forall x :: x in vs <==> x == vs[0] || x in vs[1..];
    }
  }

  /** Extending by `a + b` is extending by `a`, then by `b`. */
  lemma {:induction false} ExtendConcat<T>(seen: seq<T>, a: seq<T>, b: seq<T>)
    ensures Extend(seen, a + b) == Extend(Extend(seen, a), b)
    decreases |a|
  {
    if |a| == 0 {
      assert a + b == b;
    } else {
      assert (a + b)[0] == a[0];
      assert (a + b)[1..] == a[1..] + b;
      var next := if a[0] in seen then seen else seen + [a[0]];
      ExtendConcat(next, a[1..], b);
    }
  }

  /** Dedup keeps every element once: no repetitions, and exactly the
      elements of the input. */
  lemma DedupProperties<T>(vs: seq<T>)
    ensures Distinct(Dedup(vs))
    ensures forall x :: x in Dedup(vs) <==> x in vs
  {
    ExtendProperties([], vs);
  }

  /** Python's `math.ceil(a / b)` for a positive divisor. */
  function CeilDiv(a: int, b: int): int
    requires b > 0
  {
    (a + b - 1) / b
  }

  lemma MulMonotone(k: int, p: int, q: int)
    requires k > 0
    ensures p <= q ==> k * p <= k * q
  {
    assert k * q - k * p == k * (q - p);
  }

  /** `CeilDiv(n, k)` is the one number c with (c - 1) * k < n <= c * k. */
  lemma CeilDivUnique(n: int, k: int, c: int)
    requires k > 0
    requires (c - 1) * k < n <= c * k
    ensures CeilDiv(n, k) == c
  {
    var q := (n + k - 1) / k;
    var r := (n + k - 1) % k;
    assert n + k - 1 == k * q + r && 0 <= r < k;
    assert k * (c + 1) == c * k + k;
    assert k * (c - 1) == c * k - k;
    MulMonotone(k, c + 1, q);
    MulMonotone(k, q, c - 1);
  }

  /** The forward stride `s[::k]`: the elements at indices 0, k, 2k, ... */
  function Stride<T>(s: seq<T>, k: nat): seq<T>
    requires k >= 1
    decreases |s|
  {
    if |s| == 0 then [] else [s[0]] + Stride(s[Min(k, |s|)..], k)
  }

  /** `s[::k]` has ceil(|s| / k) elements. */
  lemma {:induction false} StrideLength<T>(s: seq<T>, k: nat)
    requires k >= 1
    ensures |Stride(s, k)| == CeilDiv(|s|, k)
    decreases |s|
  {
    if |s| == 0 {
      CeilDivUnique(0, k, 0);
    } else if |s| <= k {
      assert Stride(s, k) == [s[0]] + Stride(s[|s|..], k);
      CeilDivUnique(|s|, k, 1);
    } else {
      StrideLength(s[k..], k);
      var c := |Stride(s[k..], k)|;
      CeilDivBounds(|s| - k, k);
      assert (c - 1) * k < |s| - k <= c * k;
      assert (c + 1) * k == c * k + k && c * k == (c - 1) * k + k;
      CeilDivUnique(|s|, k, c + 1);
    }
  }

  /** The i-th element of `s[::k]` is s[i * k]. */
  lemma {:induction false} StrideAt<T>(s: seq<T>, k: nat, i: nat)
    requires k >= 1 && i < |Stride(s, k)|
    ensures i * k < |s| && Stride(s, k)[i] == s[i * k]
    decreases |s|
  {
    if i > 0 {
      var m := Min(k, |s|);
      var t := s[m..];
      assert Stride(s, k) == [s[0]] + Stride(t, k);
      StrideAt(t, k, i - 1);
      var j := (i - 1) * k;
      assert j < |t| && Stride(s, k)[i] == t[j];
      assert m == k;
      MulPred(i, k);
      assert t[j] == s[j + k];
    }
  }

  lemma MulPred(i: int, k: int)
    ensures (i - 1) * k + k == i * k
  {
  }

  lemma CeilDivBounds(n: int, k: int)
    requires k > 0
    ensures (CeilDiv(n, k) - 1) * k < n <= CeilDiv(n, k) * k
  {
    var q := (n + k - 1) / k;
    var r := (n + k - 1) % k;
    assert n + k - 1 == k * q + r && 0 <= r < k;
    assert (q - 1) * k == k * q - k;
  }
}
