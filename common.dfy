/** Small building blocks shared by the whole model: an option type, integer
    minimum and maximum, and Python's `s[:n]` slice. */
module Common {

  datatype Option<+T> = None | Some(value: T)

  function Min(a: int, b: int): int { if a <= b then a else b }

  function Max(a: int, b: int): int { if a <= b then b else a }

  /** Python's `s[:n]`: a negative `n` counts from the end, and the stop index
      is then clamped into `[0, |s|]`. `list[:k]` and pandas `head(k)` behave so. */
  function Prefix<T>(s: seq<T>, n: int): (r: seq<T>)
    ensures |r| <= |s| && r == s[..|r|]
    ensures n >= 0 ==> |r| == Min(n, |s|)
    ensures n < 0 ==> |r| == Max(|s| + n, 0)
  {
    var stop := if n < 0 then n + |s| else n;
    s[..if stop < 0 then 0 else if stop > |s| then |s| else stop]
  }

  /** A quotient of a total that is at most `n * bound`, by `n > 0`, lies in
      `[0, bound]` and multiplies back to the total. */
  lemma {:induction false} DivBounds(total: real, n: real, bound: real)
    requires n > 0.0 && 0.0 <= total <= n * bound
    ensures (total / n) * n == total
    ensures 0.0 <= total / n <= bound
  {
    assert (total / n) * n == total;
  }

  /** `q` is the mean of `n` values summing to `total`. */
  predicate IsMean(q: real, total: nat, n: nat) {
    q * n as real == total as real
  }

  /** The same for whole-number totals and counts. */
  lemma {:induction false} MeanOf(total: nat, n: nat, bound: nat)
    requires n > 0 && total <= n * bound
    ensures IsMean(total as real / n as real, total, n)
    ensures 0.0 <= total as real / n as real <= bound as real
  {
    assert (n * bound) as real == n as real * bound as real;
    DivBounds(total as real, n as real, bound as real);
  }

  lemma {:induction false} HeadTail<T>(s: seq<T>)
    requires s != []
    ensures [s[0]] + s[1..] == s
  {
  }

  lemma {:induction false} InitLast<T>(s: seq<T>)
    requires s != []
    ensures s[..|s| - 1] + [s[|s| - 1]] == s
  {
  }

  lemma {:induction false} Reassociate<T>(a: seq<T>, b: seq<T>, c: seq<T>, d: seq<T>)
    ensures (a + (b + c)) + d == a + (b + (c + d))
  {
  }

  lemma {:induction false} Assoc<T>(a: seq<T>, b: seq<T>, c: seq<T>)
    ensures a + (b + c) == (a + b) + c
  {
  }

  lemma {:induction false} SplitAt<T>(s: seq<T>, k: nat)
    requires k <= |s|
    ensures s[..k] + s[k..] == s
  {
  }
}
