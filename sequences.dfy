/** Facts about sequences used across the model: strictly increasing integer
    sequences (the order of `sorted()` on a set of ids, and of the positions
    the bulk mutation visits), and pointwise maps. */
module Sequences {
  import opened Wrappers

  predicate StrictlyIncreasing(xs: seq<int>)
  {
    forall i, j :: 0 <= i < j < |xs| ==> xs[i] < xs[j]
  }

  /** Appending a value above every element keeps a list strictly increasing. */
  lemma IncreasingAppend(xs: seq<int>, x: int)
    requires StrictlyIncreasing(xs) && forall i :: 0 <= i < |xs| ==> xs[i] < x
    ensures StrictlyIncreasing(xs + [x])
  {
  }

  /** Every element is below `n`. */
  predicate Below(xs: seq<int>, n: int)
  {
    forall i :: 0 <= i < |xs| ==> xs[i] < n
  }

  lemma BelowRaise(xs: seq<int>, n: int)
    requires Below(xs, n)
    ensures Below(xs, n + 1)
  {
  }

  /** Appending `n` to an increasing list below `n` keeps it increasing, and
      below `n + 1`. */
  lemma AppendBelow(xs: seq<int>, n: int)
    requires StrictlyIncreasing(xs) && Below(xs, n)
    ensures StrictlyIncreasing(xs + [n]) && Below(xs + [n], n + 1)
  {
    IncreasingAppend(xs, n);
  }

  /** Each of `0 .. n - 1` is in exactly one of `a` and `b`. */
  predicate Splits(n: nat, a: seq<int>, b: seq<int>)
  {
    forall k :: 0 <= k < n ==> (k in a <==> k !in b)
  }

  /** Position `n`, in neither list yet, joins `a`. */
  lemma SplitsLeft(n: nat, a: seq<int>, b: seq<int>)
    requires Splits(n, a, b) && Below(a, n) && Below(b, n)
    ensures Splits(n + 1, a + [n], b)
  {
    forall k | 0 <= k < n + 1 ensures k in a + [n] <==> k !in b {
      assert k in a + [n] <==> k in a || k == n;
    }
  }

  /** Position `n`, in neither list yet, joins `b`. */
  lemma SplitsRight(n: nat, a: seq<int>, b: seq<int>)
    requires Splits(n, a, b) && Below(a, n) && Below(b, n)
    ensures Splits(n + 1, a, b + [n])
  {
    forall k | 0 <= k < n + 1 ensures k in a <==> k !in b + [n] {
      assert k in b + [n] <==> k in b || k == n;
    }
  }

  /** If `f` maps the head of `ys` to `Some(x)` and its tail pointwise to
      `Some` of `xs`, it maps all of `ys` pointwise to `Some` of `[x] + xs`. */
  lemma MapsCons<A, B>(f: A -> Option<B>, ys: seq<A>, x: B, xs: seq<B>)
    requires |ys| > 0 && f(ys[0]) == Some(x) && |xs| == |ys| - 1
    requires forall k :: 0 <= k < |xs| ==> f(ys[1..][k]) == Some(xs[k])
    ensures forall k :: 0 <= k < |ys| ==> f(ys[k]) == Some(([x] + xs)[k])
  {
    forall k | 0 <= k < |ys| ensures f(ys[k]) == Some(([x] + xs)[k]) {
      if k > 0 {
        assert ys[k] == ys[1..][k - 1];
      }
    }
  }

  /** Appending to a concatenation appends to its second part. */
  lemma AppendToConcat<T>(a: seq<T>, b: seq<T>, x: T)
    ensures (a + b) + [x] == a + (b + [x])
  {
  }
}
