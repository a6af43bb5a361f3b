/**
 * How the crawler cuts its URL list into batches: the slices
 * `urls[i : i + m]` for `i` in `range(0, len(urls), m)`.
 */
module Batching {

  function Min(a: int, b: int): int {
    if a <= b then a else b
  }

  /** The number of offsets in `range(0, n, m)`: `n / m` rounded up. */
  function BatchCount(n: nat, m: nat): nat
    requires m > 0
    decreases n
  {
    if n == 0 then 0 else if n <= m then 1 else 1 + BatchCount(n - m, m)
  }

  /**
   * The `k`-th offset of `range(0, n, m)`, that is `k * m`. It is written as
   * one stride per batch so that the inductive lemmas about batches unfold it
   * one batch at a time; its contract gives the closed form.
   */
  function Offset(k: nat, m: nat): (o: nat)
    ensures o == k * m
  {
    if k == 0 then 0 else Offset(k - 1, m) + m
  }

  /** Offset `k` is still inside the list exactly when `k` is below the batch count. */
  lemma {:induction false} BatchCountBound(n: nat, m: nat, k: nat)
    requires m > 0
    ensures k < BatchCount(n, m) <==> Offset(k, m) < n
    decreases n
  {
    if k > 0 && n > 0 {
      if n > m {
        BatchCountBound(n - m, m, k - 1);
      } else {
        OffsetMonotone(1, k, m);
      }
    }
  }

  lemma {:induction false} OffsetMonotone(j: nat, k: nat, m: nat)
    requires j <= k
    ensures Offset(j, m) <= Offset(k, m)
    decreases k
  {
    if j < k {
      OffsetMonotone(j, k - 1, m);
    }
  }

  /** Concatenation of a sequence of sequences. */
  function Concat<T>(ss: seq<seq<T>>): seq<T> {
    if ss == [] then [] else ss[0] + Concat(ss[1..])
  }

  lemma {:induction false} ConcatAppend<T>(ss: seq<seq<T>>, s: seq<T>)
    ensures Concat(ss + [s]) == Concat(ss) + s
  {
    if ss == [] {
      assert [s][1..] == [];
    } else {
      assert (ss + [s])[1..] == ss[1..] + [s];
      ConcatAppend(ss[1..], s);
    }
  }

  /**
   * The batches of `xs` for a concurrency limit `m`: consecutive, non-empty,
   * at most `m` long, exactly `m` long except possibly the last, and together
   * they give back the list.
   */
  function Batches<T>(xs: seq<T>, m: nat): (r: seq<seq<T>>)
    requires m > 0
    ensures forall k :: 0 <= k < |r| ==> 0 < |r[k]| <= m
    ensures forall k :: 0 <= k < |r| - 1 ==> |r[k]| == m
    ensures Concat(r) == xs
    decreases |xs|
  {
    if xs == [] then []
    else
      var b := Min(m, |xs|);
      var rest := Batches(xs[b..], m);
      var r := [xs[..b]] + rest;
      assert r[1..] == rest;
      assert xs == xs[..b] + xs[b..];
      assert rest != [] ==> b == m;
      r
  }

  /** There are as many batches as there are offsets in `range(0, len(xs), m)`. */
  lemma {:induction false} BatchesLength<T>(xs: seq<T>, m: nat)
    requires m > 0
    ensures |Batches(xs, m)| == BatchCount(|xs|, m)
    decreases |xs|
  {
    if xs != [] {
      BatchesLength(xs[Min(m, |xs|)..], m);
    }
  }

  /** The `k`-th batch is the slice `xs[k*m : k*m + m]` the source takes at offset `k*m`. */
  lemma BatchAt<T>(xs: seq<T>, m: nat, k: nat)
    requires m > 0 && k < |Batches(xs, m)|
    ensures Offset(k, m) < |xs|
    ensures Batches(xs, m)[k] == xs[Offset(k, m) .. Min(Offset(k, m) + m, |xs|)]
  {
    BatchesLength(xs, m);
    BatchCountBound(|xs|, m, k);
    BatchesPrefix(xs, m, k);
    BatchesPrefix(xs, m, k + 1);
    BatchBetween(xs, Batches(xs, m), k, Offset(k, m), Offset(k + 1, m), m);
  }

  lemma BatchBetween<T>(xs: seq<T>, bs: seq<seq<T>>, k: nat, a: nat, a': nat, m: nat)
    requires k < |bs| && a < |xs| && a' == a + m
    requires Concat(bs[..k]) == xs[..Min(a, |xs|)] && Concat(bs[..k + 1]) == xs[..Min(a', |xs|)]
    ensures bs[k] == xs[a..Min(a + m, |xs|)]
  {
    PieceBetween(xs, bs, k, a, Min(a', |xs|));
  }

  /** When the first `k` and the first `k + 1` pieces concatenate to prefixes of `xs`, piece `k` is the slice between them. */
  lemma PieceBetween<T>(xs: seq<T>, bs: seq<seq<T>>, k: nat, a: nat, b: nat)
    requires k < |bs| && a <= b <= |xs|
    requires Concat(bs[..k]) == xs[..a] && Concat(bs[..k + 1]) == xs[..b]
    ensures bs[k] == xs[a..b]
  {
    assert bs[..k + 1] == bs[..k] + [bs[k]];
    ConcatAppend(bs[..k], bs[k]);
    assert xs[..b] == xs[..a] + xs[a..b];
  }

  /** The first `k` batches together are the first `min(k*m, len(xs))` URLs. */
  lemma {:induction false} BatchesPrefix<T>(xs: seq<T>, m: nat, k: nat)
    requires m > 0 && k <= |Batches(xs, m)|
    ensures Concat(Batches(xs, m)[..k]) == xs[..Min(Offset(k, m), |xs|)]
    decreases k
  {
    var bs := Batches(xs, m);
    if k == 0 {
      assert bs[..0] == [];
    } else {
      var b := Min(m, |xs|);
      var ys := xs[b..];
      var rest := Batches(ys, m);
      assert bs == [xs[..b]] + rest;
      assert bs[..k] == [xs[..b]] + rest[..k - 1];
      assert Concat(bs[..k]) == xs[..b] + Concat(rest[..k - 1]);
      BatchesPrefix(ys, m, k - 1);
      if |xs| <= m {
        assert rest == [];
        assert k == 1;
        OffsetMonotone(1, k, m);
      } else {
        ShiftedPrefix(xs, m, Offset(k - 1, m), Offset(k, m));
      }
    }
  }

  lemma ShiftedPrefix<T>(xs: seq<T>, m: nat, p: nat, o: nat)
    requires m < |xs| && o == p + m
    ensures xs[..m] + xs[m..][..Min(p, |xs| - m)] == xs[..Min(o, |xs|)]
  {
  }
}
