/**
 * Identities about sequence slices and concatenation. Each is stated once
 * here, for any element type, so that proofs about strings, URL lists and
 * signal lists can use them without rederiving them in a large context.
 */
module Seqs {

  lemma HeadTail<T>(s: seq<T>)
    requires s != []
    ensures s == [s[0]] + s[1..]
  {
  }

  lemma TakeOne<T>(s: seq<T>)
    requires s != []
    ensures s[..1] == [s[0]]
  {
  }

  lemma TakeAll<T>(s: seq<T>)
    ensures s[..|s|] == s
  {
  }

  lemma AppendCancelLeft<T>(x: seq<T>, y: seq<T>, z: seq<T>)
    requires x + y == x + z
    ensures y == z
  {
    assert y == (x + y)[|x|..];
  }

  lemma AppendCancelRight<T>(y: seq<T>, z: seq<T>, x: seq<T>)
    requires y + x == z + x
    ensures y == z
  {
    assert y == (y + x)[..|y|];
  }

  lemma AppendTail<T>(xs: seq<T>, ys: seq<T>)
    requires xs != []
    ensures (xs + ys)[0] == xs[0] && (xs + ys)[1..] == xs[1..] + ys
  {
  }

  lemma DropLastAppend<T>(s: seq<T>)
    requires s != []
    ensures s == s[..|s| - 1] + [s[|s| - 1]]
  {
  }

  lemma AppendDropLast<T>(xs: seq<T>, ys: seq<T>)
    requires ys != []
    ensures (xs + ys)[..|xs + ys| - 1] == xs + ys[..|ys| - 1]
    ensures (xs + ys)[|xs + ys| - 1] == ys[|ys| - 1]
  {
  }

  lemma PrefixSplit<T>(s: seq<T>, i: nat, j: nat)
    requires i <= j <= |s|
    ensures s[..j] == s[..i] + s[i..j]
  {
  }

  lemma AppendAssoc<T>(a: seq<T>, b: seq<T>, c: seq<T>)
    ensures (a + b) + c == a + (b + c)
  {
  }

  lemma SuffixSlices<T>(s: seq<T>, a: nat, k: nat)
    requires a <= k <= |s|
    ensures s[a..][..k - a] == s[a..k] && s[a..][k - a..] == s[k..]
  {
  }
}
