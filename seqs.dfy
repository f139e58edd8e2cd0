/**
 * Element-type-independent facts about sequence slices and concatenation.
 * Stating them once, generically, keeps them out of the proofs about text.
 */
module Seqs {
  /** A non-empty sequence is its first element followed by the rest. */
  lemma SplitFirst<T>(s: seq<T>)
    requires s != []
    ensures s == [s[0]] + s[1..]
  {
  }

  /** A non-empty sequence is its prefix followed by its last element. */
  lemma SplitLast<T>(s: seq<T>)
    requires s != []
    ensures s == s[..|s| - 1] + [s[|s| - 1]]
  {
  }

  /** The head and tail of `[x] + r`. */
  lemma ConsParts<T>(x: T, r: seq<T>)
    ensures ([x] + r)[0] == x
    ensures ([x] + r)[1..] == r
    ensures [x] + r != []
  {
  }

  /** Equal multisets with equal first elements have tails with equal multisets. */
  lemma MultisetTail<T>(a: seq<T>, b: seq<T>)
    requires a != [] && b != [] && a[0] == b[0]
    requires multiset(a) == multiset(b)
    ensures multiset(a[1..]) == multiset(b[1..])
  {
    assert a == [a[0]] + a[1..];
    assert b == [b[0]] + b[1..];
    calc {
      multiset(a[1..]);
      multiset(a) - multiset{a[0]};
      multiset(b) - multiset{b[0]};
      multiset(b[1..]);
    }
  }

  /** Appending nothing leaves a sequence unchanged. */
  lemma AppendNil<T>(s: seq<T>)
    ensures s + [] == s
  {
  }

  /** The prefix of `s + [x]` before `x` is `s`. */
  lemma SnocInit<T>(s: seq<T>, x: T)
    ensures (s + [x])[..|s|] == s
  {
  }

  /** Concatenation is associative. */
  lemma AppendAssoc<T>(a: seq<T>, b: seq<T>, c: seq<T>)
    ensures a + (b + c) == (a + b) + c
  {
  }

  /** Extending a slice by one element. */
  lemma SliceSnoc<T>(s: seq<T>, a: nat, b: nat)
    requires a <= b < |s|
    ensures s[a..b + 1] == s[a..b] + [s[b]]
  {
  }

  /** Extending a prefix by one element. */
  lemma TakeSnoc<T>(s: seq<T>, n: nat)
    requires n < |s|
    ensures s[..n + 1] == s[..n] + [s[n]]
  {
  }

  /** Dropping the first element of a concatenation with a non-empty left part. */
  lemma AppendTail<T>(a: seq<T>, b: seq<T>)
    requires a != []
    ensures (a + b)[1..] == a[1..] + b
  {
  }

  /** Dropping the last element of a concatenation with a non-empty right part. */
  lemma AppendInit<T>(a: seq<T>, b: seq<T>)
    requires b != []
    ensures (a + b)[..|a + b| - 1] == a + b[..|b| - 1]
  {
  }

  /** The parts of `a + [x] + b` are recovered by slicing around position `|a|`. */
  lemma AroundElement<T>(a: seq<T>, x: T, b: seq<T>)
    ensures (a + [x] + b)[..|a|] == a
    ensures (a + [x] + b)[|a|] == x
    ensures (a + [x] + b)[|a| + 1..] == b
  {
    var s := a + [x] + b;
    assert s[|a| + 1..] == b;
  }

  /** A sequence is its parts before, at and after position `k`. */
  lemma SplitAt<T>(s: seq<T>, k: nat)
    requires k < |s|
    ensures s == s[..k] + ([s[k]] + s[k + 1..])
    ensures s == s[..k] + [s[k]] + s[k + 1..]
  {
  }

  /** A sequence is its parts before, between and after two positions. */
  lemma SplitThree<T>(s: seq<T>, a: nat, b: nat)
    requires a <= b <= |s|
    ensures s == s[..a] + (s[a..b] + s[b..])
  {
  }

  /** A slice of a suffix is a slice of the whole. */
  lemma SliceShift<T>(s: seq<T>, d: nat, lo: nat, hi: nat)
    requires d <= |s| && lo <= hi <= |s| - d
    ensures s[d..][lo..hi] == s[d + lo..d + hi]
  {
  }

  /** The prefix and the rest of a suffix. */
  lemma SuffixSlices<T>(s: seq<T>, i: nat, m: nat)
    requires i + m <= |s|
    ensures s[i..][..m] == s[i..i + m]
    ensures s[i..][m..] == s[i + m..]
  {
  }
}
