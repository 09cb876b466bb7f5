/** Order-preserving subsequences, the shape of every filtered list in the system. */
module Subsequences {

  /** a is obtained from b by deleting elements, keeping the order of the rest. */
  predicate IsSubsequence<T(==)>(a: seq<T>, b: seq<T>)
    decreases |b|
  {
    if a == [] then true
    else if b == [] then false
    else if a[0] == b[0] then IsSubsequence(a[1..], b[1..])
    else IsSubsequence(a, b[1..])
  }

  /** Dropping the first element of a subsequence leaves a subsequence. */
  lemma {:induction false} DropFirst<T>(a: seq<T>, b: seq<T>)
    requires a != [] && IsSubsequence(a, b)
    ensures IsSubsequence(a[1..], b)
    decreases |b|
  {
    if a[0] == b[0] {
      if a[1..] != [] {
        DropFirst(a[1..], b[1..]);
        Extend(a[1..], b);
      }
    } else {
      DropFirst(a, b[1..]);
      Extend(a[1..], b);
    }
  }

  /** A subsequence of the tail is a subsequence of the whole. */
  lemma {:induction false} Extend<T>(a: seq<T>, b: seq<T>)
    requires b != [] && IsSubsequence(a, b[1..])
    ensures IsSubsequence(a, b)
    decreases |b|, 1
  {
    if a != [] && a[0] == b[0] {
      DropFirst(a, b[1..]);
    }
  }

  /** Keeping the head of both sequences preserves the relation. */
  lemma Cons<T>(x: T, a: seq<T>, b: seq<T>)
    requires IsSubsequence(a, b)
    ensures IsSubsequence([x] + a, [x] + b)
  {
    assert ([x] + a)[1..] == a;
    assert ([x] + b)[1..] == b;
  }

  /** ts without its i-th element is a subsequence of ts. */
  lemma {:induction false} SkipOne<T>(ts: seq<T>, i: nat)
    requires i < |ts|
    ensures IsSubsequence(ts[..i] + ts[i + 1..], ts)
    decreases i
  {
    if i == 0 {
      assert ts[..0] + ts[1..] == ts[1..];
      SelfSubsequence(ts[1..]);
      Extend(ts[1..], ts);
    } else {
      SkipOne(ts[1..], i - 1);
      assert ts[1..][..i - 1] + ts[1..][i..] == (ts[..i] + ts[i + 1..])[1..];
      assert (ts[..i] + ts[i + 1..])[0] == ts[0];
    }
  }

  /** Every sequence is a subsequence of itself. */
  lemma {:induction false} SelfSubsequence<T>(s: seq<T>)
    ensures IsSubsequence(s, s)
    decreases |s|
  {
    if s != [] {
      SelfSubsequence(s[1..]);
    }
  }
}
