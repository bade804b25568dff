/** Element-wise maps over sequences, and how they behave under reordering. */
module Seqs {

  /** `f` applied to every element of `s`, in order. */
  function Map<T, U>(f: T -> U, s: seq<T>): (r: seq<U>)
    ensures |r| == |s|
    decreases |s|
  {
    if s == [] then [] else [f(s[0])] + Map(f, s[1..])
  }

  lemma {:induction false} MapAt<T, U>(f: T -> U, s: seq<T>, k: int)
    requires 0 <= k < |s|
    ensures Map(f, s)[k] == f(s[k])
    decreases k
  {
    if k > 0 {
      MapAt(f, s[1..], k - 1);
    }
  }

  lemma TakeNext<T>(s: seq<T>, k: int)
    requires 0 <= k < |s|
    ensures s[..k + 1] == s[..k] + [s[k]]
  {
  }

  lemma {:induction false} MapAppend<T, U>(f: T -> U, s: seq<T>, x: T)
    ensures Map(f, s + [x]) == Map(f, s) + [f(x)]
    decreases |s|
  {
    if s != [] {
      assert (s + [x])[1..] == s[1..] + [x];
      MapAppend(f, s[1..], x);
    }
  }

  /** Dropping the `j`-th element before or after mapping gives the same. */
  lemma MapWithout<T, U>(f: T -> U, s: seq<T>, j: int)
    requires 0 <= j < |s|
    ensures Map(f, s[..j] + s[j + 1..]) == Map(f, s)[..j] + Map(f, s)[j + 1..]
  {
    var m := Map(f, s);
    var s' := s[..j] + s[j + 1..];
    var m' := Map(f, s');
    forall k | 0 <= k < |m'|
      ensures m'[k] == (m[..j] + m[j + 1..])[k]
    {
      MapAt(f, s', k);
      if k < j {
        MapAt(f, s, k);
      } else {
        MapAt(f, s, k + 1);
      }
    }
  }

  lemma MultisetWithout<T>(s: seq<T>, j: int)
    requires 0 <= j < |s|
    ensures multiset(s) == multiset(s[..j] + s[j + 1..]) + multiset{s[j]}
  {
    assert s == s[..j] + [s[j]] + s[j + 1..];
  }

  lemma MultisetCancel<T>(a: multiset<T>, b: multiset<T>, x: T)
    requires a + multiset{x} == b + multiset{x}
    ensures a == b
  {
    assert a == (a + multiset{x}) - multiset{x};
    assert b == (b + multiset{x}) - multiset{x};
  }

  /** Taking the same element out of two reorderings of each other leaves reorderings of each other. */
  lemma TailPermutation<T>(s: seq<T>, t: seq<T>, j: int)
    requires multiset(s) == multiset(t)
    requires |s| > 0 && 0 <= j < |t| && t[j] == s[0]
    ensures multiset(s[1..]) == multiset(t[..j] + t[j + 1..])
  {
    MultisetWithout(t, j);
    MultisetWithout(s, 0);
    assert s[..0] + s[1..] == s[1..];
    MultisetCancel(multiset(s[1..]), multiset(t[..j] + t[j + 1..]), s[0]);
  }

  /** Mapping two reorderings of each other gives two reorderings of each other. */
  lemma {:induction false} MapPermutation<T, U>(f: T -> U, s: seq<T>, t: seq<T>)
    requires multiset(s) == multiset(t)
    ensures multiset(Map(f, s)) == multiset(Map(f, t))
    decreases |s|
  {
    if s == [] {
      assert |t| == |multiset(t)| == 0;
    } else {
      assert s[0] in multiset(t);
      var j :| 0 <= j < |t| && t[j] == s[0];
      TailPermutation(s, t, j);
      MapPermutation(f, s[1..], t[..j] + t[j + 1..]);
      var m := Map(f, t);
      MapWithout(f, t, j);
      MapAt(f, t, j);
      MultisetWithout(m, j);
    }
  }
}
