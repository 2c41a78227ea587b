/** Filtering and mapping sequences. */
module Seqs {
  import opened Base

  /** The elements that satisfy `keep`, in order. */
  function Filter<T>(s: seq<T>, keep: T -> bool): (r: seq<T>)
    ensures |r| <= |s|
  {
    if s == [] then []
    else if keep(s[0]) then [s[0]] + Filter(s[1..], keep)
    else Filter(s[1..], keep)
  }

  function Map<T, U>(s: seq<T>, f: T -> U): (r: seq<U>) {
    seq(|s|, i requires 0 <= i < |s| => f(s[i]))
  }

  /** The index of the first element that satisfies `wanted`. */
  function FirstMatch<T>(s: seq<T>, wanted: T -> bool): (r: Option<nat>)
    ensures r.Some? ==> r.value < |s| && wanted(s[r.value]) && forall i :: 0 <= i < r.value ==> !wanted(s[i])
    ensures r.None? ==> forall i :: 0 <= i < |s| ==> !wanted(s[i])
  {
    if s == [] then None
    else if wanted(s[0]) then Some(0)
    else
      match FirstMatch(s[1..], wanted)
      case None => None
      case Some(i) => Some(i + 1)
  }

  lemma {:induction false} FilterConcat<T>(a: seq<T>, b: seq<T>, keep: T -> bool)
    ensures Filter(a + b, keep) == Filter(a, keep) + Filter(b, keep)
  {
    if a == [] {
      assert a + b == b;
    } else {
      assert (a + b)[1..] == a[1..] + b;
      FilterConcat(a[1..], b, keep);
    }
  }

  /** Everything kept was there and satisfies `keep`. */
  lemma {:induction false} FilterHasOnly<T>(s: seq<T>, keep: T -> bool)
    ensures forall x :: x in Filter(s, keep) ==> x in s && keep(x)
  {
    if s != [] {
      FilterHasOnly(s[1..], keep);
    }
  }

  lemma {:induction false} FilterHasAll<T>(s: seq<T>, keep: T -> bool, i: nat)
    requires i < |s| && keep(s[i])
    ensures s[i] in Filter(s, keep)
  {
    if i > 0 {
      FilterHasAll(s[1..], keep, i - 1);
    }
  }

  /** Filtering images is the image of filtering. */
  lemma {:induction false} FilterMap<T, U>(s: seq<T>, f: T -> U, keep: T -> bool, keepImage: U -> bool)
    requires forall i :: 0 <= i < |s| ==> keepImage(f(s[i])) == keep(s[i])
    ensures Filter(Map(s, f), keepImage) == Map(Filter(s, keep), f)
  {
    if s != [] {
      FilterMap(s[1..], f, keep, keepImage);
      assert Map(s, f)[1..] == Map(s[1..], f);
      if keep(s[0]) {
        assert Map([s[0]] + Filter(s[1..], keep), f) == [f(s[0])] + Map(Filter(s[1..], keep), f);
      }
    }
  }
}
