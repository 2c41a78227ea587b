/** Sorting indices by a key. */
module Sorting {

  ghost predicate Below(s: seq<nat>, n: nat) {
    forall i :: 0 <= i < |s| ==> s[i] < n
  }

  ghost predicate NoRepeats<T>(s: seq<T>) {
    forall i, j :: 0 <= i < j < |s| ==> s[i] != s[j]
  }

  ghost predicate Ordered(s: seq<nat>, keys: seq<nat>)
    requires Below(s, |keys|)
  {
    forall i, j :: 0 <= i < j < |s| ==> keys[s[i]] <= keys[s[j]]
  }

  function Insert(x: nat, s: seq<nat>, keys: seq<nat>): (r: seq<nat>)
    requires x < |keys| && Below(s, |keys|)
    ensures |r| == |s| + 1 && Below(r, |keys|)
  {
    if s == [] || keys[x] <= keys[s[0]] then [x] + s else [s[0]] + Insert(x, s[1..], keys)
  }

  /** A stable sort. */
  function SortByKey(s: seq<nat>, keys: seq<nat>): (r: seq<nat>)
    requires Below(s, |keys|)
    ensures |r| == |s| && Below(r, |keys|)
  {
    if s == [] then [] else Insert(s[0], SortByKey(s[1..], keys), keys)
  }

  lemma {:induction false} InsertPermutes(x: nat, s: seq<nat>, keys: seq<nat>)
    requires x < |keys| && Below(s, |keys|)
    ensures multiset(Insert(x, s, keys)) == multiset(s) + multiset{x}
  {
    if s != [] && keys[x] > keys[s[0]] {
      InsertPermutes(x, s[1..], keys);
      assert s == [s[0]] + s[1..];
    }
  }

  lemma {:induction false} SortPermutes(s: seq<nat>, keys: seq<nat>)
    requires Below(s, |keys|)
    ensures multiset(SortByKey(s, keys)) == multiset(s)
  {
    if s != [] {
      SortPermutes(s[1..], keys);
      InsertPermutes(s[0], SortByKey(s[1..], keys), keys);
      assert s == [s[0]] + s[1..];
    }
  }

  /** Whatever bounds the key of x and of every element bounds the key of every element of the result. */
  lemma InsertBounded(x: nat, s: seq<nat>, keys: seq<nat>, low: nat)
    requires x < |keys| && Below(s, |keys|)
    requires low <= keys[x] && forall i :: 0 <= i < |s| ==> low <= keys[s[i]]
    ensures forall i :: 0 <= i < |Insert(x, s, keys)| ==> low <= keys[Insert(x, s, keys)[i]]
  {
    var r := Insert(x, s, keys);
    InsertPermutes(x, s, keys);
    forall i | 0 <= i < |r|
      ensures low <= keys[r[i]]
    {
      assert r[i] in multiset(r);
    }
  }

  lemma {:induction false} InsertOrdered(x: nat, s: seq<nat>, keys: seq<nat>)
    requires x < |keys| && Below(s, |keys|) && Ordered(s, keys)
    ensures Ordered(Insert(x, s, keys), keys)
  {
    if s != [] && keys[x] > keys[s[0]] {
      InsertOrdered(x, s[1..], keys);
      InsertBounded(x, s[1..], keys, keys[s[0]]);
    }
  }

  lemma {:induction false} SortOrders(s: seq<nat>, keys: seq<nat>)
    requires Below(s, |keys|)
    ensures Ordered(SortByKey(s, keys), keys)
  {
    if s != [] {
      SortOrders(s[1..], keys);
      InsertOrdered(s[0], SortByKey(s[1..], keys), keys);
    }
  }

  lemma {:induction false} NoRepeatsCounts<T>(s: seq<T>, x: T)
    requires NoRepeats(s)
    ensures multiset(s)[x] <= 1
  {
    if s != [] {
      NoRepeatsCounts(s[1..], x);
      assert s == [s[0]] + s[1..];
      assert s[0] !in s[1..];
    }
  }

  /** A permutation of distinct elements has distinct elements. */
  lemma PermutedNoRepeats<T>(s: seq<T>, r: seq<T>)
    requires NoRepeats(s) && multiset(s) == multiset(r)
    ensures NoRepeats(r)
  {
    forall i, j | 0 <= i < j < |r|
      ensures r[i] != r[j]
    {
      NoRepeatsCounts(s, r[i]);
      assert r == r[..j] + [r[j]] + r[j + 1..];
      assert r[i] in r[..j];
      assert multiset(r)[r[j]] == multiset(r[..j])[r[j]] + 1 + multiset(r[j + 1..])[r[j]];
    }
  }
}
