/** Sums of sequences of naturals. */
module Sums {

  function Sum(s: seq<nat>): nat {
    if s == [] then 0 else s[0] + Sum(s[1..])
  }

  lemma {:induction false} SumUpdate(s: seq<nat>, i: nat, x: nat)
    requires i < |s|
    ensures Sum(s[i := x]) == Sum(s) - s[i] + x
    ensures s[i] <= Sum(s)
  {
    if i == 0 {
      assert s[0 := x][1..] == s[1..];
    } else {
      assert s[i := x][1..] == s[1..][i - 1 := x];
      SumUpdate(s[1..], i - 1, x);
    }
  }

  lemma {:induction false} SumConcat(a: seq<nat>, b: seq<nat>)
    ensures Sum(a + b) == Sum(a) + Sum(b)
  {
    if a == [] {
      assert a + b == b;
    } else {
      assert (a + b)[1..] == a[1..] + b;
      SumConcat(a[1..], b);
    }
  }

  lemma {:induction false} SumMono(a: seq<nat>, b: seq<nat>)
    requires |a| == |b|
    requires forall i :: 0 <= i < |a| ==> a[i] <= b[i]
    ensures Sum(a) <= Sum(b)
  {
    if a != [] {
      SumMono(a[1..], b[1..]);
    }
  }

  /** Element i of `s` for each i of `indices`, in turn. */
  function Select(s: seq<nat>, indices: seq<nat>): (r: seq<nat>)
    requires forall k :: 0 <= k < |indices| ==> indices[k] < |s|
    ensures |r| == |indices|
  {
    seq(|indices|, k requires 0 <= k < |indices| => s[indices[k]])
  }

  /** Elements picked once at most, in any order, sum up to no more than all of them. */
  lemma {:induction false} SumSelected(s: seq<nat>, indices: seq<nat>)
    requires forall k :: 0 <= k < |indices| ==> indices[k] < |s|
    requires forall j, k :: 0 <= j < k < |indices| ==> indices[j] != indices[k]
    ensures Sum(Select(s, indices)) <= Sum(s)
    decreases |indices|
  {
    if indices != [] {
      var i, rest := indices[0], indices[1..];
      SumUpdate(s, i, 0);
      SumSelected(s[i := 0], rest);
      assert Select(s, indices)[1..] == Select(s[i := 0], rest);
    }
  }

  /** A balance that moves by what comes in and goes out at every step ends where the sums say. */
  lemma {:induction false} Telescopes(balance: seq<nat>, put: seq<nat>, paid: seq<nat>)
    requires |balance| == |put| + 1 == |paid| + 1
    requires forall i :: 0 <= i < |put| ==> balance[i + 1] + paid[i] == balance[i] + put[i]
    ensures balance[|put|] + Sum(paid) == balance[0] + Sum(put)
  {
    if put != [] {
      assert forall i :: 0 <= i < |put| - 1 ==> balance[1..][i + 1] + paid[1..][i] == balance[1..][i] + put[1..][i];
      Telescopes(balance[1..], put[1..], paid[1..]);
    }
  }

  lemma {:induction false} SumPointwise(a: seq<nat>, b: seq<nat>, c: seq<nat>)
    requires |a| == |b| == |c|
    requires forall i :: 0 <= i < |a| ==> a[i] + b[i] == c[i]
    ensures Sum(a) + Sum(b) == Sum(c)
  {
    if a != [] {
      SumPointwise(a[1..], b[1..], c[1..]);
    }
  }
}
