/** Sequences of distinct members, sums over the members of a sequence, and how a change of
    one member changes them. */
module Counting {

  predicate Distinct<T(==)>(s: seq<T>) {
    forall i, j :: 0 <= i < j < |s| ==> s[i] != s[j]
  }

  function Sum<T>(s: seq<T>, f: T -> nat): nat {
    if s == [] then 0 else Sum(s[..|s| - 1], f) + f(s[|s| - 1])
  }

  lemma SumAppend<T>(s: seq<T>, x: T, f: T -> nat)
    ensures Sum(s + [x], f) == Sum(s, f) + f(x)
  {
    assert (s + [x])[..|s|] == s;
  }

  lemma {:induction false} SumUpdate<T>(s: seq<T>, i: nat, x: T, f: T -> nat)
    requires i < |s|
    ensures Sum(s[i := x], f) + f(s[i]) == Sum(s, f) + f(x)
  {
    var last := |s| - 1;
    if i == last {
      assert s[i := x][..last] == s[..last];
    } else {
      assert s[i := x][..last] == s[..last][i := x];
      SumUpdate(s[..last], i, x, f);
    }
  }

  lemma {:induction false} SumTail<T>(s: seq<T>, f: T -> nat)
    requires s != []
    ensures Sum(s, f) == f(s[0]) + Sum(s[1..], f)
  {
    if |s| > 1 {
      var last := |s| - 1;
      SumTail(s[..last], f);
      assert s[1..][..last - 1] == s[..last][1..];
    } else {
      assert s[1..] == [] && s[..0] == [];
    }
  }

  lemma {:induction false} SumRemove<T>(s: seq<T>, i: nat, f: T -> nat)
    requires i < |s|
    ensures Sum(s[..i] + s[i + 1..], f) + f(s[i]) == Sum(s, f)
  {
    var last := |s| - 1;
    if i == last {
      assert s[..i] + s[i + 1..] == s[..last];
    } else {
      assert (s[..i] + s[i + 1..])[..last - 1] == s[..last][..i] + s[..last][i + 1..];
      SumRemove(s[..last], i, f);
    }
  }

  lemma {:induction false} SumAtLeast<T>(s: seq<T>, i: nat, f: T -> nat)
    requires i < |s|
    ensures f(s[i]) <= Sum(s, f)
  {
    if i < |s| - 1 {
      SumAtLeast(s[..|s| - 1], i, f);
    }
  }

  lemma {:induction false} SumAtLeastTwo<T>(s: seq<T>, i: nat, j: nat, f: T -> nat)
    requires i < j < |s|
    ensures f(s[i]) + f(s[j]) <= Sum(s, f)
  {
    if j == |s| - 1 {
      SumAtLeast(s[..j], i, f);
    } else {
      SumAtLeastTwo(s[..|s| - 1], i, j, f);
    }
  }

  lemma {:induction false} SumZero<T>(s: seq<T>, f: T -> nat)
    requires forall i :: 0 <= i < |s| ==> f(s[i]) == 0
    ensures Sum(s, f) == 0
  {
    if s != [] {
      SumZero(s[..|s| - 1], f);
    }
  }

  /** A positive sum has a positive member. */
  lemma {:induction false} SumWitness<T>(s: seq<T>, f: T -> nat) returns (i: nat)
    requires Sum(s, f) > 0
    ensures i < |s| && f(s[i]) > 0
  {
    if f(s[|s| - 1]) > 0 {
      i := |s| - 1;
    } else {
      i := SumWitness(s[..|s| - 1], f);
    }
  }

  lemma {:induction false} SumBelow<T(!new)>(s: seq<T>, f: T -> nat, g: T -> nat)
    requires forall x :: f(x) <= g(x)
    ensures Sum(s, f) <= Sum(s, g)
  {
    if s != [] {
      SumBelow(s[..|s| - 1], f, g);
    }
  }

  lemma {:induction false} SumOnes<T(!new)>(s: seq<T>, f: T -> nat)
    requires forall x :: f(x) == 1
    ensures Sum(s, f) == |s|
  {
    if s != [] {
      SumOnes(s[..|s| - 1], f);
    }
  }
}
