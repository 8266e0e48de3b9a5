/** Queues from which a broker may hand out any element, and sums over them. */
module Bag {

  function Without<T>(q: seq<T>, i: nat): seq<T>
    requires i < |q|
  {
    q[..i] + q[i + 1..]
  }

  function Sum<T>(q: seq<T>, f: T -> nat): nat {
    if q == [] then 0 else Sum(q[..|q| - 1], f) + f(q[|q| - 1])
  }

  lemma SumAppend<T>(q: seq<T>, m: T, f: T -> nat)
    ensures Sum(q + [m], f) == Sum(q, f) + f(m)
  {
    assert (q + [m])[..|q|] == q;
  }

  lemma {:induction false} SumTake<T>(q: seq<T>, i: nat, f: T -> nat)
    requires i < |q|
    ensures Sum(q, f) == Sum(Without(q, i), f) + f(q[i])
  {
    var n := |q| - 1;
    if i == n {
      assert Without(q, i) == q[..n];
    } else {
      SumTake(q[..n], i, f);
      assert Without(q, i) == Without(q[..n], i) + [q[n]];
      SumAppend(Without(q[..n], i), q[n], f);
    }
  }

  lemma {:induction false} SumZero<T>(q: seq<T>, f: T -> nat)
    requires forall j :: 0 <= j < |q| ==> f(q[j]) == 0
    ensures Sum(q, f) == 0
  {
    if q != [] {
      SumZero(q[..|q| - 1], f);
    }
  }

  lemma SumOnly<T>(q: seq<T>, i: nat, f: T -> nat)
    requires i < |q| && forall j :: 0 <= j < |q| && j != i ==> f(q[j]) == 0
    ensures Sum(q, f) == f(q[i])
  {
    SumTake(q, i, f);
    var rest := Without(q, i);
    forall j | 0 <= j < |rest|
      ensures f(rest[j]) == 0
    {
      assert rest[j] == q[if j < i then j else j + 1];
    }
    SumZero(rest, f);
  }
}
