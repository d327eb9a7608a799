/** Results with a failure case, as the components return them. */
module Wrappers {
  datatype Option<+T> = None | Some(value: T)
}

/** Finite sums, used wherever the program adds up sizes, weights or held slots. */
module Sums {
  function Sum(s: seq<nat>): nat {
    if s == [] then 0 else s[0] + Sum(s[1..])
  }

  lemma {:induction false} SumUpdate(s: seq<nat>, i: nat, v: nat)
    requires i < |s|
    ensures Sum(s[i := v]) == Sum(s) - s[i] + v
  {
    if i > 0 {
      assert s[i := v][1..] == s[1..][i - 1 := v];
      SumUpdate(s[1..], i - 1, v);
    }
  }

  lemma {:induction false} SumMonotone(s: seq<nat>, t: seq<nat>)
    requires |s| == |t|
    requires forall i :: 0 <= i < |s| ==> s[i] <= t[i]
    ensures Sum(s) <= Sum(t)
  {
    if s != [] {
      SumMonotone(s[1..], t[1..]);
    }
  }

  lemma {:induction false} SumAtMost(s: seq<nat>, bound: nat)
    requires forall i :: 0 <= i < |s| ==> s[i] <= bound
    ensures Sum(s) <= bound * |s|
  {
    if s != [] {
      SumAtMost(s[1..], bound);
    }
  }

  lemma {:induction false} SumZero(s: seq<nat>)
    requires forall i :: 0 <= i < |s| ==> s[i] == 0
    ensures Sum(s) == 0
  {
    if s != [] {
      SumZero(s[1..]);
    }
  }

  lemma {:induction false} SumContains(s: seq<nat>, i: nat)
    requires i < |s|
    ensures s[i] <= Sum(s)
  {
    if i > 0 {
      SumContains(s[1..], i - 1);
    }
  }

  lemma {:induction false} SumPositive(s: seq<nat>) returns (i: nat)
    requires Sum(s) > 0
    ensures i < |s| && s[i] > 0
  {
    if s[0] > 0 {
      i := 0;
    } else {
      i := SumPositive(s[1..]);
      i := i + 1;
    }
  }
}

module Sets {
  lemma {:induction false} SubsetSize<T>(a: set<T>, b: set<T>)
    requires a <= b
    ensures |a| <= |b|
  {
    if x :| x in a {
      SubsetSize(a - {x}, b - {x});
    }
  }
}
