/** Sums of weights over a sequence of program counters.  Every counting argument about
    threads (sleepers, signalled threads, termination measures) is a sum of this kind. */
module Counting {

  function Sum<T>(weight: T -> nat, s: seq<T>): nat {
    if s == [] then 0 else Sum(weight, s[..|s| - 1]) + weight(s[|s| - 1])
  }

  /** The multiset union of what each element of the sequence contributes. */
  function Gather<T, V>(part: T -> multiset<V>, s: seq<T>): multiset<V> {
    if s == [] then multiset{} else Gather(part, s[..|s| - 1]) + part(s[|s| - 1])
  }

  lemma {:induction false} SumUpdate<T>(weight: T -> nat, s: seq<T>, i: nat, x: T)
    requires i < |s|
    ensures Sum(weight, s[i := x]) + weight(s[i]) == Sum(weight, s) + weight(x)
  {
    var n := |s| - 1;
    if i == n {
      assert s[i := x][..n] == s[..n];
    } else {
      assert s[i := x][..n] == s[..n][i := x];
      SumUpdate(weight, s[..n], i, x);
    }
  }

  lemma SumAppend<T>(weight: T -> nat, s: seq<T>, x: T)
    ensures Sum(weight, s + [x]) == Sum(weight, s) + weight(x)
  {
    assert (s + [x])[..|s|] == s;
  }

  lemma {:induction false} SumAtLeast<T>(weight: T -> nat, s: seq<T>, i: nat)
    requires i < |s|
    ensures weight(s[i]) <= Sum(weight, s)
  {
    if i < |s| - 1 {
      SumAtLeast(weight, s[..|s| - 1], i);
    }
  }

  /** A positive sum has a contributor. */
  lemma {:induction false} SumWitness<T>(weight: T -> nat, s: seq<T>) returns (i: nat)
    requires Sum(weight, s) > 0
    ensures i < |s| && weight(s[i]) > 0
  {
    var n := |s| - 1;
    if weight(s[n]) > 0 {
      i := n;
    } else {
      i := SumWitness(weight, s[..n]);
    }
  }

  /** Pointwise comparison of two weightings of sequences of the same length. */
  lemma {:induction false} SumMonotone<T>(weight: T -> nat, s: seq<T>, t: seq<T>)
    requires |s| == |t|
    requires forall i :: 0 <= i < |s| ==> weight(s[i]) <= weight(t[i])
    ensures Sum(weight, s) <= Sum(weight, t)
  {
    if s != [] {
      SumMonotone(weight, s[..|s| - 1], t[..|t| - 1]);
    }
  }

  lemma {:induction false} GatherUpdate<T, V>(part: T -> multiset<V>, s: seq<T>, i: nat, x: T)
    requires i < |s|
    ensures part(s[i]) <= Gather(part, s)
    ensures Gather(part, s[i := x]) == Gather(part, s) - part(s[i]) + part(x)
  {
    var n := |s| - 1;
    if i == n {
      assert s[i := x][..n] == s[..n];
    } else {
      assert s[i := x][..n] == s[..n][i := x];
      GatherUpdate(part, s[..n], i, x);
    }
  }

  lemma GatherAppend<T, V>(part: T -> multiset<V>, s: seq<T>, x: T)
    ensures Gather(part, s + [x]) == Gather(part, s) + part(x)
  {
    assert (s + [x])[..|s|] == s;
  }

  /** Two elements contribute separately. */
  lemma {:induction false} GatherTwo<T, V>(part: T -> multiset<V>, s: seq<T>, i: nat, j: nat)
    requires i < j < |s|
    ensures part(s[i]) + part(s[j]) <= Gather(part, s)
  {
    var n := |s| - 1;
    if j == n {
      GatherUpdate(part, s[..n], i, s[i]);
    } else {
      GatherTwo(part, s[..n], i, j);
    }
  }

  /** If nothing contributes, the whole is empty. */
  lemma {:induction false} GatherEmpty<T, V>(part: T -> multiset<V>, s: seq<T>)
    requires forall i :: 0 <= i < |s| ==> part(s[i]) == multiset{}
    ensures Gather(part, s) == multiset{}
  {
    if s != [] {
      GatherEmpty(part, s[..|s| - 1]);
    }
  }

  /** Counting what is gathered. */
  lemma {:induction false} GatherSize<T, V>(part: T -> multiset<V>, weight: T -> nat, s: seq<T>)
    requires forall i :: 0 <= i < |s| ==> |part(s[i])| == weight(s[i])
    ensures |Gather(part, s)| == Sum(weight, s)
  {
    if s != [] {
      GatherSize(part, weight, s[..|s| - 1]);
    }
  }

  /** Two sequences that contribute alike, element by element. */
  lemma {:induction false} GatherAlike<S, T, V>(part: S -> multiset<V>, s: seq<S>, other: T -> multiset<V>, t: seq<T>)
    requires |s| == |t| && forall i :: 0 <= i < |s| ==> part(s[i]) == other(t[i])
    ensures Gather(part, s) == Gather(other, t)
  {
    if s != [] {
      GatherAlike(part, s[..|s| - 1], other, t[..|t| - 1]);
    }
  }

  lemma {:induction false} SumAlike<S, T>(weight: S -> nat, s: seq<S>, other: T -> nat, t: seq<T>)
    requires |s| == |t| && forall i :: 0 <= i < |s| ==> weight(s[i]) == other(t[i])
    ensures Sum(weight, s) == Sum(other, t)
  {
    if s != [] {
      SumAlike(weight, s[..|s| - 1], other, t[..|t| - 1]);
    }
  }

  ghost predicate NoDuplicates<T(!new)>(s: seq<T>) {
    forall i, j :: 0 <= i < j < |s| ==> s[i] != s[j]
  }

  /** A sequence without repetition fits into any set that holds its elements. */
  lemma {:induction false} Pigeonhole<T(!new)>(s: seq<T>, holes: set<T>)
    requires NoDuplicates(s)
    requires forall i :: 0 <= i < |s| ==> s[i] in holes
    ensures |s| <= |holes|
  {
    if s != [] {
      var n := |s| - 1;
      Pigeonhole(s[..n], holes - {s[n]});
    }
  }
}
