/** Counting and summing over sequences, and taking elements out of them. */
module Sequences {

  /** How many elements of s pass the test. */
  function Tally<T>(s: seq<T>, test: T -> bool): nat {
    if s == [] then 0 else Tally(s[..|s| - 1], test) + (if test(s[|s| - 1]) then 1 else 0)
  }

  lemma TallyAppend<T>(s: seq<T>, v: T, test: T -> bool)
    ensures Tally(s + [v], test) == Tally(s, test) + (if test(v) then 1 else 0)
  {
    assert (s + [v])[..|s|] == s;
  }

  lemma {:induction false} TallyUpdate<T>(s: seq<T>, k: nat, v: T, test: T -> bool)
    requires k < |s|
    ensures Tally(s[k := v], test) == Tally(s, test) - (if test(s[k]) then 1 else 0) + (if test(v) then 1 else 0)
  {
    var n := |s| - 1;
    if k == n {
      assert s[k := v][..n] == s[..n];
    } else {
      TallyUpdate(s[..n], k, v, test);
      assert s[k := v][..n] == s[..n][k := v];
    }
  }

  function Drop<T>(s: seq<T>, k: nat): seq<T>
    requires k < |s|
  {
    s[..k] + s[k + 1..]
  }

  lemma {:induction false} TallyDrop<T>(s: seq<T>, k: nat, test: T -> bool)
    requires k < |s|
    ensures Tally(Drop(s, k), test) == Tally(s, test) - (if test(s[k]) then 1 else 0)
  {
    var n := |s| - 1;
    if k == n {
      assert Drop(s, k) == s[..n];
    } else {
      TallyDrop(s[..n], k, test);
      assert Drop(s, k) == Drop(s[..n], k) + [s[n]];
      TallyAppend(Drop(s[..n], k), s[n], test);
    }
  }

  lemma {:induction false} TallyHas<T>(s: seq<T>, test: T -> bool, i: nat)
    requires i < |s| && test(s[i])
    ensures Tally(s, test) > 0
  {
    if i < |s| - 1 {
      TallyHas(s[..|s| - 1], test, i);
    }
  }

  lemma {:induction false} TallyWhere<T>(s: seq<T>, test: T -> bool) returns (i: nat)
    requires Tally(s, test) > 0
    ensures i < |s| && test(s[i])
  {
    if test(s[|s| - 1]) {
      i := |s| - 1;
    } else {
      i := TallyWhere(s[..|s| - 1], test);
    }
  }

  lemma {:induction false} TallyFull<T>(s: seq<T>, test: T -> bool)
    ensures Tally(s, test) <= |s|
    ensures Tally(s, test) == |s| <==> forall i :: 0 <= i < |s| ==> test(s[i])
  {
    if s != [] {
      var n := |s| - 1;
      TallyFull(s[..n], test);
      assert (forall i :: 0 <= i < |s| ==> test(s[i])) <==> (forall i :: 0 <= i < n ==> test(s[..n][i])) && test(s[n]);
    }
  }

  lemma {:induction false} TallyPrefix<T>(s: seq<T>, k: nat, test: T -> bool)
    requires k <= |s|
    ensures Tally(s[..k], test) <= Tally(s, test)
    decreases |s| - k
  {
    if k < |s| {
      TallyPrefix(s, k + 1, test);
      assert s[..k + 1][..k] == s[..k];
    } else {
      assert s[..k] == s;
    }
  }

  /** The sequence without the first occurrence of an element. */
  function RemoveFirst<T(==)>(s: seq<T>, x: T): seq<T> {
    if s == [] then [] else if s[0] == x then s[1..] else [s[0]] + RemoveFirst(s[1..], x)
  }

  /** An element that is there leaves once, at its first place; the others keep theirs. */
  lemma {:induction false} RemoveFirstMeaning<T>(s: seq<T>, x: T, k: nat)
    requires k <= |s| && (forall i :: 0 <= i < k ==> s[i] != x) && (k < |s| ==> s[k] == x)
    ensures RemoveFirst(s, x) == if k < |s| then Drop(s, k) else s
  {
    if k > 0 {
      RemoveFirstMeaning(s[1..], x, k - 1);
      if k < |s| {
        assert s[1..][..k - 1] == s[1..k];
        assert [s[0]] + s[1..k] == s[..k];
      }
    }
  }

  /** The sum of the weights of the elements. */
  function Sum<T>(s: seq<T>, weight: T -> nat): nat {
    if s == [] then 0 else Sum(s[..|s| - 1], weight) + weight(s[|s| - 1])
  }

  lemma {:induction false} SumUpdate<T>(s: seq<T>, k: nat, v: T, weight: T -> nat)
    requires k < |s|
    ensures Sum(s[k := v], weight) == Sum(s, weight) - weight(s[k]) + weight(v)
  {
    var n := |s| - 1;
    if k == n {
      assert s[k := v][..n] == s[..n];
    } else {
      SumUpdate(s[..n], k, v, weight);
      assert s[k := v][..n] == s[..n][k := v];
    }
  }

  lemma {:induction false} SumPositive<T>(s: seq<T>, weight: T -> nat) returns (k: nat)
    requires Sum(s, weight) > 0
    ensures k < |s| && weight(s[k]) > 0
  {
    if weight(s[|s| - 1]) > 0 {
      k := |s| - 1;
    } else {
      k := SumPositive(s[..|s| - 1], weight);
    }
  }

  lemma {:induction false} SumZero<T>(s: seq<T>, weight: T -> nat)
    requires forall k :: 0 <= k < |s| ==> weight(s[k]) == 0
    ensures Sum(s, weight) == 0
  {
    if s != [] {
      SumZero(s[..|s| - 1], weight);
    }
  }

  lemma {:induction false} TallyAtTwo<T>(s: seq<T>, test: T -> bool, i: nat, j: nat)
    requires i < j < |s| && test(s[i]) && test(s[j])
    ensures Tally(s, test) >= 2
  {
    if j == |s| - 1 {
      TallyHas(s[..j], test, i);
    } else {
      TallyAtTwo(s[..|s| - 1], test, i, j);
    }
  }

  lemma {:induction false} SumAt<T>(s: seq<T>, weight: T -> nat, k: nat)
    requires k < |s|
    ensures Sum(s, weight) >= weight(s[k])
  {
    if k < |s| - 1 {
      SumAt(s[..|s| - 1], weight, k);
    }
  }

  lemma {:induction false} SumAtTwo<T>(s: seq<T>, weight: T -> nat, i: nat, j: nat)
    requires i < j < |s|
    ensures Sum(s, weight) >= weight(s[i]) + weight(s[j])
  {
    if j == |s| - 1 {
      SumAt(s[..j], weight, i);
    } else {
      SumAtTwo(s[..|s| - 1], weight, i, j);
    }
  }
}
