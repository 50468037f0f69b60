/** Sums over sequences, for counting threads, peers and connections in a given state. */
module Counting {

  function Sum<T>(s: seq<T>, weight: T -> nat): nat {
    if s == [] then 0 else Sum(s[..|s| - 1], weight) + weight(s[|s| - 1])
  }

  lemma {:induction false} SumUpdate<T>(s: seq<T>, i: nat, x: T, weight: T -> nat)
    requires i < |s|
    ensures Sum(s[i := x], weight) + weight(s[i]) == Sum(s, weight) + weight(x)
  {
    var n := |s| - 1;
    if i == n {
      assert s[i := x][..n] == s[..n];
    } else {
      SumUpdate(s[..n], i, x, weight);
      assert s[i := x][..n] == s[..n][i := x];
    }
  }

  lemma {:induction false} SumHasTerm<T>(s: seq<T>, i: nat, weight: T -> nat)
    requires i < |s|
    ensures weight(s[i]) <= Sum(s, weight)
  {
    if i < |s| - 1 { SumHasTerm(s[..|s| - 1], i, weight); }
  }

  // Raising every weight by at most k raises the sum by at most k for each element.
  lemma {:induction false} SumGrows<T>(s: seq<T>, t: seq<T>, weight: T -> nat, k: nat)
    requires |s| == |t|
    requires forall i :: 0 <= i < |s| ==> weight(t[i]) <= weight(s[i]) + k
    ensures Sum(t, weight) <= Sum(s, weight) + k * |s|
  {
    if s == [] {
    } else {
      SumGrows(s[..|s| - 1], t[..|s| - 1], weight, k);
      assert k * |s| == k * (|s| - 1) + k;
    }
  }

  lemma {:induction false} SumFirst<T>(s: seq<T>, weight: T -> nat)
    requires s != []
    ensures Sum(s, weight) == weight(s[0]) + Sum(s[1..], weight)
  {
    if |s| == 1 {
      assert Sum(s[..0], weight) == 0;
    } else {
      SumFirst(s[..|s| - 1], weight);
      assert s[..|s| - 1][1..] == s[1..][..|s| - 2];
    }
  }

  function Bit(b: bool): nat { if b then 1 else 0 }

  function Trues(s: seq<bool>): nat { Sum(s, Bit) }

  lemma {:induction false} TruesBound(s: seq<bool>)
    ensures Trues(s) <= |s|
    ensures Trues(s) == |s| <==> forall i :: 0 <= i < |s| ==> s[i]
  {
    if s == [] {
    } else {
      TruesBound(s[..|s| - 1]);
      assert forall i :: 0 <= i < |s| - 1 ==> s[..|s| - 1][i] == s[i];
    }
  }
}
