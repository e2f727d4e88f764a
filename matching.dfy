/** The matching-funds formula as the contract computes it: for each slot the
    floor square root `s` of the slot's donation total, the sum of all `s * s`,
    and for each slot `(s * s) / sum` in integer division. Because the square
    root is squared straight back on the aggregate total, `s * s` never exceeds
    the sum, so every slot's share is 0 or 1. */
module MatchingEngine {
  import opened Avm

  /** `Isqrt(t) * Isqrt(t)`: the largest perfect square not above `t`. It is
      itself a uint64, so the AVM `*` that squares the root never overflows. */
  function Square(t: uint64): (q: uint64)
    ensures q <= t
    ensures q == 0 <==> t == 0
  {
    Isqrt(t) * Isqrt(t)
  }

  /** The sum of the squares of all slots, before any uint64 bound is applied. */
  function SumOfSquares(totals: seq<uint64>): nat
  {
    if totals == [] then 0
    else SumOfSquares(totals[..|totals| - 1]) + Square(totals[|totals| - 1])
  }

  /** A slot's matching fund: its square divided by the sum of squares. Both are
      non-negative, so the AVM's truncating division and Dafny's agree. */
  function Share(totals: seq<uint64>, i: nat): nat
    requires i < |totals| && SumOfSquares(totals) > 0
  {
    SquareAtMostSum(totals, i);
    PartOverWhole(Square(totals[i]), SumOfSquares(totals));
    Square(totals[i]) / SumOfSquares(totals)
  }

  /** Extending the slots by one adds that slot's square. */
  lemma SumOfSquaresStep(totals: seq<uint64>, i: nat)
    requires i < |totals|
    ensures SumOfSquares(totals[..i + 1]) == SumOfSquares(totals[..i]) + Square(totals[i])
  {
    assert totals[..i + 1][..i] == totals[..i];
  }

  /** A prefix never has a larger sum of squares than the whole. */
  lemma {:induction false} SumOfSquaresPrefix(totals: seq<uint64>, n: nat)
    requires n <= |totals|
    ensures SumOfSquares(totals[..n]) <= SumOfSquares(totals)
    decreases |totals| - n
  {
    if n < |totals| {
      SumOfSquaresStep(totals, n);
      SumOfSquaresPrefix(totals, n + 1);
    } else {
      assert totals[..n] == totals;
    }
  }

  /** Two different slots' squares together never exceed the sum. */
  lemma {:induction false} TwoSquaresAtMostSum(totals: seq<uint64>, i: nat, j: nat)
    requires i < |totals| && j < |totals| && i != j
    ensures Square(totals[i]) + Square(totals[j]) <= SumOfSquares(totals)
  {
    var last := |totals| - 1;
    var init := totals[..last];
    if i == last {
      SquareAtMostSum(init, j);
    } else if j == last {
      SquareAtMostSum(init, i);
    } else {
      TwoSquaresAtMostSum(init, i, j);
    }
  }

  /** A single slot's square never exceeds the sum. */
  lemma {:induction false} SquareAtMostSum(totals: seq<uint64>, i: nat)
    requires i < |totals|
    ensures Square(totals[i]) <= SumOfSquares(totals)
  {
    var last := |totals| - 1;
    if i != last {
      SquareAtMostSum(totals[..last], i);
    }
  }

  /** When every slot but `i` is 0, the sum of squares is slot `i`'s square alone. */
  lemma {:induction false} SumOfSquaresSole(totals: seq<uint64>, i: nat)
    requires i < |totals|
    requires forall j :: 0 <= j < |totals| && j != i ==> totals[j] == 0
    ensures SumOfSquares(totals) == Square(totals[i])
  {
    var last := |totals| - 1;
    if i == last {
      SumOfSquaresZero(totals[..last]);
    } else {
      SumOfSquaresSole(totals[..last], i);
    }
  }

  /** The sum of squares is 0 exactly when no slot holds any donations: this is
      when the matching computation divides by zero. */
  lemma {:induction false} SumOfSquaresZero(totals: seq<uint64>)
    ensures SumOfSquares(totals) == 0 <==> forall i :: 0 <= i < |totals| ==> totals[i] == 0
  {
    if totals != [] {
      var last := |totals| - 1;
      SumOfSquaresZero(totals[..last]);
      assert forall i :: 0 <= i < last ==> totals[..last][i] == totals[i];
    }
  }

  /** Truncating division of a part by a positive whole it does not exceed. */
  lemma PartOverWhole(q: nat, sum: nat)
    requires 0 < sum && q <= sum
    ensures q / sum == if q == sum then 1 else 0
  {
  }

  /** Every share is 0 or 1, and it is 1 exactly when slot `i` is the only slot
      that holds any donations. */
  lemma ShareIsZeroOrOne(totals: seq<uint64>, i: nat)
    requires i < |totals| && SumOfSquares(totals) > 0
    ensures Share(totals, i) <= 1
    ensures Share(totals, i) == 1 <==>
      totals[i] > 0 && forall j :: 0 <= j < |totals| && j != i ==> totals[j] == 0
  {
    var q, sum := Square(totals[i]), SumOfSquares(totals);
    SquareAtMostSum(totals, i);
    PartOverWhole(q, sum);
    if q == sum {
      forall j | 0 <= j < |totals| && j != i
        ensures totals[j] == 0
      {
        TwoSquaresAtMostSum(totals, i, j);
      }
    } else {
      if totals[i] > 0 && forall j :: 0 <= j < |totals| && j != i ==> totals[j] == 0 {
        SumOfSquaresSole(totals, i);
        assert false;
      }
    }
  }

  /** No two slots both receive a share of 1. */
  lemma AtMostOneFullShare(totals: seq<uint64>, i: nat, j: nat)
    requires i < |totals| && j < |totals| && i != j && SumOfSquares(totals) > 0
    ensures Share(totals, i) == 0 || Share(totals, j) == 0
  {
    ShareIsZeroOrOne(totals, i);
    ShareIsZeroOrOne(totals, j);
  }

  /** Slots from `n` on that hold nothing add nothing to the sum of squares. */
  lemma {:induction false} SumOfSquaresZeroTail(totals: seq<uint64>, n: nat)
    requires n <= |totals|
    requires forall j :: n <= j < |totals| ==> totals[j] == 0
    ensures SumOfSquares(totals) == SumOfSquares(totals[..n])
  {
    if n == |totals| {
      assert totals[..n] == totals;
    } else {
      var last := |totals| - 1;
      SumOfSquaresZeroTail(totals[..last], n);
      assert totals[..last][..n] == totals[..n];
    }
  }

  /** A worked example: organization A holds 200, B holds 100,
      the other eight slots nothing. The squares are 196 and 100, their sum is
      296, and truncating division gives both A and B a share of 0. */
  lemma TwoOrganizationExample(totals: seq<uint64>)
    requires totals == [200, 100, 0, 0, 0, 0, 0, 0, 0, 0]
    ensures SumOfSquares(totals) == 296
    ensures Share(totals, 0) == 0 && Share(totals, 1) == 0
  {
    IsqrtUnique(totals[0], 14);
    IsqrtUnique(totals[1], 10);
    assert SumOfSquares(totals[..1]) == 196 by {
      SumOfSquaresStep(totals, 0);
    }
    SumOfSquaresStep(totals, 1);
    SumOfSquaresZeroTail(totals, 2);
  }
}
