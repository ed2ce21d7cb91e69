/** Sums of an integer column over the rows of a table. */
module Sums {

  /** The sum of `share(row)` over every row of a table. */
  function Sum<T>(rows: seq<T>, share: T -> int): int {
    if rows == [] then 0 else Sum(rows[..|rows| - 1], share) + share(rows[|rows| - 1])
  }

  lemma SumAppend<T>(rows: seq<T>, row: T, share: T -> int)
    ensures Sum(rows + [row], share) == Sum(rows, share) + share(row)
  {
    assert (rows + [row])[..|rows|] == rows;
  }

  lemma {:induction false} SumConcat<T>(left: seq<T>, right: seq<T>, share: T -> int)
    ensures Sum(left + right, share) == Sum(left, share) + Sum(right, share)
    decreases |right|
  {
    if right == [] {
      assert left + right == left;
    } else {
      var most, last := right[..|right| - 1], right[|right| - 1];
      assert left + right == (left + most) + [last];
      SumAppend(left + most, last, share);
      SumConcat(left, most, share);
    }
  }

  /** Rewriting one row moves the sum by the difference of the two shares. */
  lemma {:induction false} SumUpdate<T>(rows: seq<T>, i: nat, row: T, share: T -> int)
    requires i < |rows|
    ensures Sum(rows[i := row], share) == Sum(rows, share) - share(rows[i]) + share(row)
  {
    var n := |rows| - 1;
    if i == n {
      assert rows[i := row][..n] == rows[..n];
    } else {
      assert rows[i := row][..n] == rows[..n][i := row];
      SumUpdate(rows[..n], i, row, share);
    }
  }

  /** Two tables of one length whose rows have equal shares have equal sums. */
  lemma {:induction false} SumCongruent<T>(a: seq<T>, b: seq<T>, f: T -> int, g: T -> int)
    requires |a| == |b|
    requires forall i :: 0 <= i < |a| ==> f(a[i]) == g(b[i])
    ensures Sum(a, f) == Sum(b, g)
  {
    if a != [] {
      SumCongruent(a[..|a| - 1], b[..|b| - 1], f, g);
    }
  }

  lemma {:induction false} SumNonNegative<T>(rows: seq<T>, share: T -> int)
    requires forall i :: 0 <= i < |rows| ==> share(rows[i]) >= 0
    ensures Sum(rows, share) >= 0
    ensures forall i :: 0 <= i < |rows| ==> share(rows[i]) <= Sum(rows, share)
  {
    if rows != [] {
      SumNonNegative(rows[..|rows| - 1], share);
    }
  }

  lemma {:induction false} SumZero<T>(rows: seq<T>, share: T -> int)
    requires forall i :: 0 <= i < |rows| ==> share(rows[i]) == 0
    ensures Sum(rows, share) == 0
  {
    if rows != [] {
      SumZero(rows[..|rows| - 1], share);
    }
  }

  /** If every row weighs either nothing or `unit` times its count, so does the table. */
  lemma {:induction false} SumScaled<T>(rows: seq<T>, share: T -> int, count: T -> int, unit: int)
    requires forall i :: 0 <= i < |rows| ==> share(rows[i]) == unit * count(rows[i])
    ensures Sum(rows, share) == unit * Sum(rows, count)
  {
    if rows != [] {
      SumScaled(rows[..|rows| - 1], share, count, unit);
    }
  }

  /** A column that splits row by row splits in total. */
  lemma {:induction false} SumSplits<T>(rows: seq<T>, whole: T -> int, left: T -> int, right: T -> int)
    requires forall i :: 0 <= i < |rows| ==> whole(rows[i]) == left(rows[i]) + right(rows[i])
    ensures Sum(rows, whole) == Sum(rows, left) + Sum(rows, right)
  {
    if rows != [] {
      SumSplits(rows[..|rows| - 1], whole, left, right);
    }
  }
}
