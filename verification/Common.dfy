/** Datatypes and sums shared by the component models. */
module Common {

  datatype Option<+T> = None | Some(value: T)

  datatype Result<+T, +E> = Ok(value: T) | Err(error: E)

  lemma SubsetIsSmaller<T>(a: set<T>, b: set<T>)
    requires a <= b
    ensures |a| <= |b|
  {
    assert b == a + (b - a);
  }

  /** The sum of `weight` over all rows of a table. */
  function Sum<T>(rows: seq<T>, weight: T -> real): real {
    if rows == [] then 0.0
    else Sum(rows[..|rows| - 1], weight) + weight(rows[|rows| - 1])
  }

  lemma SumAppend<T>(rows: seq<T>, row: T, weight: T -> real)
    ensures Sum(rows + [row], weight) == Sum(rows, weight) + weight(row)
  {
    assert (rows + [row])[..|rows|] == rows;
  }

  lemma {:induction false} SumUpdate<T>(rows: seq<T>, i: nat, row: T, weight: T -> real)
    requires i < |rows|
    ensures Sum(rows[i := row], weight) == Sum(rows, weight) - weight(rows[i]) + weight(row)
  {
    var n := |rows| - 1;
    if i == n {
      assert rows[i := row][..n] == rows[..n];
    } else {
      assert rows[i := row][..n] == rows[..n][i := row];
      SumUpdate(rows[..n], i, row, weight);
    }
  }

  lemma {:induction false} SumNonNegative<T>(rows: seq<T>, weight: T -> real)
    requires forall i :: 0 <= i < |rows| ==> weight(rows[i]) >= 0.0
    ensures Sum(rows, weight) >= 0.0
  {
    if rows != [] {
      SumNonNegative(rows[..|rows| - 1], weight);
    }
  }

  /** One row can never weigh more than the whole table. */
  lemma {:induction false} SumBoundsRow<T>(rows: seq<T>, i: nat, weight: T -> real)
    requires i < |rows|
    requires forall k :: 0 <= k < |rows| ==> weight(rows[k]) >= 0.0
    ensures weight(rows[i]) <= Sum(rows, weight)
  {
    var init := rows[..|rows| - 1];
    if i < |init| {
      SumBoundsRow(init, i, weight);
    } else {
      SumNonNegative(init, weight);
    }
  }

  lemma {:induction false} SumZero<T>(rows: seq<T>, weight: T -> real)
    requires forall i :: 0 <= i < |rows| ==> weight(rows[i]) == 0.0
    ensures Sum(rows, weight) == 0.0
  {
    if rows != [] {
      SumZero(rows[..|rows| - 1], weight);
    }
  }
}
