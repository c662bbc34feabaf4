/**
 The counting shell of the iteration loop of `generate_fractal` in
 fractal_name.py. The complex grid evolution is abstracted into a per-cell,
 per-round test `bounded(round, row, column)`: whether that cell's value is
 still below magnitude 1000 after the given round. Each round adds 0 or 1 to
 every cell of a size x size grid that starts at zero.
 */
module EscapeCount {

  /** A grid of escape counts, row by row. */
  type Grid = seq<seq<int>>

  /** The per-cell, per-round outcome of the complex iteration. */
  type BoundedTest = (nat, nat, nat) -> bool

  /** g has `size` rows of `size` cells each. */
  predicate IsSquare(g: Grid, size: nat) {
    |g| == size && forall i :: 0 <= i < size ==> |g[i]| == size
  }

  /** Python's `range(iterations)` runs no round at all for a negative count. */
  function Rounds(iterations: int): (n: nat)
    ensures iterations >= 0 ==> n == iterations
    ensures iterations < 0 ==> n == 0
  {
    if iterations < 0 then 0 else iterations
  }

  /** The reference count: in how many of the first k rounds cell (i, j) stayed bounded. */
  function EscapeCountOf(bounded: BoundedTest, i: nat, j: nat, k: nat): (c: nat)
    ensures c <= k
  {
    if k == 0 then 0
    else EscapeCountOf(bounded, i, j, k - 1) + (if bounded(k - 1, i, j) then 1 else 0)
  }

  /** `np.zeros((size, size), dtype=int)`. */
  function Zeros(size: nat): (g: Grid)
    ensures IsSquare(g, size)
    ensures forall i, j :: 0 <= i < size && 0 <= j < size ==> g[i][j] == 0
  {
    seq(size, i => seq(size, j => 0))
  }

  /** `fractal += abs(Z) < 1000` for round r: every cell gains 1 exactly when it
      stayed bounded in that round, and nothing else changes. */
  function AddRound(g: Grid, size: nat, bounded: BoundedTest, r: nat): (g': Grid)
    requires IsSquare(g, size)
    ensures IsSquare(g', size)
    ensures forall i, j :: 0 <= i < size && 0 <= j < size ==>
      g[i][j] <= g'[i][j] <= g[i][j] + 1 && (g'[i][j] == g[i][j] + 1 <==> bounded(r, i, j))
  {
    seq(size, i requires 0 <= i < size =>
      seq(size, j requires 0 <= j < size => g[i][j] + (if bounded(r, i, j) then 1 else 0)))
  }

  /** The escape-count loop: after all rounds every cell holds its reference
      count, which lies in [0, iterations]. */
  method Generate(size: nat, iterations: int, bounded: BoundedTest) returns (field: Grid)
    ensures IsSquare(field, size)
    ensures forall i, j :: 0 <= i < size && 0 <= j < size ==>
      field[i][j] == EscapeCountOf(bounded, i, j, Rounds(iterations))
    ensures forall i, j :: 0 <= i < size && 0 <= j < size ==>
      0 <= field[i][j] <= Rounds(iterations)
  {
    var n := Rounds(iterations);
    field := Zeros(size);
    var k: nat := 0;
    while k < n
      invariant k <= n
      invariant IsSquare(field, size)
      invariant forall i, j :: 0 <= i < size && 0 <= j < size ==>
        field[i][j] == EscapeCountOf(bounded, i, j, k)
    {
      field := AddRound(field, size, bounded, k);
      k := k + 1;
    }
  }

  /** A cell reaches the full count exactly when it stayed bounded in every round. */
  lemma {:induction false} FullCountIffAlwaysBounded(bounded: BoundedTest, i: nat, j: nat, k: nat)
    ensures EscapeCountOf(bounded, i, j, k) == k <==> forall r: nat :: r < k ==> bounded(r, i, j)
  {
    if k > 0 {
      FullCountIffAlwaysBounded(bounded, i, j, k - 1);
    }
  }

  /** A cell's count is zero exactly when it was never bounded. */
  lemma {:induction false} ZeroCountIffNeverBounded(bounded: BoundedTest, i: nat, j: nat, k: nat)
    ensures EscapeCountOf(bounded, i, j, k) == 0 <==> forall r: nat :: r < k ==> !bounded(r, i, j)
  {
    if k > 0 {
      ZeroCountIffNeverBounded(bounded, i, j, k - 1);
    }
  }

  /** Counts only grow with the number of rounds, by at most one per extra round. */
  lemma {:induction false} CountMonotone(bounded: BoundedTest, i: nat, j: nat, k: nat, m: nat)
    requires k <= m
    ensures EscapeCountOf(bounded, i, j, k) <= EscapeCountOf(bounded, i, j, m)
    ensures EscapeCountOf(bounded, i, j, m) - EscapeCountOf(bounded, i, j, k) <= m - k
    decreases m - k
  {
    if k < m {
      CountMonotone(bounded, i, j, k, m - 1);
    }
  }
}
