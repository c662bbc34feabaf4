/**
 Sequence folds and slices used by the parameter derivation and the colour
 gradient of fractal_name.py: Python's `sum`, the reversal `s[::-1]` and the
 strided slices `s[::2]` and `s[1::2]`; and the behaviour of `sum % m` when
 one more number is added.
 */
module Folds {

  /** Python's `sum` over a list of integers, defined from the front. A
      reference definition: SumLeftFold relates it to Python's left-to-right
      accumulation. */
  function Sum(s: seq<int>): int
  {
    if s == [] then 0 else s[0] + Sum(s[1..])
  }

  /** Python's `sum` starts at 0 and adds the elements left to right, so the
      sum of a non-empty list is the sum of all but the last element plus the
      last one; the front-first definition agrees with that. */
  lemma {:induction false} SumLeftFold(s: seq<int>)
    ensures s == [] ==> Sum(s) == 0
    ensures s != [] ==> Sum(s) == Sum(s[..|s| - 1]) + s[|s| - 1]
  {
    if s != [] {
      SumAppend(s[..|s| - 1], [s[|s| - 1]]);
      assert s[..|s| - 1] + [s[|s| - 1]] == s;
    }
  }

  /** `s[::-1]`: the elements of s, last first. */
  function Reverse(s: seq<int>): (r: seq<int>)
    ensures |r| == |s|
    ensures forall i :: 0 <= i < |s| ==> r[i] == s[|s| - 1 - i]
  {
    if s == [] then [] else Reverse(s[1..]) + [s[0]]
  }

  /** `s[::2]`: the elements at even (0-based) indices. */
  function Evens(s: seq<int>): (e: seq<int>)
    ensures |e| == (|s| + 1) / 2
    ensures forall k :: 0 <= k < |e| ==> e[k] == s[2 * k]
    decreases |s|, 1
  {
    if s == [] then [] else [s[0]] + Odds(s[1..])
  }

  /** `s[1::2]`: the elements at odd (0-based) indices. */
  function Odds(s: seq<int>): (o: seq<int>)
    ensures |o| == |s| / 2
    ensures forall k :: 0 <= k < |o| ==> o[k] == s[2 * k + 1]
    decreases |s|, 0
  {
    if s == [] then [] else Evens(s[1..])
  }

  /** The sum of a concatenation is the sum of the parts. */
  lemma {:induction false} SumAppend(a: seq<int>, b: seq<int>)
    ensures Sum(a + b) == Sum(a) + Sum(b)
  {
    if a == [] {
      assert a + b == b;
    } else {
      assert (a + b)[1..] == a[1..] + b;
      SumAppend(a[1..], b);
    }
  }

  /** Reading a sequence backwards does not change its sum. */
  lemma {:induction false} SumReverse(s: seq<int>)
    ensures Sum(Reverse(s)) == Sum(s)
  {
    if s != [] {
      SumReverse(s[1..]);
      SumAppend(Reverse(s[1..]), [s[0]]);
    }
  }

  /** Splitting a sequence into its even- and odd-indexed elements loses nothing of its sum. */
  lemma {:induction false} SumEvensOdds(s: seq<int>)
    ensures Sum(Evens(s)) + Sum(Odds(s)) == Sum(s)
    decreases |s|
  {
    if s != [] {
      SumEvensOdds(s[1..]);
      assert Evens(s) == [s[0]] + Odds(s[1..]);
      assert Odds(s) == Evens(s[1..]);
    }
  }

  /** A sum of elements that all lie in [lo, hi] lies between |s| * lo and |s| * hi. */
  lemma {:induction false} SumBounds(s: seq<int>, lo: int, hi: int)
    requires forall i :: 0 <= i < |s| ==> lo <= s[i] <= hi
    ensures |s| * lo <= Sum(s) <= |s| * hi
  {
    if s != [] {
      SumBounds(s[1..], lo, hi);
    }
  }

  /** (t + x) mod m depends on t only through t mod m. */
  lemma ModShift(t: int, x: int, m: int)
    requires m > 0
    ensures (t + x) % m == (t % m + x) % m
  {
    var q := t / m;
    var y := t % m + x;
    var k := y / m;
    assert t == m * q + t % m;
    assert y == m * k + y % m;
    assert t + x == m * (q + k) + y % m;
    ModUnique(t + x, m, q + k, y % m);
  }

  /** Euclidean division is unique: a = m * q + r with 0 <= r < m fixes r. */
  lemma ModUnique(a: int, m: int, q: int, r: int)
    requires m > 0 && a == m * q + r && 0 <= r < m
    ensures a % m == r
  {
    var q' := a / m;
    assert a == m * q' + a % m;
    if q' < q {
      assert m * q - m * q' == m * (q - q');
      MulAtLeast(m, q - q');
    } else if q' > q {
      assert m * q' - m * q == m * (q' - q);
      MulAtLeast(m, q' - q);
    }
  }

  /** A positive multiple k >= 1 of m is at least m. */
  lemma MulAtLeast(m: int, k: int)
    requires m > 0 && k >= 1
    ensures m * k >= m
  {
  }
}
