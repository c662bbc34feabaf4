/**
 The integer part of `generate_fractal` in fractal_name.py: the empty-input
 fallback and the scalar parameters derived from a numeric sequence. Python's
 float results are read as exact reals; the sine of the last parameter is
 not computed, only its integer argument.
 */
module Parameters {
  import opened Folds

  /** The scalars that steer the fractal field. `sineArgument` is the integer
      whose sine becomes `extra_term`. */
  datatype FieldParams = FieldParams(
    scaleX: int,
    scaleY: real,
    cReal: real,
    cImag: real,
    noiseFactor: real,
    sineArgument: int
  )

  /** The sequence the parameters are derived from: an empty input is replaced by [1]. */
  function WithFallback(ns: seq<int>): (s: seq<int>)
    ensures |s| >= 1
    ensures ns != [] ==> s == ns
    ensures ns == [] ==> s == [1]
  {
    if ns == [] then [1] else ns
  }

  /** The average of a non-empty sequence, as an exact real. */
  function Mean(s: seq<int>): real
    requires s != []
  {
    Sum(s) as real / |s| as real
  }

  /** The share of `part` per element of s: `part / len(s)` as an exact real. */
  function Share(part: int, s: seq<int>): real
    requires s != []
  {
    part as real / |s| as real
  }

  /** The mean of a non-empty sequence whose elements lie in [lo, hi] lies in [lo, hi]. */
  lemma MeanBounds(s: seq<int>, lo: int, hi: int)
    requires s != []
    requires forall i :: 0 <= i < |s| ==> lo <= s[i] <= hi
    ensures lo as real <= Mean(s) <= hi as real
  {
    SumBounds(s, lo, hi);
    QuotientBounds(Sum(s), |s|, lo, hi);
  }

  /** A total between n * lo and n * hi, divided by n, lies between lo and hi. */
  lemma QuotientBounds(t: int, n: int, lo: int, hi: int)
    requires n > 0 && n * lo <= t <= n * hi
    ensures lo as real <= t as real / n as real <= hi as real
  {
    var m := n as real;
    assert m * lo as real <= t as real <= m * hi as real;
  }

  /** `scale_x = sum % 10 + 1`. */
  function ScaleX(s: seq<int>): (x: int)
    ensures 1 <= x <= 10
  {
    Sum(s) % 10 + 1
  }

  /** `scale_y`, computed from the reversed sequence; since reversal keeps the
      sum, it is always one and a half times scale_x. */
  function ScaleY(s: seq<int>): (y: real)
    ensures y == ScaleX(s) as real * 1.5
  {
    SumReverse(s);
    (Sum(Reverse(s)) % 10 + 1) as real * 1.5
  }

  /** `noise_factor = (sum % 5) / 100`. */
  function NoiseFactor(s: seq<int>): (f: real)
    ensures 0.0 <= f <= 0.04
  {
    (Sum(s) % 5) as real / 100.0
  }

  /** The argument of the sine in `extra_term`: `sum % 50`. */
  function SineArgument(s: seq<int>): (a: int)
    ensures 0 <= a < 50
  {
    Sum(s) % 50
  }

  /** Parameter derivation of `generate_fractal`: the grid scales, the complex
      constant, the noise factor and the sine argument. */
  function Derive(ns: seq<int>): (p: FieldParams)
    ensures 1 <= p.scaleX <= 10
    ensures p.scaleY == p.scaleX as real * 1.5
    ensures 1.5 <= p.scaleY <= 15.0
    ensures p.cReal + p.cImag == Mean(WithFallback(ns))
    ensures |WithFallback(ns)| == 1 ==> p.cImag == 0.0
    ensures 0.0 <= p.noiseFactor <= 0.04
    ensures 0 <= p.sineArgument < 50
  {
    var s := WithFallback(ns);
    SumEvensOdds(s);
    SplitMean(Sum(Evens(s)), Sum(Odds(s)), |s| as real);
    FieldParams(
      ScaleX(s),
      ScaleY(s),
      Share(Sum(Evens(s)), s),
      Share(Sum(Odds(s)), s),
      NoiseFactor(s),
      SineArgument(s)
    )
  }

  /** Dividing two parts by the same count adds up to dividing their total. */
  lemma SplitMean(a: int, b: int, n: real)
    requires n > 0.0
    ensures a as real / n + b as real / n == (a + b) as real / n
  {
  }

  /** Every quantity Derive computes is a function of the sum of the sequence,
      except the complex constant, which is split by index parity. */
  lemma {:induction false} DeriveDependsOnSum(a: seq<int>, b: seq<int>)
    requires a != [] && b != []
    requires Sum(a) == Sum(b)
    ensures Derive(a).scaleX == Derive(b).scaleX
    ensures Derive(a).scaleY == Derive(b).scaleY
    ensures Derive(a).noiseFactor == Derive(b).noiseFactor
    ensures Derive(a).sineArgument == Derive(b).sineArgument
    ensures |a| == |b| ==> Derive(a).cReal + Derive(a).cImag == Derive(b).cReal + Derive(b).cImag
  {
  }

  /** c_real and c_imag are the sums over the even and the odd indices of the
      (fallback) sequence, each divided by its length. */
  lemma DeriveComplexConstant(ns: seq<int>)
    ensures Derive(ns).cReal * |WithFallback(ns)| as real == Sum(Evens(WithFallback(ns))) as real
    ensures Derive(ns).cImag * |WithFallback(ns)| as real == Sum(Odds(WithFallback(ns))) as real
  {
    DeriveRealPart(ns);
    DeriveImagPart(ns);
  }

  /** c_real times the length is the sum over the even indices. */
  lemma DeriveRealPart(ns: seq<int>)
    ensures Derive(ns).cReal * |WithFallback(ns)| as real == Sum(Evens(WithFallback(ns))) as real
  {
    var s := WithFallback(ns);
    DeriveParts(ns);
    ScaleBack(Derive(ns).cReal, Sum(Evens(s)), |s|);
  }

  /** c_imag times the length is the sum over the odd indices. */
  lemma DeriveImagPart(ns: seq<int>)
    ensures Derive(ns).cImag * |WithFallback(ns)| as real == Sum(Odds(WithFallback(ns))) as real
  {
    var s := WithFallback(ns);
    DeriveParts(ns);
    ScaleBack(Derive(ns).cImag, Sum(Odds(s)), |s|);
  }

  /** A share c of `part` over n elements, multiplied by n, gives the part back. */
  lemma ScaleBack(c: real, part: int, n: int)
    requires n > 0 && c == part as real / n as real
    ensures c * n as real == part as real
  {
  }

  /** c_real and c_imag are the shares of the even-index and the odd-index sums. */
  lemma DeriveParts(ns: seq<int>)
    ensures Derive(ns).cReal == Share(Sum(Evens(WithFallback(ns))), WithFallback(ns))
    ensures Derive(ns).cImag == Share(Sum(Odds(WithFallback(ns))), WithFallback(ns))
  {
  }

  /** Appending x to a non-empty sequence shifts scale_x - 1, the noise numerator
      and the sine argument by x, modulo 10, 5 and 50. Starting from Derive([1]),
      this fixes those fields for every input as functions of the sum. */
  lemma DeriveAppend(ns: seq<int>, x: int)
    requires ns != []
    ensures Derive(ns + [x]).scaleX - 1 == (Derive(ns).scaleX - 1 + x) % 10
    ensures Derive(ns + [x]).noiseFactor * 100.0 == (((Derive(ns).noiseFactor * 100.0).Floor + x) % 5) as real
    ensures Derive(ns + [x]).sineArgument == (Derive(ns).sineArgument + x) % 50
  {
    var t := Sum(ns);
    SumAppend(ns, [x]);
    assert Sum([x]) == x;
    assert Sum(ns + [x]) == t + x;
    DeriveFromSum(ns);
    DeriveFromSum(ns + [x]);
    ModShift(t, x, 10);
    ModShift(t, x, 5);
    ModShift(t, x, 50);
  }

  /** For a non-empty sequence, scale_x, the noise numerator and the sine
      argument are the sum modulo 10 (plus one), 5 and 50. */
  lemma DeriveFromSum(s: seq<int>)
    requires s != []
    ensures Derive(s).scaleX == Sum(s) % 10 + 1
    ensures Derive(s).noiseFactor * 100.0 == (Sum(s) % 5) as real
    ensures (Derive(s).noiseFactor * 100.0).Floor == Sum(s) % 5
    ensures Derive(s).sineArgument == Sum(s) % 50
  {
    assert WithFallback(s) == s;
  }

  /** An empty sequence yields exactly the parameters of [1]. */
  lemma EmptyUsesFallback()
    ensures Derive([]) == Derive([1])
    ensures Derive([]) == FieldParams(2, 3.0, 1.0, 0.0, 0.01, 1)
  {
    assert Evens([1]) == [1];
    assert Odds([1]) == [];
  }

  /** The name "AB", whose sequence is [1, 2]. */
  lemma ParamsOfAB()
    ensures Derive([1, 2]) == FieldParams(4, 6.0, 0.5, 1.0, 0.03, 3)
  {
    assert Evens([1, 2]) == [1];
    assert Odds([1, 2]) == [2];
    assert Reverse([1, 2]) == [2, 1];
  }
}
