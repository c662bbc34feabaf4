/**
 The composition `main` performs in fractal_name.py for one entered name: the
 name is encoded, the encoding feeds the parameter derivation (which falls
 back to [1]) and, unchanged, the colour gradient (which has no fallback).
 */
module Pipeline {
  import opened Encoder
  import opened Parameters
  import opened Gradient

  /** The field parameters derived for a name. */
  function NameParams(name: string): (p: FieldParams)
    ensures 1 <= p.scaleX <= 10
    ensures p.scaleY == p.scaleX as real * 1.5
  {
    Derive(NameToNumbers(name))
  }

  /** The gradient stops built for a name. */
  function NameGradient(name: string): (g: seq<string>)
    ensures |g| == 9
    ensures forall k :: 0 <= k < |g| ==> IsColor(g[k])
    ensures g[5..] == FixedStops
  {
    GradientColors(NameToNumbers(name))
  }

  /** For a name with at least one letter, c_real + c_imag is the mean alphabet
      position of its letters and so lies in [1, 26]. */
  lemma NameMeanInAlphabetRange(name: string)
    requires exists i :: 0 <= i < |name| && IsLetter(name[i])
    ensures NameParams(name).cReal + NameParams(name).cImag == Mean(NameToNumbers(name))
    ensures 1.0 <= NameParams(name).cReal + NameParams(name).cImag <= 26.0
  {
    var ns := NameToNumbers(name);
    assert ns != [];
    assert WithFallback(ns) == ns;
    MeanBounds(ns, 1, 26);
  }

  /** A name without letters takes the parameters of [1] but the gradient of
      base colour 0, since only the parameter derivation has a fallback. */
  lemma NoLetterName(name: string)
    requires forall i :: 0 <= i < |name| ==> !IsLetter(name[i])
    ensures NameParams(name) == Derive([1])
    ensures NameParams(name) == FieldParams(2, 3.0, 1.0, 0.0, 0.01, 1)
    ensures BaseColor(NameToNumbers(name)) == 0
    ensures ParseColor(NameGradient(name)[0]) == Rgb(0, 0, 0)
  {
    NameToNumbersEmpty(name);
    EmptyUsesFallback();
  }

  /** Letter case has no influence on anything derived from a name. */
  lemma PipelineCaseInsensitive(name: string)
    ensures NameParams(UpperString(name)) == NameParams(name)
    ensures NameGradient(UpperString(name)) == NameGradient(name)
  {
    NameCaseInsensitive(name);
  }

  /** Characters other than letters have no influence either: only the letters,
      in order, matter. */
  lemma {:induction false} OnlyLettersMatter(name: string)
    ensures NameToNumbers(Letters(name)) == NameToNumbers(name)
    ensures NameParams(Letters(name)) == NameParams(name)
    ensures NameGradient(Letters(name)) == NameGradient(name)
  {
    if name != [] {
      OnlyLettersMatter(name[1..]);
      if IsLetter(name[0]) {
        assert Letters(name) == [name[0]] + Letters(name[1..]);
        NameToNumbersAppend([name[0]], Letters(name[1..]));
        assert NameToNumbers([name[0]]) == [LetterToNumber(name[0])];
      }
    }
  }
}
