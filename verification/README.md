# fractal_name in Dafny

A model of the integer and string logic of `fractal_name.py`, a small program
that turns a person's name into a fractal image. The pipeline is: the name is
encoded as alphabet positions; a handful of field parameters are derived from
those numbers; an escape-count grid is accumulated over a number of rounds;
and a nine-stop colour gradient is built from the same numbers.

Modules, one per stage:

- `Encoder` (`encoder.dfy`): `letter_to_number` and `name_to_numbers`. Letters
  are ASCII letters; each becomes its 1-based alphabet position, in either case.
- `Folds` (`folds.dfy`): Python's `sum`, the reversal `s[::-1]` and the strided
  slices `s[::2]` and `s[1::2]`, with the sum identities the derivation relies on
  and the step of `sum % m` when one number is appended.
- `Parameters` (`parameters.dfy`): the empty-input fallback to `[1]` and the
  scalar parameters of `generate_fractal`. Python floats are read as exact
  reals. For `extra_term` the model keeps only the integer argument of the sine.
- `EscapeCount` (`escape_count.dfy`): the counting shell of the iteration loop.
  A function parameter `bounded(round, row, column)` stands for the complex
  evolution. It says whether a cell is still below magnitude 1000 after a round.
- `Gradient` (`gradient.dfy`): `base_color`, the `02x` hex formatting and the
  nine `#RRGGBB` stops of `dynamic_color_map`, with a parser that reads the
  channels back.
- `Pipeline` (`pipeline.dfy`): what `main` does with one name. The encoding
  goes to the parameter derivation, which has the fallback, and unchanged to
  the gradient, which has none.

Python's `%` with a positive divisor never returns a negative value, and
neither does Dafny's, so `sum % 10`, `sum % 5`, `sum % 50` and `sum % 256` are
modelled for every integer sequence, not only for sequences of letters.
`scale_y` lies in [1.5, 15]: it is 1.5 × `scale_x`, and `scale_x` lies in
[1, 10].

## Model

| member | source | states |
|---|---|---|
| Encoder.IsLetter | fractal_name.py:14 | `char.isalpha()` read over ASCII: the letters 'A'..'Z' and 'a'..'z', a predicate with no contract of its own |
| Encoder.ToUpper | fractal_name.py:9 | `letter.upper()` over ASCII only: a letter stays a letter and a non-letter stays a non-letter, letters come out in 'A'..'Z', a lower-case letter c becomes the capital at alphabet position c - 'a', and every character other than 'a'..'z' is unchanged |
| Encoder.LetterToNumber | fractal_name.py:7-10 | An ASCII letter of either case is numbered 1..26 by its position in the upper-case alphabet; a lower-case letter c gets c - 'a' + 1; an ASCII non-letter lands outside 1..26 |
| Encoder.LetterRoundTrip | fractal_name.py:7-10 | Numbering an upper-case letter and taking that alphabet position back gives the letter again; numbering the letter at position n gives n |
| Encoder.LetterCaseInsensitive | fractal_name.py:7-10 | Upper-casing a character first does not change its number; 'a' and 'A' are 1, 'z' and 'Z' are 26 |
| Encoder.Letters | fractal_name.py:14 | The `isalpha` filter keeps only letters and is no longer than the name; it is empty exactly when the name has no letter (that it keeps every letter, in order, is stated by the two lemmas below) |
| Encoder.LettersKeepsEveryLetter | fractal_name.py:14 | Every letter occurs in the filtered string exactly as often as in the name, and no other character occurs at all |
| Encoder.LettersAppend | fractal_name.py:14 | Filtering a concatenation gives the concatenation of the filtered parts, and a one-character name keeps its character exactly when it is a letter; so the letters keep the name's order |
| Encoder.NameToNumbers | fractal_name.py:12-14 | One number per letter (length equals the letter count), every number in 1..26, and the i-th number is the alphabet position of the i-th letter, upper-cased |
| Encoder.NameRoundTrip | fractal_name.py:12-14 | Turning the numbers of a name back into letters yields exactly the name's letters, upper-cased and in order |
| Encoder.NameToNumbersAppend | fractal_name.py:12-14 | Encoding a concatenation is the concatenation of the encodings, so input order is preserved |
| Encoder.NameToNumbersEmpty | fractal_name.py:12-14 | A name encodes to the empty list exactly when it contains no letter |
| Encoder.NameCaseInsensitive | fractal_name.py:7-14 | Upper-casing the whole name first does not change its encoding |
| Folds.Sum | fractal_name.py:22-25 | A reference definition of Python's `sum`, with no contract of its own; SumLeftFold relates it to Python's left-to-right accumulation |
| Folds.SumLeftFold | fractal_name.py:22-25 | The sum of the empty list is 0, and the sum of a non-empty list is the sum of all but its last element plus the last element, which is how Python's `sum` accumulates |
| Folds.Reverse | fractal_name.py:23 | `s[::-1]` has the length of s and holds s's elements last first |
| Folds.Evens | fractal_name.py:24 | `s[::2]` has ceil(\|s\|/2) elements, the k-th being s[2k] |
| Folds.Odds | fractal_name.py:25 | `s[1::2]` has floor(\|s\|/2) elements, the k-th being s[2k+1] |
| Folds.SumReverse | fractal_name.py:22-23 | The reversed list has the same sum, so the two sums of scale_x and scale_y agree |
| Folds.SumEvensOdds | fractal_name.py:24-25 | The even-index sum plus the odd-index sum is the total sum |
| Parameters.WithFallback | fractal_name.py:18-19 | The list used for derivation is never empty: an empty input becomes [1], any other input is kept |
| Parameters.MeanBounds | fractal_name.py:24-25 | The mean of a non-empty list whose elements all lie in [lo, hi] also lies in [lo, hi] |
| Parameters.ScaleX | fractal_name.py:22 | scale_x, the sum modulo 10 plus one, lies in [1,10]; DeriveFromSum and DeriveAppend state its value |
| Parameters.ScaleY | fractal_name.py:23 | scale_y, computed from the reversed list, is exactly 1.5 × scale_x of the list itself |
| Parameters.NoiseFactor | fractal_name.py:28 | noise_factor, the sum modulo 5 divided by 100, lies in [0,0.04]; DeriveFromSum and DeriveAppend state its value |
| Parameters.SineArgument | fractal_name.py:29 | The argument of the sine, the sum modulo 50, lies in [0,49]; DeriveFromSum and DeriveAppend state its value |
| Parameters.Derive | fractal_name.py:18-29 | scale_x lies in [1,10]; scale_y is exactly 1.5 × scale_x and lies in [1.5,15]; c_real + c_imag is the mean of the (fallback) list; c_imag is 0 for a one-element list; noise_factor lies in [0,0.04]; the sine argument lies in [0,49]. The exact values are stated by DeriveFromSum, DeriveAppend and DeriveComplexConstant |
| Parameters.DeriveFromSum | fractal_name.py:22-29 | For a non-empty list, scale_x is the sum modulo 10 plus one, 100 × noise_factor is the sum modulo 5 (a whole number), and the sine argument is the sum modulo 50 |
| Parameters.DeriveAppend | fractal_name.py:22-29 | Appending x to a non-empty list advances scale_x - 1 by x modulo 10, 100 × noise_factor by x modulo 5 and the sine argument by x modulo 50 |
| Parameters.DeriveComplexConstant | fractal_name.py:24-25 | c_real times the length of the (fallback) list is the sum of its even-index elements, and c_imag times that length is the sum of its odd-index elements |
| Parameters.DeriveDependsOnSum | fractal_name.py:22-29 | Two non-empty lists with equal sums get the same scale_x, scale_y, noise factor and sine argument, and the same c_real + c_imag when their lengths agree |
| Parameters.EmptyUsesFallback | fractal_name.py:18-29 | An empty list gets exactly the parameters of [1]: scale_x 2, scale_y 3, c_real 1, c_imag 0, noise 0.01, sine argument 1 |
| Parameters.ParamsOfAB | fractal_name.py:22-29 | For [1,2] (the name "AB"): scale_x 4, scale_y 6, c_real 0.5, c_imag 1, noise 0.03, sine argument 3 |
| EscapeCount.Rounds | fractal_name.py:43 | `range(iterations)` runs `iterations` rounds, and none for a negative count |
| EscapeCount.EscapeCountOf | fractal_name.py:43-47 | The number of bounded rounds among the first k never exceeds k |
| EscapeCount.Zeros | fractal_name.py:41 | The initial grid is size × size and every cell is 0 |
| EscapeCount.AddRound | fractal_name.py:47 | One round keeps the grid square; every cell gains 0 or 1, and gains 1 exactly when it stayed bounded |
| EscapeCount.Generate | fractal_name.py:41-49 | The returned grid is size × size; every cell equals its number of bounded rounds and so lies in [0, iterations] |
| EscapeCount.FullCountIffAlwaysBounded | fractal_name.py:43-47 | A cell's count equals the number of rounds exactly when it stayed bounded in every round |
| EscapeCount.ZeroCountIffNeverBounded | fractal_name.py:43-47 | A cell's count is 0 exactly when it was bounded in no round |
| EscapeCount.CountMonotone | fractal_name.py:43-47 | More rounds never lower a count, and m - k extra rounds raise it by at most m - k |
| Gradient.HexDigit | fractal_name.py:57-61 | The digit written for 0..15 is a lower-case hex digit whose value is that number |
| Gradient.Hex2 | fractal_name.py:57-61 | `02x` of 0..255 is exactly two hex digits, neither of them upper case, whose value is the number formatted |
| Gradient.Hex2RoundTrip | fractal_name.py:57-61 | Every two-digit lower-case hex string is the `02x` form of the value it denotes |
| Gradient.BaseColor | fractal_name.py:53 | base_color lies in [0,255] for any list of integers; BaseColorAppend states its value |
| Gradient.BaseColorAppend | fractal_name.py:53 | The base colour of the empty list is 0, and appending x to any list advances its base colour by x modulo 256, so it is the list's sum modulo 256 |
| Gradient.WithBlue | fractal_name.py:58-61 | A `#RRGG` prefix followed by a formatted blue channel is a colour string with those channels, whose blue digits are lower case |
| Gradient.DerivedStop | fractal_name.py:57-61 | Each of the five derived stops is a `#RRGGBB` string whose channels are half the base colour for red in stop 1, or fixed red and green, with blue at the base colour plus 0, 80, 60, 40 or 100, modulo 256, written in lower-case digits |
| Gradient.GradientColors | fractal_name.py:53-66 | Exactly 9 stops, each a `#RRGGBB` string; stops 1-5 decode to the base-colour channels above, with lower-case blue digits; stops 6-9 are the four fixed colours whatever the name |
| Gradient.GradientDeterminedByBase | fractal_name.py:53-66 | Two lists give the same gradient exactly when their base colours agree |
| Gradient.FixedStopsAreColors | fractal_name.py:62-65 | The four fixed stops are well-formed `#RRGGBB` strings |
| Gradient.PrefixChannels | fractal_name.py:58-61 | The fixed prefixes `#4B00`, `#6A0D`, `#8000` and `#0000` denote red/green channels 0x4B/0x00, 0x6A/0x0D, 0x80/0x00 and 0x00/0x00 |
| Pipeline.NameParams | fractal_name.py:99-101 | The parameters of any name have scale_x in [1,10] and scale_y = 1.5 × scale_x |
| Pipeline.NameGradient | fractal_name.py:99-104 | The gradient of any name has 9 well-formed stops ending in the four fixed colours |
| Pipeline.NameMeanInAlphabetRange | fractal_name.py:99-101 | For a name with a letter, c_real + c_imag equals the mean of its encoding, the letters' alphabet positions, and so lies in [1, 26] |
| Pipeline.NoLetterName | fractal_name.py:99-104 | A name without letters gets the parameters of [1] but the gradient of base colour 0, whose first stop is #000000 |
| Pipeline.PipelineCaseInsensitive | fractal_name.py:99-104 | Upper-casing a name changes neither its parameters nor its gradient |
| Pipeline.OnlyLettersMatter | fractal_name.py:99-104 | A name and its letters alone have the same encoding, parameters and gradient |

## Left out

- The complex grid evolution is not modelled: `linspace`, `meshgrid`, `Z**2 + C + extra_term`, the `sin(Z)` noise and the magnitude clamp are floating-point complex arithmetic. The `bounded` parameter of `EscapeCount.Generate` stands for their per-cell, per-round outcome.
- The sine in `extra_term` is not computed. Floating-point sine is outside the model, which keeps only its integer argument `sum % 50`.
- The complex constant `C = complex(c_real / 10, c_imag / 10)` is not modelled, because it only feeds the complex evolution.
- Parameters.Derive: scale_y, c_real, c_imag and noise_factor are exact reals, whereas Python computes IEEE doubles. The model does not capture their rounding (for example, 0.03 is not exact as a double).
- Encoder.LetterToNumber: only ASCII is upper-cased, and non-ASCII letters that `isalpha` accepts are left out. Depending on the letter, the source does one of three things with such a letter. It may number it outside 1..26, as with 'é'. It may number it inside 1..26, because `upper()` maps 'ı' to 'I' and 'ſ' to 'S', giving 9 and 19. Or it may raise `TypeError` from `ord`, when the upper case has more than one character ('ß' becomes "SS"), which ends `main` for a name such as "Strauß".
- Encoder.ToUpper: covers ASCII only, for the reason above.
- Encoder.Letters: reads `isalpha` as "ASCII letter", for the reason above. Its own contract does not say that every letter is kept, in order; LettersKeepsEveryLetter and LettersAppend state that. A multiset clause in the function's contract would make every proof that uses the function much more expensive.
- EscapeCount.Generate: `size` is a natural number. A negative size makes `np.linspace` raise an error, and that error path is not modelled.
- `LinearSegmentedColormap.from_list` is not modelled. It is an opaque library call that interpolates the nine stops into 256 levels.
- `plot_fractal` and `auto_save_fractal` are not modelled: display, timestamps, directory creation and PNG writing are I/O.
- The `main` prompt loop is not modelled. That covers the `exit` sentinel, the re-prompt on empty input and the `print` diagnostics, which are console I/O. The `Pipeline` module models only the composition for one name.
