/**
 The name encoder of fractal_name.py: every letter of a name becomes its
 position in the alphabet (A/a -> 1 ... Z/z -> 26), every other character is
 dropped, and the order of the letters is kept.

 Python's `str.isalpha` and `str.upper` are read over ASCII only.
 */
module Encoder {

  /** The upper-case alphabet; position k (0-based) holds the letter numbered k + 1. */
  const Alphabet: string := "ABCDEFGHIJKLMNOPQRSTUVWXYZ"

  /** An ASCII letter: the characters `str.isalpha` accepts in ASCII. */
  predicate IsLetter(c: char) {
    ('A' <= c <= 'Z') || ('a' <= c <= 'z')
  }

  /** ASCII `str.upper` on one character: lower-case letters move to upper case,
      every other character is left as it is. */
  function ToUpper(c: char): (u: char)
    ensures IsLetter(u) <==> IsLetter(c)
    ensures IsLetter(c) ==> 'A' <= u <= 'Z'
    ensures 'a' <= c <= 'z' ==> u == Alphabet[c as int - 'a' as int]
    ensures !('a' <= c <= 'z') ==> u == c
  {
    if 'a' <= c <= 'z' then (c as int - 32) as char else c
  }

  /** `str.upper` on a whole string, character by character. */
  function UpperString(s: string): (u: string)
    ensures |u| == |s|
    ensures forall i :: 0 <= i < |s| ==> u[i] == ToUpper(s[i])
  {
    seq(|s|, i requires 0 <= i < |s| => ToUpper(s[i]))
  }

  /** `letter_to_number`: the code point of the upper-cased character, shifted
      so that 'A' is 1. On a letter this is its 1-based position in the alphabet,
      the same for either case. */
  function LetterToNumber(c: char): (n: int)
    ensures IsLetter(c) ==> 1 <= n <= 26 && Alphabet[n - 1] == ToUpper(c)
    ensures 'a' <= c <= 'z' ==> n == c as int - 'a' as int + 1
    ensures !IsLetter(c) && c as int < 128 ==> n < 1 || n > 26
  {
    ToUpper(c) as int - 'A' as int + 1
  }

  /** The inverse direction: the upper-case letter numbered n. */
  function AlphabetLetter(n: int): (c: char)
    requires 1 <= n <= 26
    ensures c == Alphabet[n - 1]
  {
    (n + 'A' as int - 1) as char
  }

  /** The letters of a name, in order: the filter of `name_to_numbers`.
      LettersKeepsEveryLetter and LettersAppend state that every letter is kept,
      as often as it occurs and in the name's order. */
  function Letters(name: string): (ls: string)
    ensures |ls| <= |name|
    ensures forall i :: 0 <= i < |ls| ==> IsLetter(ls[i])
    ensures (forall i :: 0 <= i < |name| ==> !IsLetter(name[i])) <==> ls == []
  {
    if name == [] then []
    else if IsLetter(name[0]) then [name[0]] + Letters(name[1..])
    else Letters(name[1..])
  }

  /** `name_to_numbers`: one alphabet position per letter of the name, in the
      order the letters appear; every other character is skipped. */
  function NameToNumbers(name: string): (ns: seq<int>)
    ensures |ns| == |Letters(name)|
    ensures forall i :: 0 <= i < |ns| ==> 1 <= ns[i] <= 26
    ensures forall i :: 0 <= i < |ns| ==> AlphabetLetter(ns[i]) == ToUpper(Letters(name)[i])
  {
    if name == [] then []
    else if IsLetter(name[0]) then [LetterToNumber(name[0])] + NameToNumbers(name[1..])
    else NameToNumbers(name[1..])
  }

  /** Turns alphabet positions back into upper-case letters. */
  function NumbersToLetters(ns: seq<int>): (s: string)
    requires forall i :: 0 <= i < |ns| ==> 1 <= ns[i] <= 26
    ensures |s| == |ns|
    ensures forall i :: 0 <= i < |ns| ==> 'A' <= s[i] <= 'Z'
  {
    seq(|ns|, i requires 0 <= i < |ns| => AlphabetLetter(ns[i]))
  }

  /** Letter numbering and `AlphabetLetter` are inverse to each other on upper-case letters. */
  lemma LetterRoundTrip(c: char, n: int)
    ensures 'A' <= c <= 'Z' ==> AlphabetLetter(LetterToNumber(c)) == c
    ensures 1 <= n <= 26 ==> LetterToNumber(AlphabetLetter(n)) == n
  {
  }

  /** Upper and lower case of a letter receive the same number; 'a' and 'A' are 1, 'z' is 26. */
  lemma LetterCaseInsensitive(c: char)
    ensures LetterToNumber(ToUpper(c)) == LetterToNumber(c)
    ensures LetterToNumber('a') == LetterToNumber('A') == 1
    ensures LetterToNumber('z') == LetterToNumber('Z') == 26
  {
  }

  /** Decoding the numbers of a name gives back exactly its letters, upper-cased:
      nothing but the letters is kept, and they stay in order. */
  lemma NameRoundTrip(name: string)
    ensures NumbersToLetters(NameToNumbers(name)) == UpperString(Letters(name))
  {
  }

  /** The filter keeps every letter of the name exactly as often as it occurs
      there, and no other character. */
  lemma {:induction false} LettersKeepsEveryLetter(name: string, c: char)
    ensures multiset(Letters(name))[c] == (if IsLetter(c) then multiset(name)[c] else 0)
  {
    if name != [] {
      LettersKeepsEveryLetter(name[1..], c);
      assert name == [name[0]] + name[1..];
      assert multiset(name)[c] == multiset([name[0]])[c] + multiset(name[1..])[c];
      if IsLetter(name[0]) {
        var ls := Letters(name);
        assert ls == [name[0]] + Letters(name[1..]);
        assert multiset(ls)[c] == multiset([name[0]])[c] + multiset(Letters(name[1..]))[c];
      }
    }
  }

  /** The filter keeps a single letter and drops a single non-letter, and it
      distributes over concatenation; together these fix the order of the kept
      letters to the order in the name. */
  lemma {:induction false} LettersAppend(a: string, b: string)
    ensures Letters(a + b) == Letters(a) + Letters(b)
    ensures |a| == 1 ==> Letters(a) == (if IsLetter(a[0]) then a else [])
  {
    if a == [] {
      assert a + b == b;
    } else {
      assert (a + b)[1..] == a[1..] + b;
      LettersAppend(a[1..], b);
    }
  }

  /** Encoding distributes over concatenation of names. */
  lemma {:induction false} NameToNumbersAppend(a: string, b: string)
    ensures NameToNumbers(a + b) == NameToNumbers(a) + NameToNumbers(b)
  {
    if a == [] {
      assert a + b == b;
    } else {
      assert (a + b)[0] == a[0] && (a + b)[1..] == a[1..] + b;
      NameToNumbersAppend(a[1..], b);
      if IsLetter(a[0]) {
        calc {
          NameToNumbers(a + b);
          [LetterToNumber(a[0])] + NameToNumbers(a[1..] + b);
          [LetterToNumber(a[0])] + (NameToNumbers(a[1..]) + NameToNumbers(b));
          ([LetterToNumber(a[0])] + NameToNumbers(a[1..])) + NameToNumbers(b);
        }
      }
    }
  }

  /** A name encodes to the empty sequence exactly when it has no letter. */
  lemma NameToNumbersEmpty(name: string)
    ensures NameToNumbers(name) == [] <==> forall i :: 0 <= i < |name| ==> !IsLetter(name[i])
  {
  }

  /** Upper-casing a name first does not change its encoding. */
  lemma {:induction false} NameCaseInsensitive(name: string)
    ensures NameToNumbers(UpperString(name)) == NameToNumbers(name)
  {
    if name != [] {
      var u := UpperString(name);
      assert u[1..] == UpperString(name[1..]);
      NameCaseInsensitive(name[1..]);
      LetterCaseInsensitive(name[0]);
    }
  }
}
