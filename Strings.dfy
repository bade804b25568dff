/**
 * The pieces of the .NET string library that the lister's core relies on:
 * `string.IsNullOrEmpty`, `String.PadRight`, `String.Replace` (ordinal,
 * left to right, non-overlapping) and `Int32.ToString` on a non-negative
 * value. A string is a `seq<char>` whose elements are Unicode scalar
 * values, so each character outside the Basic Multilingual Plane counts
 * as one element here where .NET counts two UTF-16 code units, and a lone
 * surrogate cannot be written.
 */
module Strings {
  import opened Wrappers

  function Max(a: int, b: int): int
  {
    if a < b then b else a
  }

  /** `string.IsNullOrEmpty`: `None` stands for a null reference. */
  predicate IsNullOrEmpty(s: Option<string>): (b: bool)
    ensures !b <==> s.Some? && |s.value| > 0
  {
    s.None? || s.value == []
  }

  // ---------------------------------------------------------------------
  // PadRight
  // ---------------------------------------------------------------------

  /**
   * `s.PadRight(totalWidth)`: `s` left-justified in a field of `totalWidth`
   * characters, filled on the right with spaces; a string that is already
   * at least that long comes back unchanged.
   */
  function PadRight(s: string, totalWidth: nat): (r: string)
    ensures |r| == Max(|s|, totalWidth)
    ensures r[..|s|] == s
    ensures forall i :: |s| <= i < |r| ==> r[i] == ' '
  {
    if totalWidth <= |s| then s else s + seq(totalWidth - |s|, _ => ' ')
  }

  /** The three properties of PadRight's contract determine its result. */
  lemma PadRightUnique(s: string, totalWidth: nat, r: string)
    requires |r| == Max(|s|, totalWidth)
    requires r[..|s|] == s
    requires forall i :: |s| <= i < |r| ==> r[i] == ' '
    ensures r == PadRight(s, totalWidth)
  {
    var p := PadRight(s, totalWidth);
    forall i | 0 <= i < |r|
      ensures r[i] == p[i]
    {
      if i < |s| {
        assert r[i] == r[..|s|][i] && p[i] == p[..|s|][i];
      }
    }
  }

  // ---------------------------------------------------------------------
  // Replace
  // ---------------------------------------------------------------------

  /** `pattern` occurs in `s` starting at index `i`. */
  predicate OccursAt(pattern: string, s: string, i: int)
  {
    0 <= i && i + |pattern| <= |s| && s[i..i + |pattern|] == pattern
  }

  /**
   * `s.Replace(oldValue, newValue)`: scanning from the left, every
   * occurrence of `oldValue` that does not overlap an earlier replaced one
   * is replaced by `newValue`. .NET throws for an empty `oldValue`.
   */
  function ReplaceAll(s: string, oldValue: string, newValue: string): (r: string)
    requires |oldValue| > 0
    ensures |newValue| <= |oldValue| ==> |r| <= |s|
    decreases |s|
  {
    if |s| < |oldValue| then s
    else if s[..|oldValue|] == oldValue then newValue + ReplaceAll(s[|oldValue|..], oldValue, newValue)
    else [s[0]] + ReplaceAll(s[1..], oldValue, newValue)
  }

  /** The `j`-th character of an occurrence is the `j`-th character of the pattern. */
  lemma OccursAtChar(pattern: string, s: string, i: int, j: int)
    requires 0 <= j < |pattern|
    ensures OccursAt(pattern, s, i) ==> s[i + j] == pattern[j]
  {
    if OccursAt(pattern, s, i) {
      assert s[i..i + |pattern|][j] == s[i + j];
    }
  }

  /** Where `oldValue` does not occur, Replace changes nothing. */
  lemma {:induction false} ReplaceAllAbsent(s: string, oldValue: string, newValue: string)
    requires |oldValue| > 0
    requires forall i :: !OccursAt(oldValue, s, i)
    ensures ReplaceAll(s, oldValue, newValue) == s
    decreases |s|
  {
    if |s| >= |oldValue| {
      assert !OccursAt(oldValue, s, 0);
      assert s[0..|oldValue|] == s[..|oldValue|];
      forall i
        ensures !OccursAt(oldValue, s[1..], i)
      {
        if OccursAt(oldValue, s[1..], i) {
          assert s[1..][i..i + |oldValue|] == s[i + 1..i + 1 + |oldValue|];
          assert OccursAt(oldValue, s, i + 1);
        }
      }
      ReplaceAllAbsent(s[1..], oldValue, newValue);
      assert s == [s[0]] + s[1..];
    }
  }

  /**
   * When `s` is `prefix + rest` and `prefix` occurs nowhere in `s` except at
   * its start, removing every occurrence of `prefix` leaves exactly `rest`.
   */
  lemma ReplaceAllLeadingOnly(prefix: string, rest: string)
    requires |prefix| > 0
    requires forall i :: 0 < i ==> !OccursAt(prefix, prefix + rest, i)
    ensures ReplaceAll(prefix + rest, prefix, "") == rest
  {
    var s := prefix + rest;
    assert s[..|prefix|] == prefix;
    assert s[|prefix|..] == rest;
    forall i
      ensures !OccursAt(prefix, rest, i)
    {
      if OccursAt(prefix, rest, i) {
        assert s[i + |prefix|..i + |prefix| + |prefix|] == rest[i..i + |prefix|];
        assert OccursAt(prefix, s, i + |prefix|);
      }
    }
    ReplaceAllAbsent(rest, prefix, "");
  }

  // ---------------------------------------------------------------------
  // Int32.ToString for non-negative values, and its inverse
  // ---------------------------------------------------------------------

  predicate IsDigit(c: char)
  {
    '0' <= c <= '9'
  }

  predicate AllDigits(s: string)
  {
    forall i :: 0 <= i < |s| ==> IsDigit(s[i])
  }

  /** A decimal numeral as ToString writes it: digits only, no leading zero. */
  predicate IsCanonicalDecimal(s: string)
  {
    |s| >= 1 && AllDigits(s) && (s[0] == '0' ==> |s| == 1)
  }

  function DigitValue(c: char): (d: nat)
    requires IsDigit(c)
    ensures d < 10
  {
    c as int - '0' as int
  }

  function DigitChar(d: nat): (c: char)
    requires d < 10
    ensures IsDigit(c) && DigitValue(c) == d
  {
    ('0' as int + d) as char
  }

  /** `n.ToString()` for `n >= 0`: the shortest decimal numeral of `n`. */
  function NatToDecimal(n: nat): (s: string)
    ensures IsCanonicalDecimal(s)
    ensures s[0] == '0' <==> n == 0
    decreases n
  {
    if n < 10 then [DigitChar(n)] else NatToDecimal(n / 10) + [DigitChar(n % 10)]
  }

  /** The value of a numeral, most significant digit first. */
  function DecimalValue(s: string): nat
    requires AllDigits(s)
    decreases |s|
  {
    if s == [] then 0 else 10 * DecimalValue(s[..|s| - 1]) + DigitValue(s[|s| - 1])
  }

  /** Reading back what ToString wrote gives the number again. */
  lemma {:induction false} DecimalValueOfNatToDecimal(n: nat)
    ensures DecimalValue(NatToDecimal(n)) == n
    decreases n
  {
    if n >= 10 {
      var s := NatToDecimal(n);
      assert s[..|s| - 1] == NatToDecimal(n / 10);
      DecimalValueOfNatToDecimal(n / 10);
    }
  }

  /** A numeral that starts with a non-zero digit has a positive value. */
  lemma {:induction false} DecimalValuePositive(s: string)
    requires |s| >= 1 && AllDigits(s) && s[0] != '0'
    ensures DecimalValue(s) >= 1
    decreases |s|
  {
    if |s| > 1 {
      var p := s[..|s| - 1];
      assert p[0] == s[0];
      DecimalValuePositive(p);
    } else {
      assert DigitValue(s[0]) != 0;
    }
  }

  /** Every canonical numeral is what ToString writes for its value. */
  lemma {:induction false} NatToDecimalOfDecimalValue(s: string)
    requires IsCanonicalDecimal(s)
    ensures NatToDecimal(DecimalValue(s)) == s
    decreases |s|
  {
    var c := s[|s| - 1];
    if |s| == 1 {
      assert s[..0] == [];
      assert DigitChar(DigitValue(c)) == c;
    } else {
      var p := s[..|s| - 1];
      assert p[0] == s[0];
      DecimalValuePositive(p);
      NatToDecimalOfDecimalValue(p);
      var v := DecimalValue(s);
      assert v == 10 * DecimalValue(p) + DigitValue(c);
      assert v / 10 == DecimalValue(p) && v % 10 == DigitValue(c);
      assert DigitChar(DigitValue(c)) == c;
      assert s == p + [c];
    }
  }

  /** Distinct numbers get distinct numerals. */
  lemma NatToDecimalInjective(m: nat, n: nat)
    requires NatToDecimal(m) == NatToDecimal(n)
    ensures m == n
  {
    DecimalValueOfNatToDecimal(m);
    DecimalValueOfNatToDecimal(n);
  }

  /** The length of the longest all-digit prefix of `s`. */
  function LeadingDigits(s: string): (k: nat)
    ensures k <= |s|
    ensures AllDigits(s[..k])
    ensures k < |s| ==> !IsDigit(s[k])
    decreases |s|
  {
    if s == [] || !IsDigit(s[0]) then 0
    else
      var k := 1 + LeadingDigits(s[1..]);
      assert s[..k] == [s[0]] + s[1..][..k - 1];
      k
  }
}
