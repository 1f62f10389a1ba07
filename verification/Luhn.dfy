/** Card numbers and their check digit (ISO/IEC 7812-1, Annex B). */
module Luhn {

  type Digit = x: int | 0 <= x < 10

  type Number = seq<Digit>

  /** What a digit counts for: every second one is doubled, less 9 above 9. */
  function Weight(d: Digit, alt: bool): int {
    if !alt then d else if 2 * d > 9 then 2 * d - 9 else 2 * d
  }

  /** The sum from the right; `alt` says whether the last digit is doubled. */
  function Sum(s: Number, alt: bool): int {
    if s == [] then 0 else Weight(s[|s| - 1], alt) + Sum(s[..|s| - 1], !alt)
  }

  /** A digit counts for itself, and when it is doubled for the digits of its
      double. */
  lemma WeightIsDigitSum(d: Digit)
    ensures Weight(d, false) == d && Weight(d, true) == 2 * d / 10 + 2 * d % 10
  {}

  /** The digits in places that have the same parity as the last, and the others
      doubled: how far they add up. */
  function Plain(s: Number): int {
    if s == [] then 0 else s[|s| - 1] + Crossed(s[..|s| - 1])
  }

  function Crossed(s: Number): int {
    if s == [] then 0 else 2 * s[|s| - 1] / 10 + 2 * s[|s| - 1] % 10 + Plain(s[..|s| - 1])
  }

  lemma {:induction false} SumIsCrossSum(s: Number)
    ensures Sum(s, false) == Plain(s) && Sum(s, true) == Crossed(s)
    decreases |s|
  {
    if s != [] {
      SumIsCrossSum(s[..|s| - 1]);
      WeightIsDigitSum(s[|s| - 1]);
    }
  }

  function CheckDigit(partial: Number): Digit {
    (10 - Sum(partial, true) % 10) % 10
  }

  /** A full number: the check digit at the end is not doubled. */
  predicate Valid(full: Number) {
    Sum(full, false) % 10 == 0
  }

  method LuhnDigit(partial: Number) returns (check: Digit)
    ensures check == CheckDigit(partial)
  {
    var sum, alt := 0, true;
    assert partial[..|partial|] == partial;
    var i := |partial| - 1;
    while i >= 0
      invariant -1 <= i < |partial|
      invariant sum + Sum(partial[..i + 1], alt) == Sum(partial, true)
      invariant sum >= 0
    {
      var d := partial[i] as int;
      if alt {
        d := d * 2;
        if d > 9 {
          d := d - 9;
        }
      }
      assert partial[..i + 1][..i] == partial[..i];
      sum := sum + d;
      alt := !alt;
      i := i - 1;
    }
    check := (10 - sum % 10) % 10;
  }

  /** `random` stands for the nine digits that are drawn. */
  method GeneratePAN(bin: Number, random: Number) returns (pan: Number)
    requires |random| == 9
    ensures |pan| == |bin| + 10 && pan[..|pan| - 1] == bin + random
    ensures Valid(pan)
  {
    pan := bin;
    for i := 0 to 9
      invariant pan == bin + random[..i]
    {
      pan := pan + [random[i]];
    }
    assert random[..9] == random;
    var check := LuhnDigit(pan);
    UniqueCheckDigit(pan, check);
    pan := pan + [check];
  }

  /** A number is valid iff the last digit, every second one before it, and the
      digits of the doubles of the others add up to a multiple of ten. */
  lemma ValidIff(full: Number)
    ensures Valid(full) <==> Plain(full) % 10 == 0
  {
    SumIsCrossSum(full);
  }

  /** The number of the standard's example. */
  lemma SampleIsValid()
    ensures Valid([7, 9, 9, 2, 7, 3, 9, 8, 7, 1, 3]) && CheckDigit([7, 9, 9, 2, 7, 3, 9, 8, 7, 1]) == 3
  {
    SumMore([], [7], false);
    SumMore([7], [7, 9], true);
    SumMore([7, 9], [7, 9, 9], false);
    SumMore([7, 9, 9], [7, 9, 9, 2], true);
    SumMore([7, 9, 9, 2], [7, 9, 9, 2, 7], false);
    SumMore([7, 9, 9, 2, 7], [7, 9, 9, 2, 7, 3], true);
    SumMore([7, 9, 9, 2, 7, 3], [7, 9, 9, 2, 7, 3, 9], false);
    SumMore([7, 9, 9, 2, 7, 3, 9], [7, 9, 9, 2, 7, 3, 9, 8], true);
    SumMore([7, 9, 9, 2, 7, 3, 9, 8], [7, 9, 9, 2, 7, 3, 9, 8, 7], false);
    SumMore([7, 9, 9, 2, 7, 3, 9, 8, 7], [7, 9, 9, 2, 7, 3, 9, 8, 7, 1], true);
    hide Sum;
    UniqueCheckDigit([7, 9, 9, 2, 7, 3, 9, 8, 7, 1], 3);
    assert [7, 9, 9, 2, 7, 3, 9, 8, 7, 1] + [3] == [7, 9, 9, 2, 7, 3, 9, 8, 7, 1, 3];
  }

  lemma SumMore(s: Number, t: Number, alt: bool)
    requires t != [] && t[..|t| - 1] == s
    ensures Sum(t, alt) == Weight(t[|t| - 1], alt) + Sum(s, !alt)
  {}

  /** Of the ten digits one makes the number valid. */
  lemma UniqueCheckDigit(partial: Number, check: Digit)
    ensures Valid(partial + [check]) <==> check == CheckDigit(partial)
  {
    assert (partial + [check])[..|partial|] == partial;
  }

  /** Whether the digit at `k` is doubled. */
  function Doubled(s: Number, k: nat, alt: bool): bool
    requires k < |s|
  {
    if (|s| - 1 - k) % 2 == 0 then alt else !alt
  }

  /** Changing a digit changes the sum by what the digits weigh. */
  lemma {:induction false} SumOfUpdate(s: Number, k: nat, d: Digit, alt: bool)
    requires k < |s|
    ensures Sum(s[k := d], alt) - Sum(s, alt) == Weight(d, Doubled(s, k, alt)) - Weight(s[k], Doubled(s, k, alt))
    decreases |s|
  {
    var n := |s| - 1;
    if k == n {
      assert s[k := d][..n] == s[..n];
    } else {
      SumOfUpdate(s[..n], k, d, !alt);
      assert s[k := d][..n] == s[..n][k := d];
    }
  }

  lemma ModAdd(total: int, change: int)
    requires total % 10 == 0
    ensures (total + change) % 10 == 0 <==> change % 10 == 0
  {}

  lemma WeightsDiffer(a: Digit, b: Digit, alt: bool)
    ensures (Weight(b, alt) - Weight(a, alt)) % 10 == 0 <==> a == b
  {}

  lemma SwappedWeights(a: Digit, b: Digit, alt: bool)
    ensures (Weight(b, alt) - Weight(a, alt) + Weight(a, !alt) - Weight(b, !alt)) % 10 == 0 <==>
      a == b || (a == 0 && b == 9) || (a == 9 && b == 0)
  {}

  /** A number with one digit wrong is never valid. */
  lemma OneWrongDigit(s: Number, k: nat, d: Digit)
    requires Valid(s) && k < |s| && d != s[k]
    ensures !Valid(s[k := d])
  {
    hide Sum, Weight;
    SumOfUpdate(s, k, d, false);
    var alt := Doubled(s, k, false);
    WeightsDiffer(s[k], d, alt);
    ModAdd(Sum(s, false), Weight(d, alt) - Weight(s[k], alt));
  }

  /** Two neighbours swapped go unnoticed iff they are equal, or 0 and 9. */
  lemma SwappedNeighbours(s: Number, k: nat)
    requires Valid(s) && k + 1 < |s|
    ensures Valid(s[k := s[k + 1]][k + 1 := s[k]]) <==>
      s[k] == s[k + 1] || (s[k] == 0 && s[k + 1] == 9) || (s[k] == 9 && s[k + 1] == 0)
  {
    hide Sum, Weight;
    var a, b, alt := s[k], s[k + 1], Doubled(s, k, false);
    SumOfSwap(s, k);
    SwappedWeights(a, b, alt);
    ModAdd(Sum(s, false), Weight(b, alt) - Weight(a, alt) + Weight(a, !alt) - Weight(b, !alt));
    hide Doubled;
  }

  lemma SumOfSwap(s: Number, k: nat)
    requires k + 1 < |s|
    ensures var a, b, alt := s[k], s[k + 1], Doubled(s, k, false);
      Sum(s[k := b][k + 1 := a], false) ==
        Sum(s, false) + (Weight(b, alt) - Weight(a, alt) + Weight(a, !alt) - Weight(b, !alt))
  {
    hide Sum, Weight;
    SumOfUpdate(s, k, s[k + 1], false);
    SumOfUpdate(s[k := s[k + 1]], k + 1, s[k], false);
    assert Doubled(s[k := s[k + 1]], k + 1, false) == !Doubled(s, k, false);
  }
}
