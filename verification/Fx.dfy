/** Currency conversion in exact decimals: amounts are whole cents and a rate
    is a whole number of millionths, as `exchange_rates.rate decimal(10,6)`. */
module Fx {

  const RATE_ONE := 1_000_000
  const MARKUP_PERCENT := 2

  /** `std::round` of `numerator / denominator`: halves go away from zero. */
  function Round(numerator: int, denominator: int): int
    requires denominator > 0
  {
    if numerator >= 0 then (2 * numerator + denominator) / (2 * denominator)
    else -((2 * -numerator + denominator) / (2 * denominator))
  }

  datatype Conversion = Conversion(converted: int, markup: int)

  /** The amount charged and the bank's part of it, for an amount in cents. */
  function Convert(amount: int, rate: int): Conversion {
    var raw := amount * rate;
    var markup := Round(raw * MARKUP_PERCENT, 100 * RATE_ONE);
    Conversion(Round(raw + markup * RATE_ONE, RATE_ONE), markup)
  }

  datatype Answer = Converted(conversion: Conversion, rate: int) | RateNotFound

  const AUD := "AUD"

  /** `convertToBase`: amounts in AUD pass unchanged, at rate one. */
  function ConvertToBase(rates: map<string, int>, currency: string, amount: int): Answer {
    if currency == AUD then Converted(Conversion(amount, 0), RATE_ONE)
    else if currency !in rates then RateNotFound
    else Converted(Convert(amount, rates[currency]), rates[currency])
  }

  /** What the rate table says of a currency, for an account in `home`: there is
      nothing to convert, or a rate in millionths, or no rate. */
  datatype Quote = Home | Listed(value: int) | Unlisted

  function QuoteOf(rates: map<string, int>, home: string, currency: string): Quote {
    if currency == home || currency == AUD then Home
    else if currency in rates then Listed(rates[currency])
    else Unlisted
  }

  /** `Round` is the nearest whole number, and of two nearest ones the one
      farther from zero. */
  lemma RoundIsNearest(n: int, d: int)
    requires d > 0
    ensures -d <= 2 * (Round(n, d) * d - n) <= d
    ensures n >= 0 ==> -d < 2 * (Round(n, d) * d - n)
    ensures n <= 0 ==> 2 * (Round(n, d) * d - n) < d
  {
    if n >= 0 {
      DivBounds(2 * n + d, 2 * d);
    } else {
      DivBounds(2 * -n + d, 2 * d);
    }
  }

  lemma DivBounds(a: int, b: int)
    requires b > 0
    ensures b * (a / b) <= a < b * (a / b) + b
  {}

  lemma RoundShifts(n: int, k: int, d: int)
    requires d > 0 && ((n >= 0 && k >= 0) || (n <= 0 && k <= 0))
    ensures Round(n + k * d, d) == Round(n, d) + k
  {
    if n >= 0 && k >= 0 {
      MulNonneg(k, d);
      assert 2 * (n + k * d) + d == 2 * n + d + k * (2 * d);
      DivShifts(2 * n + d, k, 2 * d);
    } else {
      MulNonneg(-k, d);
      assert -(k * d) == -k * d;
      if n + k * d < 0 {
        assert 2 * -(n + k * d) + d == 2 * -n + d + -k * (2 * d);
        DivShifts(2 * -n + d, -k, 2 * d);
      }
    }
  }

  lemma MulNonneg(a: int, b: int)
    requires a >= 0 && b >= 0
    ensures a * b >= 0
  {}

  lemma DivShifts(a: int, k: int, b: int)
    requires b > 0
    ensures (a + k * b) / b == a / b + k
  {
    DivBounds(a, b);
    DivBounds(a + k * b, b);
    QuotientUnique(a + k * b, b, (a + k * b) / b, a / b + k);
  }

  lemma QuotientUnique(a: int, b: int, p: int, q: int)
    requires b > 0 && b * p <= a < b * p + b && b * q <= a < b * q + b
    ensures p == q
  {
    if p < q { MulMonotone(b, p + 1, q); }
    if q < p { MulMonotone(b, q + 1, p); }
  }

  lemma MulMonotone(b: int, p: int, q: int)
    requires b >= 0 && p <= q
    ensures b * p <= b * q
  {
    MulNonneg(b, q - p);
  }

  lemma RoundMonotone(m: int, n: int, d: int)
    requires d > 0 && m <= n
    ensures Round(m, d) <= Round(n, d)
  {
    if m >= 0 {
      DivMonotone(2 * m + d, 2 * n + d, 2 * d);
    } else if n < 0 {
      DivMonotone(2 * -n + d, 2 * -m + d, 2 * d);
    } else {
      DivMonotone(0, 2 * -m + d, 2 * d);
      DivMonotone(0, 2 * n + d, 2 * d);
    }
  }

  lemma DivMonotone(a: int, b: int, d: int)
    requires d > 0 && a <= b
    ensures a / d <= b / d
  {
    DivBounds(a, d);
    DivBounds(b, d);
    if a / d > b / d {
      MulMonotone(d, b / d + 1, a / d);
    }
  }

  /** What the bank keeps comes on top of the plain conversion, to the cent:
      `convertedAmount - bankMarkupAmount` is `amount * rate` rounded once. */
  lemma MarkupIsOnTop(amount: int, rate: int)
    requires rate >= 0
    ensures Convert(amount, rate).converted - Convert(amount, rate).markup == Round(amount * rate, RATE_ONE)
  {
    var raw := amount * rate;
    RawSign(amount, rate);
    RoundSign(raw * MARKUP_PERCENT, 100 * RATE_ONE);
    RoundShifts(raw, Convert(amount, rate).markup, RATE_ONE);
  }

  /** The markup is two percent of `amount * rate`, to the nearest cent. */
  lemma MarkupIsTwoPercent(amount: int, rate: int)
    ensures var exact := 2 * (amount * rate);
      -100_000_000 <= 2 * (Convert(amount, rate).markup * 100_000_000 - exact) <= 100_000_000
  {
    RoundIsNearest(amount * rate * MARKUP_PERCENT, 100 * RATE_ONE);
  }

  lemma RawSign(amount: int, rate: int)
    requires rate >= 0
    ensures amount >= 0 ==> amount * rate >= 0
    ensures amount <= 0 ==> amount * rate <= 0
  {
    if amount >= 0 { MulNonneg(amount, rate); } else { MulNonneg(-amount, rate); }
  }

  lemma RoundSign(n: int, d: int)
    requires d > 0
    ensures n >= 0 ==> Round(n, d) >= 0
    ensures n <= 0 ==> Round(n, d) <= 0
  {
    if n >= 0 { RoundMonotone(0, n, d); } else { RoundMonotone(n, 0, d); }
  }

  /** The charge is within one cent of 1.02 times the exact conversion. */
  lemma WithinOneCent(amount: int, rate: int)
    requires rate >= 0
    ensures var exact := (100 + MARKUP_PERCENT) * (amount * rate);
      -100 * RATE_ONE <= Convert(amount, rate).converted * 100 * RATE_ONE - exact <= 100 * RATE_ONE
  {
    MarkupIsOnTop(amount, rate);
    RoundIsNearest(amount * rate, RATE_ONE);
    RoundIsNearest(amount * rate * MARKUP_PERCENT, 100 * RATE_ONE);
  }

  /** A larger amount is never charged less, and never carries less markup. */
  lemma ConvertMonotone(a: int, b: int, rate: int)
    requires rate >= 0 && a <= b
    ensures Convert(a, rate).converted <= Convert(b, rate).converted
    ensures Convert(a, rate).markup <= Convert(b, rate).markup
  {
    MulMonotone(rate, a, b);
    MarkupIsOnTop(a, rate);
    MarkupIsOnTop(b, rate);
    RoundMonotone(a * rate, b * rate, RATE_ONE);
    RoundMonotone(a * rate * MARKUP_PERCENT, b * rate * MARKUP_PERCENT, 100 * RATE_ONE);
  }

  /** For a purchase the markup is part of the charge and not negative. */
  lemma MarkupWithinCharge(amount: int, rate: int)
    requires amount >= 0 && rate >= 0
    ensures 0 <= Convert(amount, rate).markup <= Convert(amount, rate).converted
  {
    RawSign(amount, rate);
    RoundSign(amount * rate, RATE_ONE);
    RoundSign(amount * rate * MARKUP_PERCENT, 100 * RATE_ONE);
    MarkupIsOnTop(amount, rate);
  }

  /** Only foreign money carries a markup, and that on top of the conversion at
      the listed rate; a currency that is not listed is an error, never a rate
      of one. */
  lemma MarkupIsForForeignMoney(rates: map<string, int>, currency: string, amount: int)
    requires amount >= 0 && forall c :: c in rates ==> rates[c] >= 0
    ensures var answer := ConvertToBase(rates, currency, amount);
      && (answer.RateNotFound? <==> currency != AUD && currency !in rates)
      && (answer.Converted? ==>
            && 0 <= answer.conversion.markup <= answer.conversion.converted
            && answer.conversion.converted - answer.conversion.markup ==
                 Round(amount * (if currency == AUD then RATE_ONE else rates[currency]), RATE_ONE))
  {
    if currency == AUD {
      RoundShifts(0, amount, RATE_ONE);
    } else if currency in rates {
      MarkupIsOnTop(amount, rates[currency]);
      MarkupWithinCharge(amount, rates[currency]);
    }
  }
}
