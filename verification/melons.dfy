/**
 Melon orders and their pricing. An order is domestic, international (with a
 country code) or governmental (with an inspection flag); all three carry the
 species, the quantity and a shipped flag. The total of an order is
 `(1 + tax) * qty * price`, where the tax rate depends only on the kind of
 order and the price is a per-melon base price, raised by half for Christmas
 melons. International orders of fewer than ten melons pay a flat fee on top.

 The base price is drawn at random and depends on the wall clock; both are
 passed in here: `draw` is the random whole number in [5, 9], `weekday` is the
 day of the week with Monday as 0, and `hour` is the hour of the day.
 */
module Melons {
  import opened Text

  datatype Order =
    | Domestic(species: string, qty: int, shipped: bool)
    | International(species: string, qty: int, shipped: bool, countryCode: string)
    | Government(species: string, qty: int, shipped: bool, passedInspection: bool)

  /** The error kind for an order of more than 100 melons. It is declared for
      completeness; no operation ever produces it. */
  datatype OrderError = TooManyMelons

  // ---------------------------------------------------------------------
  // Construction

  function NewDomestic(species: string, qty: int): (o: Order)
    ensures o.Domestic? && o.species == species && o.qty == qty
    ensures !o.shipped
  {
    Domestic(species, qty, false)
  }

  function NewInternational(species: string, qty: int, countryCode: string): (o: Order)
    ensures o.International? && o.species == species && o.qty == qty
    ensures o.countryCode == countryCode
    ensures !o.shipped
  {
    International(species, qty, false, countryCode)
  }

  function NewGovernment(species: string, qty: int): (o: Order)
    ensures o.Government? && o.species == species && o.qty == qty
    ensures !o.shipped && !o.passedInspection
  {
    Government(species, qty, false, false)
  }

  // ---------------------------------------------------------------------
  // Splurge pricing: the base price

  const LowestDraw := 5
  const HighestDraw := 9
  const Surge := 4

  /** The random source yields a whole number in [5, 9]. */
  predicate ValidDraw(draw: int) {
    LowestDraw <= draw <= HighestDraw
  }

  /** A clock reading: Monday is day 0 and Sunday day 6; hours run 0 to 23. */
  predicate ValidClock(weekday: int, hour: int) {
    0 <= weekday <= 6 && 0 <= hour <= 23
  }

  /** Monday to Friday. */
  predicate IsWorkday(weekday: int) {
    0 <= weekday < 5
  }

  /** From 8:00 up to, but not including, 11:00. */
  predicate IsMorningRush(hour: int) {
    8 <= hour < 11
  }

  predicate InSurgeWindow(weekday: int, hour: int) {
    IsWorkday(weekday) && IsMorningRush(hour)
  }

  /** The base price of one melon: the draw, plus the surge during the
      surge window. */
  function BasePrice(draw: int, weekday: int, hour: int): (p: int)
    requires ValidDraw(draw) && ValidClock(weekday, hour)
    ensures p == draw || p == draw + 4
    ensures p == draw + 4 <==> weekday in {0, 1, 2, 3, 4} && hour in {8, 9, 10}
    ensures 5 <= p <= 13
    ensures InSurgeWindow(weekday, hour) ==> 9 <= p <= 13
  {
    if InSurgeWindow(weekday, hour) then draw + Surge else draw
  }

  // ---------------------------------------------------------------------
  // Tax and the Christmas surcharge

  /** The tax rate belongs to the kind of order, not to the order: 8% for
      domestic orders, 17% for international ones, none for government ones. */
  function TaxRate(o: Order): (t: real)
    ensures o.Domestic? ==> t == 8.0 / 100.0
    ensures o.International? ==> t == 17.0 / 100.0
    ensures o.Government? ==> t == 0.0
    ensures 0.0 <= t < 1.0
  {
    match o
    case Domestic(_, _, _) => 0.08
    case International(_, _, _, _) => 0.17
    case Government(_, _, _, _) => 0.0
  }

  const ChristmasMarkup: real := 1.5

  /** The species name, lower-cased, contains "christmas": some nine
      consecutive characters of it spell "christmas" in any mix of case. */
  predicate IsChristmas(species: string): (b: bool)
    ensures b <==> exists i | 0 <= i <= |species| - 9 :: OccursAtIgnoringCase("christmas", species, i)
  {
    LowerWindows(species, "christmas");
    Contains(Lower(species), "christmas")
  }

  /** The price of one melon of the species, given the base price. */
  function UnitPrice(base: int, species: string): (p: real)
    ensures IsChristmas(species) ==> 2.0 * p == 3.0 * base as real
    ensures !IsChristmas(species) ==> p == base as real
  {
    if IsChristmas(species) then base as real * ChristmasMarkup else base as real
  }

  // ---------------------------------------------------------------------
  // Totals

  /** The total shared by all kinds of order, once the base price is known:
      the taxed price of `qty` melons. Counted in units of 1/200 it is the
      whole number (100 + tax percent) * qty * (twice the unit price). */
  function TaxedTotal(o: Order, base: int): (t: real)
    ensures 200.0 * t == ((100 + TaxPercent(o)) * o.qty * DoubleUnitPrice(base, o.species)) as real
  {
    ScaledProduct(TaxedQuantity(o), 1.0 + TaxRate(o), o.qty, UnitPrice(base, o.species),
                  100 + TaxPercent(o), DoubleUnitPrice(base, o.species));
    TaxedQuantity(o) * UnitPrice(base, o.species)
  }

  /** The quantity with the tax on it: the number of melons' worth paid. */
  function TaxedQuantity(o: Order): (q: real)
  {
    (1.0 + TaxRate(o)) * o.qty as real
  }

  const SmallOrderLimit := 10
  const SmallOrderFee: real := 3.0

  /** The flat fee an order pays on top of its taxed total: only international
      orders of fewer than ten melons pay one. */
  function Fee(o: Order): (f: real)
    ensures f == 3.0 <==> o.International? && o.qty < 10
    ensures f == 0.0 <==> !(o.International? && o.qty < 10)
  {
    if o.International? && o.qty < SmallOrderLimit then SmallOrderFee else 0.0
  }

  /** The total price of an order at the given draw and clock reading. */
  function GetTotal(o: Order, draw: int, weekday: int, hour: int): (t: real)
    requires ValidDraw(draw) && ValidClock(weekday, hour)
    ensures t == TaxedTotal(o, BasePrice(draw, weekday, hour)) + Fee(o)
  {
    var base := BasePrice(draw, weekday, hour);
    match o
    case International(_, qty, _, _) =>
      if qty < SmallOrderLimit then TaxedTotal(o, base) + SmallOrderFee else TaxedTotal(o, base)
    case _ => TaxedTotal(o, base)
  }

  // ---------------------------------------------------------------------
  // Flags and accessors

  /** Records that the order has been shipped. */
  function MarkShipped(o: Order): (r: Order)
    ensures r.shipped
    ensures r.species == o.species && r.qty == o.qty
    ensures r.Domestic? == o.Domestic? && r.International? == o.International?
    ensures r.Government? == o.Government?
    ensures o.International? ==> r.countryCode == o.countryCode
    ensures o.Government? ==> r.passedInspection == o.passedInspection
  {
    o.(shipped := true)
  }

  /** Records an inspection of a government order: a passed inspection sets
      the flag, a failed one leaves it as it was. */
  function MarkInspection(o: Order, passed: bool): (r: Order)
    requires o.Government?
    ensures r.Government?
    ensures r.passedInspection <==> o.passedInspection || passed
    ensures r.species == o.species && r.qty == o.qty && r.shipped == o.shipped
  {
    if passed then o.(passedInspection := true) else o
  }

  /** The country code of an international order. */
  function GetCountryCode(o: Order): (c: string)
    requires o.International?
    ensures o == International(o.species, o.qty, o.shipped, c)
  {
    o.countryCode
  }

  // ---------------------------------------------------------------------
  // Properties of the base price

  /** Outside the surge window, on a weekend or at any other hour, the base
      price is the draw itself. */
  lemma SurgeNeedsBoth(draw: int, weekday: int, hour: int)
    requires ValidDraw(draw) && ValidClock(weekday, hour)
    ensures weekday >= 5 ==> BasePrice(draw, weekday, hour) == draw
    ensures hour < 8 || hour >= 11 ==> BasePrice(draw, weekday, hour) == draw
    ensures weekday < 5 && 8 <= hour < 11 ==> BasePrice(draw, weekday, hour) == draw + 4
  {
  }

  // ---------------------------------------------------------------------
  // Properties of the tax

  /** Two orders of the same kind have the same tax rate, whatever their
      species, quantity, flags or country code. */
  lemma TaxDependsOnlyOnKind(a: Order, b: Order)
    requires a.Domestic? == b.Domestic? && a.International? == b.International?
    ensures TaxRate(a) == TaxRate(b)
  {
  }

  /** The tax rates in order: government orders pay less than any other,
      domestic orders less than international ones. */
  lemma TaxRanking(a: Order, b: Order)
    ensures a.Government? && !b.Government? ==> TaxRate(a) < TaxRate(b)
    ensures a.Domestic? && b.International? ==> TaxRate(a) < TaxRate(b)
  {
  }

  /** Whether a species is a Christmas species does not depend on case. */
  lemma ChristmasIgnoresCase(species: string)
    ensures IsChristmas(Lower(species)) <==> IsChristmas(species)
  {
    LowerIdempotent(species);
  }

  // ---------------------------------------------------------------------
  // Properties of the total

  /** The tax rate as a whole percentage. */
  function TaxPercent(o: Order): int {
    if o.Domestic? then 8 else if o.International? then 17 else 0
  }

  /** Twice the unit price, a whole number: three times the base price for
      Christmas melons, twice it otherwise. */
  function DoubleUnitPrice(base: int, species: string): int {
    if IsChristmas(species) then 3 * base else 2 * base
  }

  /** The total in units of 1/200, computed with whole numbers only; the fee
      is 600 such units. */
  function ExpectedTotal200(o: Order, base: int): int {
    var fee := if o.International? && o.qty < 10 then 600 else 0;
    (100 + TaxPercent(o)) * o.qty * DoubleUnitPrice(base, o.species) + fee
  }

  /** The total agrees with the whole-number reference: every total is an
      exact multiple of 1/200. */
  lemma TotalMatchesReference(o: Order, draw: int, weekday: int, hour: int)
    requires ValidDraw(draw) && ValidClock(weekday, hour)
    ensures 200.0 * GetTotal(o, draw, weekday, hour)
         == ExpectedTotal200(o, BasePrice(draw, weekday, hour)) as real
  {
  }

  /** Clearing denominators: a rate known in hundredths times a count times a
      price known in halves is known in two-hundredths. */
  lemma ScaledProduct(k: real, r: real, q: int, u: real, percent: int, halves: int)
    requires k == r * q as real
    requires 100.0 * r == percent as real && 2.0 * u == halves as real
    ensures 200.0 * (k * u) == (percent * q * halves) as real
  {
  }

  /** Replacing a plain species by a Christmas species raises the taxed total
      by exactly half; nothing else about the order matters. */
  lemma ChristmasRaisesByHalf(o: Order, christmas: string, base: int)
    requires IsChristmas(christmas) && !IsChristmas(o.species)
    ensures TaxedTotal(o.(species := christmas), base) == 1.5 * TaxedTotal(o, base)
  {
  }

  /** For a non-negative quantity, the total lies between the quantity priced
      at the cheapest and at the dearest melon, taxed, plus the fee. */
  lemma TotalBounds(o: Order, draw: int, weekday: int, hour: int)
    requires ValidDraw(draw) && ValidClock(weekday, hour)
    requires o.qty >= 0
    ensures TaxedQuantity(o) * LowestUnitPrice(o.species) + Fee(o)
            <= GetTotal(o, draw, weekday, hour)
    ensures GetTotal(o, draw, weekday, hour)
            <= TaxedQuantity(o) * HighestUnitPrice(o.species) + Fee(o)
  {
    TaxedTotalBounds(o, BasePrice(draw, weekday, hour));
  }

  /** The taxed total at any base price the draw and the clock can produce
      lies between the taxed quantity priced at the cheapest and at the
      dearest melon. */
  lemma TaxedTotalBounds(o: Order, base: int)
    requires 5 <= base <= 13 && o.qty >= 0
    ensures TaxedQuantity(o) * LowestUnitPrice(o.species) <= TaxedTotal(o, base)
    ensures TaxedTotal(o, base) <= TaxedQuantity(o) * HighestUnitPrice(o.species)
  {
    TaxedQuantityNonNegative(o);
    UnitPriceBounds(base, o.species);
    ScaleBetween(TaxedTotal(o, base), TaxedQuantity(o), LowestUnitPrice(o.species),
                 UnitPrice(base, o.species), HighestUnitPrice(o.species));
  }

  /** The total is the taxed quantity times the unit price, plus the fee. */
  lemma TotalSplits(o: Order, draw: int, weekday: int, hour: int)
    requires ValidDraw(draw) && ValidClock(weekday, hour)
    ensures GetTotal(o, draw, weekday, hour)
         == TaxedQuantity(o) * UnitPrice(BasePrice(draw, weekday, hour), o.species) + Fee(o)
  {
  }

  /** Tax never makes a non-negative quantity negative. */
  lemma TaxedQuantityNonNegative(o: Order)
    requires o.qty >= 0
    ensures TaxedQuantity(o) >= 0.0
  {
  }

  /** The cheapest and dearest melon of a species: base 5 and base 13,
      raised by half for Christmas melons. */
  function LowestUnitPrice(species: string): real {
    if IsChristmas(species) then 7.5 else 5.0
  }

  function HighestUnitPrice(species: string): real {
    if IsChristmas(species) then 19.5 else 13.0
  }

  /** Every base price the clock and the draw can produce gives a unit price
      between the cheapest and the dearest. */
  lemma UnitPriceBounds(base: int, species: string)
    requires 5 <= base <= 13
    ensures LowestUnitPrice(species) <= UnitPrice(base, species) <= HighestUnitPrice(species)
  {
  }

  /** The price `t` of `k` items at `b` each lies between their prices at
      `a` and at `c` each, when `a <= b <= c`. */
  lemma ScaleBetween(t: real, k: real, a: real, b: real, c: real)
    requires t == k * b
    requires k >= 0.0 && a <= b <= c
    ensures k * a <= t <= k * c
  {
  }

  /** For the same species, quantity and base price, a government total never
      exceeds a domestic one, which never exceeds the taxed part of an
      international one. */
  lemma TaxOrdering(species: string, qty: int, countryCode: string, base: int)
    requires qty >= 0 && base >= 0
    ensures TaxedTotal(NewGovernment(species, qty), base)
         <= TaxedTotal(NewDomestic(species, qty), base)
         <= TaxedTotal(NewInternational(species, qty, countryCode), base)
  {
  }

  /** The small-order fee: an international order of fewer than ten melons
      costs its taxed total plus 3, one of ten or more exactly its taxed
      total; no other kind of order pays a fee. */
  lemma SmallOrderFeeApplies(o: Order, draw: int, weekday: int, hour: int)
    requires ValidDraw(draw) && ValidClock(weekday, hour)
    ensures o.International? && o.qty < 10 ==>
              GetTotal(o, draw, weekday, hour) == TaxedTotal(o, BasePrice(draw, weekday, hour)) + 3.0
    ensures !(o.International? && o.qty < 10) ==>
              GetTotal(o, draw, weekday, hour) == TaxedTotal(o, BasePrice(draw, weekday, hour))
  {
  }

  /** A government order is untaxed: it costs the quantity times the unit
      price. */
  lemma GovernmentTotalIsUntaxed(o: Order, draw: int, weekday: int, hour: int)
    requires ValidDraw(draw) && ValidClock(weekday, hour)
    requires o.Government?
    ensures GetTotal(o, draw, weekday, hour)
         == o.qty as real * UnitPrice(BasePrice(draw, weekday, hour), o.species)
  {
  }

  /** Two orders of the same species, quantity, tax rate and fee cost the
      same. */
  lemma SamePriceTerms(a: Order, b: Order, draw: int, weekday: int, hour: int)
    requires ValidDraw(draw) && ValidClock(weekday, hour)
    requires a.species == b.species && a.qty == b.qty
    requires TaxRate(a) == TaxRate(b) && Fee(a) == Fee(b)
    ensures GetTotal(a, draw, weekday, hour) == GetTotal(b, draw, weekday, hour)
  {
    var base := BasePrice(draw, weekday, hour);
    assert TaxedQuantity(a) == TaxedQuantity(b);
    assert UnitPrice(base, a.species) == UnitPrice(base, b.species);
  }

  /** Flags and the country code do not enter into the price. */
  lemma TotalIgnoresFlags(o: Order, passed: bool, countryCode: string,
                          draw: int, weekday: int, hour: int)
    requires ValidDraw(draw) && ValidClock(weekday, hour)
    ensures GetTotal(MarkShipped(o), draw, weekday, hour) == GetTotal(o, draw, weekday, hour)
    ensures o.Government? ==>
              GetTotal(MarkInspection(o, passed), draw, weekday, hour)
              == GetTotal(o, draw, weekday, hour)
    ensures o.International? ==>
              GetTotal(o.(countryCode := countryCode), draw, weekday, hour)
              == GetTotal(o, draw, weekday, hour)
  {
    SamePriceTerms(MarkShipped(o), o, draw, weekday, hour);
    if o.Government? {
      SamePriceTerms(MarkInspection(o, passed), o, draw, weekday, hour);
    }
    if o.International? {
      SamePriceTerms(o.(countryCode := countryCode), o, draw, weekday, hour);
    }
  }

  // ---------------------------------------------------------------------
  // The Christmas test

  /** An occurrence of "christmas" in any mix of ASCII case marks a Christmas
      species. */
  lemma ChristmasIsCaseInsensitive(species: string, spelling: string)
    requires Lower(spelling) == "christmas"
    requires Contains(species, spelling)
    ensures IsChristmas(species)
  {
    LowerKeepsOccurrence(species, spelling);
  }

  /** A species whose first nine letters spell "christmas", in any case, is
      a Christmas species. */
  lemma ChristmasAtStart(species: string)
    requires |species| >= 9 && Lower(species[..9]) == "christmas"
    ensures IsChristmas(species)
  {
    LowerSlice(species, 0, 9);
    assert OccursAt("christmas", Lower(species), 0);
  }

  /** "Christmas Melon" is a Christmas species. */
  lemma ChristmasMelonIsChristmas()
    ensures IsChristmas("Christmas Melon")
  {
    ChristmasAtStart("Christmas Melon");
  }

  /** "CHRISTMAS", all in capitals, is a Christmas species. */
  lemma CapitalChristmasIsChristmas()
    ensures IsChristmas("CHRISTMAS")
  {
    var s := Lower("CHRISTMAS");
    assert s[..9] == "christmas";
    assert OccursAt("christmas", s, 0);
  }

  /** "Watermelon" is not: it has no letter c at all. */
  lemma WatermelonIsPlain()
    ensures !IsChristmas("Watermelon")
  {
    var s := Lower("Watermelon");
    assert s == "watermelon";
    MissingFirstLetter(s, "christmas");
  }

  /** Worked totals for a plain species at draw 5, read on a Saturday (day 5)
      so that no surge applies, and once on a Monday morning in the surge. */
  lemma PlainWorkedTotals(species: string, countryCode: string)
    requires !IsChristmas(species)
    ensures GetTotal(NewDomestic(species, 1), 5, 5, 9) == 5.4
    ensures GetTotal(NewGovernment(species, 1), 5, 5, 9) == 5.0
    ensures GetTotal(NewInternational(species, 5, countryCode), 5, 5, 9) == 32.25
    ensures GetTotal(NewInternational(species, 10, countryCode), 5, 5, 9) == 58.5
    ensures GetTotal(NewDomestic(species, 1), 5, 0, 9) == 9.72
  {
    TotalSplits(NewDomestic(species, 1), 5, 5, 9);
    TotalSplits(NewGovernment(species, 1), 5, 5, 9);
    TotalSplits(NewInternational(species, 5, countryCode), 5, 5, 9);
    TotalSplits(NewInternational(species, 10, countryCode), 5, 5, 9);
    TotalSplits(NewDomestic(species, 1), 5, 0, 9);
  }

  /** A worked total for a Christmas species: two melons at draw 6 cost
      1.08 * 2 * 9. */
  lemma ChristmasWorkedTotal(species: string)
    requires IsChristmas(species)
    ensures GetTotal(NewDomestic(species, 2), 6, 5, 9) == 19.44
  {
    TotalSplits(NewDomestic(species, 2), 6, 5, 9);
  }

  /** The worked totals for the species "Watermelon" and "Christmas Melon". */
  lemma WorkedTotals()
    ensures GetTotal(NewDomestic("Watermelon", 1), 5, 5, 9) == 5.4
    ensures GetTotal(NewInternational("Watermelon", 5, "AU"), 5, 5, 9) == 32.25
    ensures GetTotal(NewDomestic("Christmas Melon", 2), 6, 5, 9) == 19.44
  {
    WatermelonIsPlain();
    PlainWorkedTotals("Watermelon", "AU");
    ChristmasMelonIsChristmas();
    ChristmasWorkedTotal("Christmas Melon");
  }

  // ---------------------------------------------------------------------
  // Properties of the flags and the country code

  /** Shipping twice is shipping once. */
  lemma MarkShippedIdempotent(o: Order)
    ensures MarkShipped(MarkShipped(o)) == MarkShipped(o)
    ensures o.shipped ==> MarkShipped(o) == o
  {
  }

  /** The inspection flag never goes back to false, and a failed inspection
      changes nothing. */
  lemma MarkInspectionMonotone(o: Order, passed: bool)
    requires o.Government?
    ensures o.passedInspection ==> MarkInspection(o, passed).passedInspection
    ensures !passed ==> MarkInspection(o, passed) == o
    ensures MarkInspection(MarkInspection(o, passed), passed) == MarkInspection(o, passed)
  {
  }

  /** A fresh government order: a failed inspection leaves it uninspected, a
      passed one marks it, and a later failure does not undo the mark. */
  lemma InspectionScenario(species: string, qty: int)
    ensures var o0 := NewGovernment(species, qty);
            var o1 := MarkInspection(o0, false);
            var o2 := MarkInspection(o1, true);
            var o3 := MarkInspection(o2, false);
            !o1.passedInspection && o2.passedInspection && o3.passedInspection
  {
  }

  /** The country code read back is the one given at construction, and
      shipping keeps it. */
  lemma CountryCodeRoundTrip(species: string, qty: int, countryCode: string)
    ensures GetCountryCode(NewInternational(species, qty, countryCode)) == countryCode
    ensures GetCountryCode(MarkShipped(NewInternational(species, qty, countryCode))) == countryCode
  {
  }
}
