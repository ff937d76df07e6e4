# Melon orders

A Dafny model of the melon order classes in `melons.py`. There are three kinds
of order: domestic, international (with a country code) and government (with an
inspection flag). All three share a species name, a quantity and a shipped
flag. The price of an order follows "splurge pricing". A random base price in
[5, 9] is raised by 4 on weekday mornings from 8:00 up to 11:00. It is raised
by half again when the lower-cased species name contains `christmas`. The total
is `(1 + tax) * qty * price`, with a tax rate fixed per kind of order: 0.08
domestic, 0.17 international, 0 government. International orders of fewer than
ten melons pay a flat 3 on top.

The model is functional. `Order` is one datatype with a constructor per kind
and shared fields, and each operation is a pure function. Marking an order
shipped or inspected returns a new order. The random draw and the clock reading
are parameters: `draw` in [5, 9], `weekday` in 0..6 with Monday as 0, and
`hour` in 0..23. Money is exact `real` arithmetic.

Files:

- `text.dfy` (module `Text`): ASCII lower-casing and the substring test, with
  the facts the Christmas rule needs.
- `melons.dfy` (module `Melons`): orders, construction, base price, tax,
  surcharge, totals, the two flags and the country code, and their properties.
- `lifecycle.dfy` (module `Lifecycle`): any sequence of ship and inspect
  events applied to an order, and what such a sequence can and cannot change.

The total is also given a second, independent definition, `ExpectedTotal200`.
It uses whole numbers only: the tax is a percentage, the Christmas price is
counted in halves, and the result is in units of 1/200.
`Melons.TotalMatchesReference` proves the two definitions agree.

The quantity is an unbounded integer and is not checked, as in the source.
Lemmas that need a sign, such as the price bounds, state it as their own
hypothesis.

## Model

| member | source | states |
|---|---|---|
| Melons.NewDomestic | melons.py:9-14 | a new domestic order stores the species and quantity as given and is not shipped |
| Melons.NewInternational | melons.py:60-63 | a new international order stores species, quantity and country code as given and is not shipped |
| Melons.NewGovernment | melons.py:94-98 | a new government order stores species and quantity, is not shipped and has not passed inspection |
| Melons.BasePrice | melons.py:16-27 | the base price is the draw plus 4 exactly when the day is Monday to Friday and the hour is 8, 9 or 10, and the draw otherwise; so it lies in [5, 13], and in [9, 13] inside the surge window |
| Melons.SurgeNeedsBoth | melons.py:24-25 | on a weekend, or at an hour before 8 or from 11 on, the base price is the draw unchanged; on a weekday between 8 and 11 it is the draw plus 4 |
| Melons.IsChristmas | melons.py:34 | a species is a Christmas species exactly when some nine consecutive characters of it, lower-cased, spell "christmas" |
| Melons.ChristmasIgnoresCase | melons.py:34 | lower-casing a species first does not change whether it is a Christmas species |
| Melons.UnitPrice | melons.py:34-35 | for a Christmas species twice the unit price is three times the base price; for any other species it is the base price |
| Melons.UnitPriceBounds | melons.py:19-35 | every base price in [5, 13] gives a unit price between 5 and 13, or between 7.5 and 19.5 for a Christmas species |
| Melons.TaxRate | melons.py:50-92 | domestic orders are taxed at 8/100, international ones at 17/100 and government ones not at all; every rate lies in [0, 1) |
| Melons.TaxRanking | melons.py:50-92 | a government order is taxed less than any other kind, and a domestic order less than an international one |
| Melons.TaxDependsOnlyOnKind | melons.py:47-92 | two orders of the same kind have the same tax rate, whatever their species, quantity, flags or country code |
| Melons.TaxedTotal | melons.py:32-37 | the shared total, counted in units of 1/200, is the whole number (100 + tax percent) times the quantity times twice the unit price |
| Melons.Fee | melons.py:80-85 | the flat fee is 3 exactly when the order is international with fewer than ten melons, and 0 exactly otherwise |
| Melons.GetTotal | melons.py:29-85 | every total is the order's taxed total at the drawn base price plus its fee; the fee is the only part that depends on the international override |
| Melons.TotalSplits | melons.py:32-39 | every total is the taxed quantity times the unit price at the drawn base price, plus the order's fee |
| Melons.SmallOrderFeeApplies | melons.py:80-85 | an international order of fewer than ten melons costs its taxed total plus 3; any other order, including an international one of ten or more, costs exactly its taxed total |
| Melons.GovernmentTotalIsUntaxed | melons.py:37-92 | a government order costs exactly the quantity times the unit price, with no tax |
| Melons.TotalMatchesReference | melons.py:29-85 | 200 times the total equals the whole-number reference `(100 + tax percent) * qty * (2 or 3) * base`, plus 600 for small international orders; every total is an exact multiple of 1/200 |
| Melons.ChristmasRaisesByHalf | melons.py:34-37 | changing a plain species into a Christmas species multiplies the taxed total by exactly 1.5, with everything else about the order kept |
| Melons.TotalBounds | melons.py:19-39 | for a non-negative quantity the total lies between the taxed quantity priced at the cheapest melon and at the dearest melon of its species, plus the fee |
| Melons.TaxedTotalBounds | melons.py:19-37 | for a non-negative quantity and any base price in [5, 13], the taxed total lies between the taxed quantity times the cheapest and times the dearest unit price of the species |
| Melons.TaxOrdering | melons.py:37 | for the same species, non-negative quantity and base price, the government total is at most the domestic total, which is at most the taxed part of the international total |
| Melons.TotalIgnoresFlags | melons.py:29-44 | shipping an order, inspecting a government order or changing an international order's country code does not change its total |
| Melons.ChristmasIsCaseInsensitive | melons.py:34 | a species containing any upper/lower-case spelling of "christmas" is a Christmas species |
| Melons.ChristmasAtStart | melons.py:34 | a species whose first nine characters lower-case to "christmas" is a Christmas species |
| Melons.ChristmasMelonIsChristmas | melons.py:34 | "Christmas Melon" is a Christmas species |
| Melons.CapitalChristmasIsChristmas | melons.py:34 | "CHRISTMAS" is a Christmas species |
| Melons.WatermelonIsPlain | melons.py:34 | "Watermelon" is not a Christmas species |
| Melons.PlainWorkedTotals | melons.py:29-85 | at base 5 with no surge and a plain species: domestic of 1 costs 5.4, government of 1 costs 5, international of 5 costs 32.25, international of 10 costs 58.5; in the surge window domestic of 1 costs 9.72 |
| Melons.ChristmasWorkedTotal | melons.py:32-37 | two Christmas melons at draw 6 with no surge cost 19.44 domestically |
| Melons.WorkedTotals | melons.py:29-85 | the worked totals hold for the named species "Watermelon" and "Christmas Melon" |
| Melons.MarkShipped | melons.py:41-44 | after shipping the order is shipped, and its kind, species, quantity, country code and inspection flag are unchanged |
| Melons.MarkShippedIdempotent | melons.py:41-44 | shipping twice gives the same order as shipping once, and shipping a shipped order changes nothing |
| Melons.MarkInspection | melons.py:100-104 | after an inspection the flag is set exactly when it already was or the inspection passed; species, quantity and shipped flag are unchanged |
| Melons.MarkInspectionMonotone | melons.py:100-104 | a passed inspection is never undone, a failed inspection leaves the order as it was, and repeating an inspection changes nothing |
| Melons.InspectionScenario | melons.py:94-104 | on a new government order a failed inspection leaves the flag false, a passed one sets it, and a later failed one leaves it set |
| Melons.GetCountryCode | melons.py:65-68 | the code returned, with the order's shared fields, rebuilds the order exactly |
| Melons.CountryCodeRoundTrip | melons.py:60-68 | the country code read back is the one given at construction, also after shipping |
| Text.LowerChar | melons.py:34 | an ASCII capital becomes the letter 32 code points later, between a and z; every other character is kept; the result is never a capital |
| Text.Lower | melons.py:34 | lower-casing keeps the length and maps each character through ASCII lower-casing |
| Text.LowerIdempotent | melons.py:34 | lower-casing twice equals lower-casing once |
| Text.LowerIsLower | melons.py:34 | a lower-cased string has no capitals, and a string is its own lower-casing exactly when it has none |
| Text.LowerKeepsOccurrence | melons.py:34 | an occurrence of a pattern in a string is an occurrence of the lower-cased pattern in the lower-cased string |
| Text.Contains | melons.py:34 | the empty pattern occurs in every string; a pattern longer than the string never occurs; one exactly as long occurs only when it equals the string |
| Text.ContainsFromFront | melons.py:34 | a pattern occurs in a non-empty string exactly when the string starts with it or its rest contains it |
| Text.LowerWindows | melons.py:34 | an occurrence in the lower-cased string at an index is exactly a window at that index that lower-cases to the pattern |
| Text.MissingFirstLetter | melons.py:34 | a string lacking the first character of a non-empty pattern does not contain the pattern |
| Lifecycle.Apply | melons.py:41-104 | one ship or inspect event keeps kind, species, quantity and country code, and never clears a flag |
| Lifecycle.Replay | melons.py:41-104 | after a sequence of events the order keeps its fixed parts; it is shipped exactly when it was already or some event shipped it; a government order has passed inspection exactly when it had already or some inspection passed |
| Lifecycle.ReplayKeepsTotal | melons.py:29-44 | no sequence of events changes the total of an order at any draw and clock reading |
| Lifecycle.ReplayConcat | melons.py:41-104 | replaying two event lists one after the other equals replaying them joined |

## Left out

- The random draw (`randint`) and the clock (`datetime.now`) are parameters. The model assumes what they deliver: a draw in [5, 9], a weekday in 0..6 and an hour in 0..23.
- Floating point: totals are exact reals. Python computes them in binary floating point, so 0.08, 0.17 and their products are rounded there and not here.
- Python's full Unicode `str.lower()`: only the ASCII letters A-Z are lower-cased.
- Number types: Python's government total for a plain species is an `int`, because the tax is the integer 0. Every other total is a `float`. The model returns the same value as a real in every case.
- `TooManyMelonsError` is declared as the unused error kind `Melons.OrderError`. The source never raises it and has no quantity limit, so no operation produces it.
- The `order_type` strings are descriptive class attributes with no behaviour.
- The commented-out alternative body of the international total is not modelled. It adds the fee after the shared total, which gives the same value.
- `mark_inspection` compares its argument with `is True`, so a truthy non-boolean such as `1` does not count as a pass. The model's argument is a `bool`, so that case does not arise.
- Non-integer quantities: Python would accept them, but the model's quantity is an integer.
- Calling `mark_inspection` on an order that is not a government order, or `get_country_code` on one that is not international, raises `AttributeError` in Python. In the model these calls are excluded by a precondition.
- Melons.TotalBounds: assumes a non-negative quantity, because a negative quantity reverses the bounds; the source does not forbid one.
- Melons.TaxedTotalBounds: assumes a non-negative quantity, for the same reason as Melons.TotalBounds.
- Melons.TaxOrdering: assumes a non-negative quantity and base price, because otherwise the ordering reverses; the source does not forbid them.
