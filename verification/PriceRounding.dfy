/** Cent rounding and the price rounding rules: bands of prices, each with ranges of the decimal part that
    are replaced by a fixed decimal. */
module PriceRounding {
  import opened Options
  import opened Lists

  datatype DecimalRange = DecimalRange(from: real, to: real, roundTo: real)
  datatype RoundingRule = RoundingRule(priceMin: real, priceMax: real, decimalRanges: seq<DecimalRange>)

  /** Math.round: the nearest integer, halves upward. */
  function RoundHalfUp(x: real): int {
    (x + 0.5).Floor
  }

  /** Math.round(x * 100) / 100. */
  function RoundCents(x: real): real {
    RoundHalfUp(x * 100.0) as real / 100.0
  }

  /** The multiple of a cent that is nearest, the upper one halfway. */
  lemma RoundCentsNear(x: real)
    ensures -0.005 < RoundCents(x) - x <= 0.005
    ensures RoundCents(x) * 100.0 == (RoundCents(x) * 100.0).Floor as real
  {
  }

  function InBand(price: real): RoundingRule -> bool {
    (rule: RoundingRule) => rule.priceMin <= price <= rule.priceMax
  }

  function InDecimals(decimal: real): DecimalRange -> bool {
    (range: DecimalRange) => range.from <= decimal <= range.to
  }

  function IntegerPart(price: real): real {
    price.Floor as real
  }

  function DecimalPart(price: real): real {
    RoundCents(price - IntegerPart(price))
  }

  /** The decimal range that applies to a price, if its band has one. */
  function RangeFor(price: real, rules: seq<RoundingRule>): Option<DecimalRange> {
    match Find(rules, InBand(price))
    case None => None
    case Some(rule) => Find(rule.decimalRanges, InDecimals(DecimalPart(price)))
  }

  function ApplyPriceRounding(price: real, rules: seq<RoundingRule>): Option<real> {
    match RangeFor(price, rules)
    case None => None
    case Some(range) =>
      var rounded := IntegerPart(price) + range.roundTo;
      if rounded == RoundCents(price) then None else Some(RoundCents(rounded))
  }

  /** The first band that holds the price decides, and in it the first range that holds the price's decimals, to the
      cent; both ends of bands and ranges belong to them. */
  lemma RangeForExactly(price: real, rules: seq<RoundingRule>)
    ensures
      var decimals := RoundCents(price - price.Floor as real);
      var range := RangeFor(price, rules);
      && (range.Some? ==> exists i, j :: FirstRange(price, decimals, rules, i, j, range.value))
      && (range.None? ==> forall i: nat :: FirstBand(price, rules, i) ==>
            forall r <- rules[i].decimalRanges :: !(r.from <= decimals <= r.to))
  {
    FindIsFirst(rules, InBand(price));
    var band := Find(rules, InBand(price));
    if band.Some? {
      var i :| 0 <= i < |rules| && InBand(price)(rules[i]) && band.value == rules[i]
               && forall k :: 0 <= k < i ==> !InBand(price)(rules[k]);
      assert FirstBand(price, rules, i) && forall k: nat :: FirstBand(price, rules, k) ==> k == i;
      var ranges, inside := rules[i].decimalRanges, InDecimals(DecimalPart(price));
      FindIsFirst(ranges, inside);
      if Find(ranges, inside).Some? {
        var j :| 0 <= j < |ranges| && inside(ranges[j]) && Find(ranges, inside).value == ranges[j]
                 && forall k :: 0 <= k < j ==> !inside(ranges[k]);
        assert FirstRange(price, DecimalPart(price), rules, i, j, ranges[j]);
      }
    }
  }

  ghost predicate FirstBand(price: real, rules: seq<RoundingRule>, i: nat) {
    && i < |rules| && rules[i].priceMin <= price <= rules[i].priceMax
    && forall k :: 0 <= k < i ==> !(rules[k].priceMin <= price <= rules[k].priceMax)
  }

  ghost predicate FirstRange(price: real, decimals: real, rules: seq<RoundingRule>, i: nat, j: nat,
                             range: DecimalRange)
  {
    && FirstBand(price, rules, i)
    && var ranges := rules[i].decimalRanges;
    && j < |ranges| && ranges[j] == range && range.from <= decimals <= range.to
    && forall k :: 0 <= k < j ==> !(ranges[k].from <= decimals <= ranges[k].to)
  }

  /** Rounding keeps the price's whole units and replaces its decimals by those of the range, to the cent; it does not
      apply exactly when no range does, or when it would put back what is there to the cent. */
  lemma RoundingExactly(price: real, rules: seq<RoundingRule>)
    ensures
      var range, rounded := RangeFor(price, rules), ApplyPriceRounding(price, rules);
      && (rounded.None? <==> range.None? || price.Floor as real + range.value.roundTo == RoundCents(price))
      && (rounded.Some? ==> rounded.value == price.Floor as real + RoundCents(range.value.roundTo))
  {
    if RangeFor(price, rules).Some? {
      RoundCentsShifts(price.Floor, RangeFor(price, rules).value.roundTo);
    }
  }

  /** Cent rounding leaves whole units alone. */
  lemma RoundCentsShifts(n: int, d: real)
    ensures RoundCents(n as real + d) == n as real + RoundCents(d)
  {
    var k := (d * 100.0 + 0.5).Floor;
    assert (n as real + d) * 100.0 + 0.5 == (100 * n) as real + (d * 100.0 + 0.5);
    assert ((n as real + d) * 100.0 + 0.5).Floor == 100 * n + k;
    assert RoundCents(n as real + d) == (100 * n + k) as real / 100.0;
  }

  /** A rounded price is the integer part plus the replacement decimals, so it never falls by a whole unit; it
      rises by less than a unit exactly when the replacement, to the cent, is less than a unit above the
      decimals it replaces. Nothing bounds roundTo from above. */
  lemma RoundingMovesLessThanOne(price: real, rules: seq<RoundingRule>)
    requires ApplyPriceRounding(price, rules).Some?
    requires RangeFor(price, rules).value.roundTo >= 0.0
    ensures
      var roundTo := RangeFor(price, rules).value.roundTo;
      var moved := ApplyPriceRounding(price, rules).value - price;
      && ApplyPriceRounding(price, rules).value == IntegerPart(price) + RoundCents(roundTo)
      && -1.0 < moved
      && (moved < 1.0 <==> RoundCents(roundTo) < 1.0 + (price - IntegerPart(price)))
  {
    RoundCentsShifts(price.Floor, RangeFor(price, rules).value.roundTo);
  }

  /** A roundTo of five units, which nothing refuses, moves 10.50 to 15.00. */
  lemma RoundToAboveOneMovesFar()
    ensures ApplyPriceRounding(10.5, [RoundingRule(0.0, 100.0, [DecimalRange(0.0, 0.99, 5.0)])]) == Some(15.0)
  {
    var range := DecimalRange(0.0, 0.99, 5.0);
    var rules := [RoundingRule(0.0, 100.0, [range])];
    assert 10.5.Floor == 10;
    RoundCentsNear(0.5);
    assert InBand(10.5)(rules[0]) && InDecimals(DecimalPart(10.5))(range);
    assert Find(rules, InBand(10.5)) == Some(rules[0]);
    assert Find([range], InDecimals(DecimalPart(10.5))) == Some(range);
    RoundCentsShifts(15, 0.0);
    RoundCentsShifts(10, 0.5);
    assert RoundCents(0.0) == 0.0;
  }

  // ----- creation of a rounding rule -----

  function RangesMeet(): (DecimalRange, DecimalRange) -> bool {
    (a: DecimalRange, b: DecimalRange) => a.from <= b.to && b.from <= a.to
  }

  /** Refuses the first pair of overlapping ranges, counted from one. */
  method ValidateDecimalRangesDoNotOverlap(ranges: seq<DecimalRange>) returns (error: Option<(nat, nat)>)
    ensures error.None? <==> forall i, j :: 0 <= i < j < |ranges| ==> !RangesMeet()(ranges[i], ranges[j])
    ensures error.Some? ==>
      && error.value.0 > 0 && error.value.1 > 0
      && FirstClash(ranges, RangesMeet(), error.value.0 - 1, error.value.1 - 1)
  {
    var clash := FindClash(ranges, RangesMeet());
    error := match clash case None => None case Some(pair) => Some((pair.0 + 1, pair.1 + 1));
  }

  /** For ranges that are not upside down, accepted means exactly that no decimal part has two ranges. */
  lemma AcceptedRangesAreUnambiguous(ranges: seq<DecimalRange>)
    requires forall r <- ranges :: r.from <= r.to
    ensures (forall i, j :: 0 <= i < j < |ranges| ==> !RangesMeet()(ranges[i], ranges[j]))
       <==> forall d :: AtMostOne(ranges, InDecimals(d))
  {
    if forall d :: AtMostOne(ranges, InDecimals(d)) {
      forall i, j | 0 <= i < j < |ranges| ensures !RangesMeet()(ranges[i], ranges[j]) {
        assert ranges[i] in ranges && ranges[j] in ranges;
        var d := if ranges[i].from <= ranges[j].from then ranges[j].from else ranges[i].from;
        assert AtMostOne(ranges, InDecimals(d));
        assert !(InDecimals(d)(ranges[i]) && InDecimals(d)(ranges[j]));
      }
    }
  }
}
