/** `calculateProductPreview`: from a product and its prices to the reported price. The exact price is kept
    apart from the cent rounding of the report. */
module PricePreview {
  import opened Options
  import opened Classification
  import opened PricingRules
  import opened PriceRounding

  datatype BaseType = SalePrice | OfferPrice | CompetitivePrice
  datatype Source = OwnPrice | Competitor(origin: string)

  datatype Product = Product(price: Option<real>, cost: Option<real>, margin: Option<real>, classification: string)

  datatype Prices = Prices(product: Product, competitors: map<string, real>, offer: Option<real>)

  datatype Params = Params(
    baseType: BaseType,
    sources: Option<seq<Source>>,
    rules: seq<Rule>,
    locks: seq<Lock>,
    rounding: seq<RoundingRule>)

  function OrElse(a: Option<real>, b: real): real {
    match a case Some(v) => v case None => b
  }

  // ----- the calculation price -----

  /** The price a source contributes: positive prices only. */
  function SourcePrice(p: Prices, source: Source): Option<real> {
    match source
    case OwnPrice =>
      var own := if p.offer.Some? then p.offer else p.product.price;
      if own.Some? && own.value > 0.0 then own else None
    case Competitor(origin) =>
      if origin in p.competitors && p.competitors[origin] > 0.0 then Some(p.competitors[origin]) else None
  }

  function Cheaper(a: Option<real>, b: Option<real>): Option<real> {
    if a.None? then b else if b.None? then a else if b.value < a.value then b else a
  }

  function LowestPrice(p: Prices, sources: seq<Source>): Option<real> {
    if sources == [] then None
    else Cheaper(LowestPrice(p, sources[..|sources| - 1]), SourcePrice(p, sources[|sources| - 1]))
  }

  /** The lowest positive price any listed source has, and none when no source has one. */
  method GetLowestPriceFromSources(p: Prices, sources: seq<Source>) returns (r: Option<real>)
    ensures r == LowestPrice(p, sources)
    ensures r.None? <==> forall s <- sources :: SourcePrice(p, s).None?
    ensures r.Some? ==>
      && (exists s <- sources :: SourcePrice(p, s) == r)
      && (forall s <- sources :: SourcePrice(p, s).Some? ==> r.value <= SourcePrice(p, s).value)
  {
    r := None;
    for i := 0 to |sources|
      invariant r == LowestPrice(p, sources[..i])
      invariant r.None? <==> forall j :: 0 <= j < i ==> SourcePrice(p, sources[j]).None?
      invariant r.Some? ==> exists j :: 0 <= j < i && SourcePrice(p, sources[j]) == r
      invariant r.Some? ==> forall j :: 0 <= j < i && SourcePrice(p, sources[j]).Some? ==>
                              r.value <= SourcePrice(p, sources[j]).value
    {
      assert sources[..i + 1][..i] == sources[..i];
      r := Cheaper(r, SourcePrice(p, sources[i]));
    }
    assert sources[..|sources|] == sources;
  }

  function CalculationPrice(p: Prices, params: Params): Option<real> {
    match params.baseType
    case SalePrice => Some(OrElse(p.product.price, 0.0))
    case OfferPrice => Some(if p.offer.Some? then p.offer.value else OrElse(p.product.price, 0.0))
    case CompetitivePrice => if params.sources.None? then None else LowestPrice(p, params.sources.value)
  }

  // ----- margins -----

  /** A margin in percent; JavaScript's division of a negative number by zero is the lowest of all. */
  datatype Margin = NegativeInfinity | Percent(value: real)

  predicate BelowMargin(m: Margin, floor: real) {
    m.NegativeInfinity? || m.value < floor
  }

  function MarginOf(price: real, cost: real): real
    requires price != 0.0
  {
    (price - cost) / price * 100.0
  }

  function MarginAt(price: real, cost: real): Margin {
    if cost <= 0.0 then Percent(0.0)
    else if price == 0.0 then NegativeInfinity
    else Percent(MarginOf(price, cost))
  }

  function CurrentMargin(p: Prices): real {
    var base := if p.offer.Some? && p.offer.value != 0.0 then p.offer else p.product.price;
    if base.Some? && base.value > 0.0 then MarginOf(base.value, OrElse(p.product.cost, 0.0)) else 0.0
  }

  // ----- the exact calculation -----

  function ApplyAction(action: Option<Action>, percentage: real, price: real): real {
    match action
    case None => price * (1.0 + percentage / 100.0)
    case Some(Discount) => price * (1.0 - percentage / 100.0)
    case Some(Increase) => price * (1.0 + percentage / 100.0)
  }

  /** The percentage that takes `from` to `to` under an action; with no action it is read as an increase. */
  function EffectivePercentage(action: Option<Action>, from: real, to: real): real
    requires from > 0.0
  {
    if action == Some(Discount) then (from - to) / from * 100.0 else (to - from) / from * 100.0
  }

  datatype Exact =
    | NoCompetitorPrice
    | ExceedsLimit(afterRule: real)
    | Priced(
        action: Option<Action>, percentage: real,
        afterRule: real, beforeRounding: real, final: real,
        margin: Margin, applied: real,
        lockApplied: bool, roundingApplied: bool)

  function TargetOf(p: Prices, price: real): Target {
    Target(Normalize(p.product.classification), price, OrElse(p.product.margin, 0.0))
  }

  function RuleFor(p: Prices, params: Params, price: real): Option<Rule> {
    FirstMatch(params.rules, TargetOf(p, price))
  }

  function LockFor(p: Prices, params: Params, price: real): Option<Lock> {
    FirstLock(params.locks, TargetOf(p, price))
  }

  function SaleOf(p: Prices): real {
    OrElse(p.product.price, 0.0)
  }

  function OfferOf(p: Prices): real {
    if p.offer.Some? then p.offer.value else SaleOf(p)
  }

  function AfterRule(rule: Option<Rule>, price: real): real {
    if rule.None? then price else ApplyAction(Some(rule.value.action), rule.value.percentage, price)
  }

  /** The lock applies when either margin is below its minimum and the minimum can be met by a price. */
  predicate LockApplies(lock: Option<Lock>, currentMargin: real, newMargin: Margin, cost: real) {
    && lock.Some?
    && (currentMargin < lock.value.minMargin || BelowMargin(newMargin, lock.value.minMargin))
    && lock.value.minMargin / 100.0 < 1.0
    && cost > 0.0
  }

  function LockedPrice(cost: real, minMargin: real): real
    requires minMargin / 100.0 < 1.0
  {
    cost / (1.0 - minMargin / 100.0)
  }

  /** Rule, limit, lock and rounding in the order the service applies them. */
  function PriceWith(rule: Option<Rule>, lock: Option<Lock>, price: real, sale: real, offer: real, cost: real,
                     currentMargin: real, rounding: seq<RoundingRule>): Exact
  {
    var afterRule := AfterRule(rule, price);
    if afterRule > sale && sale > 0.0 then ExceedsLimit(afterRule)
    else
      var action := if rule.Some? then Some(rule.value.action) else None;
      var percentage := if rule.Some? then rule.value.percentage else 0.0;
      var locked := LockApplies(lock, currentMargin, MarginAt(afterRule, cost), cost);
      var beforeRounding := if locked then LockedPrice(cost, lock.value.minMargin) else afterRule;
      var margin := if locked then Percent(lock.value.minMargin) else MarginAt(afterRule, cost);
      var rounded := ApplyPriceRounding(beforeRounding, rounding);
      var final := if rounded.Some? then rounded.value else beforeRounding;
      var applied := if locked && offer > 0.0 && (rounded.Some? || beforeRounding != afterRule)
                     then EffectivePercentage(action, offer, final)
                     else percentage;
      Priced(action, percentage, afterRule, beforeRounding, final,
             if rounded.Some? then MarginAt(final, cost) else margin,
             applied, locked, rounded.Some?)
  }

  function Compute(p: Prices, params: Params): Exact {
    match CalculationPrice(p, params)
    case None => NoCompetitorPrice
    case Some(price) =>
      PriceWith(RuleFor(p, params, price), LockFor(p, params, price), price, SaleOf(p), OfferOf(p),
                OrElse(p.product.cost, 0.0), CurrentMargin(p), params.rounding)
  }

  /** The source's step-by-step reassignment of price, margin and percentage. */
  method ApplyRuleLockAndRounding(rule: Option<Rule>, lock: Option<Lock>, currentPrice: real, baseSalePrice: real,
                                  baseOfferPrice: real, cost: real, currentMargin: real, rounding: seq<RoundingRule>)
    returns (r: Exact)
    ensures r == PriceWith(rule, lock, currentPrice, baseSalePrice, baseOfferPrice, cost, currentMargin, rounding)
  {
    var action: Option<Action> := None;
    var percentage := 0.0;
    var finalPrice := currentPrice;
    var lockApplied := false;
    if rule.Some? {
      action := Some(rule.value.action);
      percentage := rule.value.percentage;
      finalPrice := ApplyAction(action, percentage, currentPrice);
    }
    if finalPrice > baseSalePrice && baseSalePrice > 0.0 {
      return ExceedsLimit(finalPrice);
    }
    var newMargin := MarginAt(finalPrice, cost);
    var priceAfterRule := finalPrice;
    if lock.Some? && (currentMargin < lock.value.minMargin || BelowMargin(newMargin, lock.value.minMargin)) {
      if lock.value.minMargin / 100.0 < 1.0 && cost > 0.0 {
        finalPrice := LockedPrice(cost, lock.value.minMargin);
        newMargin := Percent(lock.value.minMargin);
        lockApplied := true;
      }
    }
    var beforeRounding := finalPrice;
    var applied := percentage;
    if lockApplied && finalPrice != priceAfterRule && baseOfferPrice > 0.0 {
      applied := EffectivePercentage(action, baseOfferPrice, finalPrice);
    }
    var roundingApplied := false;
    var rounded := ApplyPriceRounding(finalPrice, rounding);
    if rounded.Some? {
      finalPrice := rounded.value;
      roundingApplied := true;
      newMargin := MarginAt(finalPrice, cost);
      if lockApplied && baseOfferPrice > 0.0 {
        applied := EffectivePercentage(action, baseOfferPrice, finalPrice);
      }
    }
    r := Priced(action, percentage, priceAfterRule, beforeRounding, finalPrice, newMargin, applied,
                lockApplied, roundingApplied);
  }

  // ----- the report -----

  datatype Report = Report(
    classification: string,
    baseSalePrice: real, baseOfferPrice: real,
    currentPrice: real, currentMargin: real,
    cost: real,
    action: Option<Action>, percentage: Option<real>,
    applied: real, finalPrice: real, newMargin: Margin,
    lockApplied: bool,
    skippedNoCompetitorPrice: bool, skippedPriceExceedsLimit: bool,
    roundingApplied: bool)

  function RoundMargin(m: Margin): Margin {
    match m case NegativeInfinity => m case Percent(v) => Percent(RoundCents(v))
  }

  function ReportOf(p: Prices, params: Params, exact: Exact): Report
    requires exact == Compute(p, params)
  {
    var cost := OrElse(p.product.cost, 0.0);
    var name := Normalize(p.product.classification);
    match exact
    case NoCompetitorPrice =>
      var margin := RoundCents(if cost > 0.0 && SaleOf(p) > 0.0 then MarginOf(SaleOf(p), cost) else 0.0);
      Report(name, SaleOf(p), OfferOf(p), SaleOf(p), margin, cost, None, Some(0.0), 0.0, SaleOf(p), Percent(margin),
             false, true, false, false)
    case ExceedsLimit(_) =>
      var price := CalculationPrice(p, params).value;
      var rule := RuleFor(p, params, price);
      var margin := RoundCents(CurrentMargin(p));
      Report(name, SaleOf(p), OfferOf(p), price, margin, cost,
             if rule.Some? then Some(rule.value.action) else None,
             if rule.Some? then Some(rule.value.percentage) else None,
             0.0, price, Percent(margin), false, false, true, false)
    case Priced(action, percentage, _, _, final, margin, applied, lockApplied, roundingApplied) =>
      Report(name, SaleOf(p), OfferOf(p), CalculationPrice(p, params).value, RoundCents(CurrentMargin(p)), cost,
             action, Some(percentage), RoundCents(applied), RoundCents(final), RoundMargin(margin),
             lockApplied, false, false, roundingApplied)
  }

  /** Only a competitive base can be without a price, exactly when no listed source has a positive one; otherwise
      it is the least of theirs, which is positive. */
  method GetCalculationBasePrice(p: Prices, params: Params) returns (r: Option<real>)
    ensures r == CalculationPrice(p, params)
    ensures r.None? <==>
      && params.baseType == CompetitivePrice
      && (params.sources.Some? ==> forall s <- params.sources.value :: SourcePrice(p, s).None?)
    ensures params.baseType == CompetitivePrice && r.Some? ==>
      && r.value > 0.0
      && (exists s <- params.sources.value :: SourcePrice(p, s) == r)
      && (forall s <- params.sources.value :: SourcePrice(p, s).Some? ==> r.value <= SourcePrice(p, s).value)
  {
    match params.baseType {
      case SalePrice => r := Some(OrElse(p.product.price, 0.0));
      case OfferPrice => r := Some(if p.offer.Some? then p.offer.value else OrElse(p.product.price, 0.0));
      case CompetitivePrice =>
        if params.sources.None? || params.sources.value == [] {
          r := None;
        } else {
          r := GetLowestPriceFromSources(p, params.sources.value);
        }
    }
  }

  method CalculateProductPreview(p: Prices, params: Params) returns (r: Report)
    ensures r == ReportOf(p, params, Compute(p, params))
  {
    var currentPrice := GetCalculationBasePrice(p, params);
    var exact := NoCompetitorPrice;
    if currentPrice.Some? {
      var rule := FindMatchingPricingRule(params.rules, TargetOf(p, currentPrice.value));
      var lock := FindMatchingPriceLock(params.locks, TargetOf(p, currentPrice.value));
      exact := ApplyRuleLockAndRounding(rule, lock, currentPrice.value, SaleOf(p), OfferOf(p),
                                        OrElse(p.product.cost, 0.0), CurrentMargin(p), params.rounding);
    }
    r := ReportOf(p, params, exact);
  }

  /** A report per product, in the order of the products. */
  method CalculateProductPreviews(products: seq<Prices>, params: Params) returns (results: seq<Report>)
    ensures |results| == |products|
    ensures forall i :: 0 <= i < |products| ==>
            results[i] == ReportOf(products[i], params, Compute(products[i], params))
  {
    results := [];
    for i := 0 to |products|
      invariant |results| == i
      invariant forall j :: 0 <= j < i ==> results[j] == ReportOf(products[j], params, Compute(products[j], params))
    {
      var result := CalculateProductPreview(products[i], params);
      results := results + [result];
    }
  }

  // ----- what the price promises -----

  lemma LockedPriceMeetsMargin(cost: real, minMargin: real)
    requires cost > 0.0 && minMargin / 100.0 < 1.0
    ensures LockedPrice(cost, minMargin) > 0.0
    ensures MarginOf(LockedPrice(cost, minMargin), cost) == minMargin
  {
    var f := 1.0 - minMargin / 100.0;
    var price := cost / f;
    assert price * f == cost;
    assert price > 0.0;
    var g := 1.0 - f;
    assert price - cost == price * g;
    assert price * g / price == g;
  }

  /** With a matching lock, a cost and a positive price, the exact price before price rounding meets the lock's
      margin exactly when the margin is one a price can have. */
  lemma MarginFloorHolds(p: Prices, params: Params)
    requires Compute(p, params).Priced?
    requires LockFor(p, params, CalculationPrice(p, params).value).Some?
    requires OrElse(p.product.cost, 0.0) > 0.0 && Compute(p, params).afterRule > 0.0
    ensures Compute(p, params).beforeRounding > 0.0
    ensures
      var minMargin := LockFor(p, params, CalculationPrice(p, params).value).value.minMargin;
      MarginOf(Compute(p, params).beforeRounding, p.product.cost.value) >= minMargin <==> minMargin < 100.0
  {
    var exact := Compute(p, params);
    var lock := LockFor(p, params, CalculationPrice(p, params).value).value;
    if exact.lockApplied {
      LockedPriceMeetsMargin(p.product.cost.value, lock.minMargin);
    }
    MarginBelowHundred(exact.beforeRounding, p.product.cost.value);
  }

  lemma MarginBelowHundred(price: real, cost: real)
    requires price > 0.0 && cost > 0.0
    ensures MarginOf(price, cost) < 100.0
  {
    var share := cost / price;
    assert share * price == cost;
    assert share > 0.0;
    assert price - cost == price * (1.0 - share);
    Cancels(price, 1.0 - share);
  }

  lemma Cancels(x: real, y: real)
    requires x != 0.0
    ensures x * y / x == y
  {
  }

  lemma MarginGrowsWithPrice(cost: real, minMargin: real, final: real)
    requires cost > 0.0 && minMargin / 100.0 < 1.0 && final > 0.0
    ensures MarginOf(final, cost) >= minMargin <==> final >= LockedPrice(cost, minMargin)
  {
    var f := 1.0 - minMargin / 100.0;
    var price := LockedPrice(cost, minMargin);
    var share := cost / final;
    assert price * f == cost && share * final == cost;
    assert final - cost == final * (1.0 - share);
    Cancels(final, 1.0 - share);
    assert MarginOf(final, cost) >= minMargin <==> share <= f;
    if share <= f {
      assert share * final <= f * final;
      assert price * f <= final * f;
      assert (final - price) * f >= 0.0;
    } else {
      assert share * final > f * final;
      assert price * f > final * f;
      assert (price - final) * f > 0.0;
    }
  }

  /** The least margin that is reported as `floor` or more. */
  function LeastReported(floor: real): real {
    -(-floor * 100.0).Floor as real / 100.0 - 0.005
  }

  lemma ReportedExactly(margin: real, floor: real)
    ensures RoundCents(margin) >= floor <==> margin >= LeastReported(floor)
  {
    var n := -(-floor * 100.0).Floor;
    var k := RoundHalfUp(margin * 100.0);
    assert k as real / 100.0 >= floor <==> k as real >= floor * 100.0;
    assert k as real >= floor * 100.0 <==> k >= n;
    assert k >= n <==> margin * 100.0 + 0.5 >= n as real;
  }

  lemma LeastReportedBelow(floor: real)
    requires floor < 100.0
    ensures LeastReported(floor) < 100.0
  {
    assert -floor * 100.0 > -10000.0;
    assert (-floor * 100.0).Floor >= -10000;
  }

  /** Price rounding runs after the lock and may undercut it. The margin before the report's cent rounding still meets
      the minimum exactly when the replacement decimals, to the cent, are no less than those of the locked price; the
      reported one exactly when the rounded price is at least the price locked at the least margin that is reported as
      the minimum or more. */
  lemma FloorAfterRoundingExactly(p: Prices, params: Params)
    requires Compute(p, params).Priced? && Compute(p, params).lockApplied && Compute(p, params).roundingApplied
    requires RangeFor(Compute(p, params).beforeRounding, params.rounding).value.roundTo >= 0.0
    ensures
      var exact := Compute(p, params);
      var minMargin := LockFor(p, params, CalculationPrice(p, params).value).value.minMargin;
      var roundTo := RangeFor(exact.beforeRounding, params.rounding).value.roundTo;
      var whole := IntegerPart(exact.beforeRounding);
      && (!BelowMargin(exact.margin, minMargin) <==> RoundCents(roundTo) >= exact.beforeRounding - whole)
      && LeastReported(minMargin) / 100.0 < 1.0
      && (!BelowMargin(ReportOf(p, params, exact).newMargin, minMargin)
          <==> whole + RoundCents(roundTo) >= LockedPrice(p.product.cost.value, LeastReported(minMargin)))
  {
    var exact := Compute(p, params);
    var cost := p.product.cost.value;
    var minMargin := LockFor(p, params, CalculationPrice(p, params).value).value.minMargin;
    LeastReportedBelow(minMargin);
    LockedPriceMeetsMargin(cost, minMargin);
    LockedPriceMeetsMargin(cost, LeastReported(minMargin));
    RoundingMovesLessThanOne(exact.beforeRounding, params.rounding);
    assert exact.final >= 0.0;
    if exact.final > 0.0 {
      MarginGrowsWithPrice(cost, minMargin, exact.final);
      MarginGrowsWithPrice(cost, LeastReported(minMargin), exact.final);
      ReportedExactly(MarginOf(exact.final, cost), minMargin);
    }
  }

  /** A product whose locked price of 10.50 is rounded down to 10.00. */
  function Undercut(): (Prices, Params) {
    var range := DecimalRange(0.0, 0.99, 0.0);
    (Prices(Product(Some(10.0), Some(9.45), None, ""), map[], None),
     Params(SalePrice, None, [], [Lock(None, 10.0, true)], [RoundingRule(0.0, 100.0, [range])]))
  }

  lemma RoundingUndercutsTheFloor()
    ensures Compute(Undercut().0, Undercut().1).Priced? && Compute(Undercut().0, Undercut().1).lockApplied
    ensures Compute(Undercut().0, Undercut().1).beforeRounding == 10.5
            && Compute(Undercut().0, Undercut().1).final == 10.0
    ensures BelowMargin(Compute(Undercut().0, Undercut().1).margin, 10.0)
  {
    var p, params := Undercut().0, Undercut().1;
    var t := TargetOf(p, 10.0);
    assert RuleFor(p, params, 10.0) == None;
    assert LockMatches(params.locks[0], t);
    assert LockFor(p, params, 10.0) == Some(params.locks[0]);
    assert LockedPrice(9.45, 10.0) == 10.5;
    TenFiftyRoundsToTen(params.rounding);
  }

  lemma TenFiftyRoundsToTen(rules: seq<RoundingRule>)
    requires rules == [RoundingRule(0.0, 100.0, [DecimalRange(0.0, 0.99, 0.0)])]
    ensures ApplyPriceRounding(10.5, rules) == Some(10.0)
  {
    assert 10.5.Floor == 10;
    RoundCentsNear(0.5);
    assert InBand(10.5)(rules[0]) && InDecimals(DecimalPart(10.5))(rules[0].decimalRanges[0]);
    assert RoundCents(0.0) == 0.0;
    RoundCentsShifts(10, 0.0);
    RoundCentsShifts(10, 0.5);
  }

  /** Without a lock and without rounding, no product is priced above its sale price. */
  lemma UnlockedPriceIsCapped(p: Prices, params: Params)
    requires Compute(p, params).Priced? && !Compute(p, params).lockApplied && SaleOf(p) > 0.0
    ensures Compute(p, params).beforeRounding <= SaleOf(p)
    ensures !Compute(p, params).roundingApplied ==> Compute(p, params).final <= SaleOf(p)
  {
  }

  lemma PercentageReplays(action: Option<Action>, from: real, to: real)
    requires from > 0.0
    ensures ApplyAction(action, EffectivePercentage(action, from, to), from) == to
  {
    var q := (to - from) / from;
    assert q * from == to - from;
    assert (from - to) / from == -q;
    var pct := EffectivePercentage(action, from, to);
    if action == Some(Discount) {
      assert pct / 100.0 == -q;
      assert from * (1.0 + q) == from + q * from;
    } else {
      assert pct / 100.0 == q;
      assert from * (1.0 + q) == from + q * from;
    }
  }

  /** The reported action and unrounded percentage lead from the offer price to the exact price whenever a
      lock applied and moved the price, or a lock applied and rounding followed, negative discounts included. */
  lemma ReportedPercentageReplays(p: Prices, params: Params)
    requires Compute(p, params).Priced? && Compute(p, params).lockApplied && OfferOf(p) > 0.0
    requires Compute(p, params).roundingApplied || Compute(p, params).beforeRounding != Compute(p, params).afterRule
    ensures ApplyAction(Compute(p, params).action, Compute(p, params).applied, OfferOf(p)) == Compute(p, params).final
  {
    PercentageReplays(Compute(p, params).action, OfferOf(p), Compute(p, params).final);
  }

  /** What a report says: a priced product is reported within half a cent of its exact price; a skipped one keeps
      its current price; and the two skip flags say exactly why. */
  lemma ReportMeansTheExactPrice(p: Prices, params: Params)
    ensures
      var exact, report := Compute(p, params), ReportOf(p, params, Compute(p, params));
      && (exact.Priced? ==> -0.005 < report.finalPrice - exact.final <= 0.005)
      && (!exact.Priced? ==> report.finalPrice == report.currentPrice && !report.lockApplied && report.applied == 0.0)
      && (report.skippedNoCompetitorPrice <==>
            && params.baseType == CompetitivePrice
            && (params.sources.Some? ==> forall s <- params.sources.value :: SourcePrice(p, s).None?))
      && (report.skippedPriceExceedsLimit <==>
            && CalculationPrice(p, params).Some?
            && SaleOf(p) > 0.0
            && AfterRule(RuleFor(p, params, CalculationPrice(p, params).value),
                         CalculationPrice(p, params).value) > SaleOf(p))
  {
    if Compute(p, params).Priced? {
      RoundCentsNear(Compute(p, params).final);
    }
    if params.sources.Some? {
      LowestPriceExactly(p, params.sources.value);
    }
  }

  lemma {:induction false} LowestPriceExactly(p: Prices, sources: seq<Source>)
    ensures LowestPrice(p, sources).None? <==> forall s <- sources :: SourcePrice(p, s).None?
    ensures LowestPrice(p, sources).Some? ==>
      && (exists s <- sources :: SourcePrice(p, s) == LowestPrice(p, sources))
      && (forall s <- sources :: SourcePrice(p, s).Some? ==> LowestPrice(p, sources).value <= SourcePrice(p, s).value)
  {
    if sources != [] {
      var rest, last := sources[..|sources| - 1], sources[|sources| - 1];
      LowestPriceExactly(p, rest);
      assert forall s :: s in sources <==> s in rest || s == last;
    }
  }

  /** Validated lists may be stored in any order: the report is the same. */
  lemma PreviewIgnoresListOrder(p: Prices, params: Params, params': Params)
    requires params' == params.(rules := params'.rules, locks := params'.locks)
    requires RulesApart(params.rules) && multiset(params.rules) == multiset(params'.rules)
    requires LocksApart(params.locks) && multiset(params.locks) == multiset(params'.locks)
    ensures Compute(p, params) == Compute(p, params')
    ensures ReportOf(p, params, Compute(p, params)) == ReportOf(p, params', Compute(p, params'))
  {
    if CalculationPrice(p, params).Some? {
      ValidatedSelectionIgnoresOrder(params.rules, params'.rules, params.locks, params'.locks,
                                     TargetOf(p, CalculationPrice(p, params).value));
    }
  }
}
