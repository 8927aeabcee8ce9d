/** What every figure of a preview means, told from the product, its prices and the configured lists alone: which rule
    and lock apply, what each step makes of the price, and what the report says of it. */
module PreviewExact {
  import opened Options
  import opened Classification
  import opened Lists
  import opened PricingRules
  import opened PriceRounding
  import opened PricePreview

  /** A number that may be missing, read as zero. */
  function OrZero(a: Option<real>): real {
    if a.Some? then a.value else 0.0
  }

  function OfferOrSale(p: Prices): real {
    if p.offer.Some? then p.offer.value else OrZero(p.product.price)
  }

  // ----- the calculation price -----

  /** A source's price counts only when it is positive; the shop's own is its offer, or without one its sale price. */
  lemma SourcePriceExactly(p: Prices, origin: string)
    ensures SourcePrice(p, OwnPrice) == (if OfferOrSale(p) > 0.0 then Some(OfferOrSale(p)) else None)
    ensures SourcePrice(p, Competitor(origin))
         == if origin in p.competitors && p.competitors[origin] > 0.0 then Some(p.competitors[origin]) else None
  {
  }

  /** A sale or offer base always has a price, zero if nothing is known. */
  lemma BasePriceExactly(p: Prices, params: Params)
    ensures params.baseType == SalePrice ==> CalculationPrice(p, params) == Some(OrZero(p.product.price))
    ensures params.baseType == OfferPrice ==> CalculationPrice(p, params) == Some(OfferOrSale(p))
  {
  }

  // ----- the rule and the lock -----

  /** What rules and locks are compared with: the classification cut to two levels, the calculation price, and the
      stored margin of the product, zero when it has none. */
  predicate RuleHits(rule: Rule, p: Prices, price: real) {
    && rule.active
    && Named(Normalize(p.product.classification), rule.classifications)
    && Inside(price, rule.priceMin, rule.priceMax)
    && Inside(OrZero(p.product.margin), rule.marginMin, rule.marginMax)
  }

  predicate LockHits(lock: Lock, p: Prices) {
    lock.active && Named(Normalize(p.product.classification), lock.classifications)
  }

  ghost predicate FirstRule(rules: seq<Rule>, i: nat, p: Prices, price: real) {
    i < |rules| && RuleHits(rules[i], p, price) && forall j :: 0 <= j < i ==> !RuleHits(rules[j], p, price)
  }

  ghost predicate FirstLockOf(locks: seq<Lock>, i: nat, p: Prices) {
    i < |locks| && LockHits(locks[i], p) && forall j :: 0 <= j < i ==> !LockHits(locks[j], p)
  }

  /** The first rule of the list that hits the product applies, and none exactly when none does. */
  lemma RuleSelectionExactly(p: Prices, params: Params, price: real)
    ensures
      var rules, rule := params.rules, RuleFor(p, params, price);
      && (rule.None? <==> forall i :: 0 <= i < |rules| ==> !RuleHits(rules[i], p, price))
      && (rule.Some? ==> exists i: nat :: FirstRule(rules, i, p, price) && rules[i] == rule.value)
  {
    var rules, t := params.rules, TargetOf(p, price);
    assert t == Target(Normalize(p.product.classification), price, OrZero(p.product.margin));
    FindIsFirst(rules, HitsRule(t));
    forall i | 0 <= i < |rules| ensures HitsRule(t)(rules[i]) <==> RuleHits(rules[i], p, price) {
      MatchesExactly(rules[i], Lock(None, 0.0, true), t);
    }
    if i :| 0 <= i < |rules| && HitsRule(t)(rules[i]) && FirstMatch(rules, t) == Some(rules[i])
            && forall j :: 0 <= j < i ==> !HitsRule(t)(rules[j]) {
      assert FirstRule(rules, i, p, price);
    }
  }

  /** The first lock of the list that hits the product applies, and none exactly when none does. */
  lemma LockSelectionExactly(p: Prices, params: Params, price: real)
    ensures
      var locks, lock := params.locks, LockFor(p, params, price);
      && (lock.None? <==> forall i :: 0 <= i < |locks| ==> !LockHits(locks[i], p))
      && (lock.Some? ==> exists i: nat :: FirstLockOf(locks, i, p) && locks[i] == lock.value)
  {
    var locks, t := params.locks, TargetOf(p, price);
    FindIsFirst(locks, HitsLock(t));
    assert forall i :: 0 <= i < |locks| ==> (HitsLock(t)(locks[i]) <==> LockHits(locks[i], p));
    if i :| 0 <= i < |locks| && HitsLock(t)(locks[i]) && FirstLock(locks, t) == Some(locks[i])
            && forall j :: 0 <= j < i ==> !HitsLock(t)(locks[j]) {
      assert FirstLockOf(locks, i, p);
    }
  }

  // ----- margins -----

  /** A margin is the share of the price that is not cost, in percent; without a cost it is zero, and no margin is lower
      than that of a price of zero. */
  predicate IsMargin(m: Margin, price: real, cost: real) {
    if cost <= 0.0 then m == Percent(0.0)
    else if price == 0.0 then m == NegativeInfinity
    else m.Percent? && m.value * price == (price - cost) * 100.0
  }

  lemma MarginExactly(price: real, cost: real)
    ensures IsMargin(MarginAt(price, cost), price, cost)
    ensures price != 0.0 ==> MarginOf(price, cost) * price == (price - cost) * 100.0
  {
    if price != 0.0 {
      var share := (price - cost) / price;
      assert share * price == price - cost;
      assert share * 100.0 * price == (share * price) * 100.0;
    }
  }

  /** The current margin is that of the offer, or of the sale price when there is no offer or it is zero; it is zero
      when that price is not positive. */
  lemma CurrentMarginExactly(p: Prices)
    ensures
      var base := if OrZero(p.offer) != 0.0 then p.offer.value else OrZero(p.product.price);
      if base > 0.0 then CurrentMargin(p) * base == (base - OrZero(p.product.cost)) * 100.0 else CurrentMargin(p) == 0.0
  {
    var base := if OrZero(p.offer) != 0.0 then p.offer.value else OrZero(p.product.price);
    if base > 0.0 {
      MarginExactly(base, OrZero(p.product.cost));
    }
  }

  // ----- the steps of the calculation -----

  /** Two prices differ by a percentage of the first. */
  predicate Lowered(from: real, to: real, percentage: real) {
    (from - to) * 100.0 == from * percentage
  }

  predicate Raised(from: real, to: real, percentage: real) {
    (to - from) * 100.0 == from * percentage
  }

  lemma ActionExactly(percentage: real, price: real)
    ensures Lowered(price, ApplyAction(Some(Discount), percentage, price), percentage)
    ensures Raised(price, ApplyAction(Some(Increase), percentage, price), percentage)
  {
    var part := percentage / 100.0;
    assert part * 100.0 == percentage;
    assert price * (1.0 - part) == price - price * part && price * (1.0 + part) == price + price * part;
    assert (price * part) * 100.0 == price * (part * 100.0);
  }

  lemma EffectiveExactly(from: real, to: real, action: Option<Action>)
    requires from > 0.0
    ensures
      var applied := EffectivePercentage(action, from, to);
      if action == Some(Discount) then Lowered(from, to, applied) else Raised(from, to, applied)
  {
    var q := (to - from) / from;
    assert q * from == to - from && (from - to) / from == -q;
    assert (q * 100.0) * from == (q * from) * 100.0;
  }

  /** A discount lowers the calculation price by its percentage and an increase raises it; without a matching rule it
      stays. A product whose price would then exceed a positive sale price is skipped, and no other; what is priced is
      reported with the rule's own action and percentage. */
  lemma RulePriceExactly(p: Prices, params: Params)
    requires CalculationPrice(p, params).Some?
    ensures
      var price := CalculationPrice(p, params).value;
      var rule, exact := RuleFor(p, params, price), Compute(p, params);
      && !exact.NoCompetitorPrice?
      && (rule.None? ==> exact.afterRule == price)
      && (rule.Some? ==> match rule.value.action
                         case Discount => Lowered(price, exact.afterRule, rule.value.percentage)
                         case Increase => Raised(price, exact.afterRule, rule.value.percentage))
      && (exact.ExceedsLimit? <==> exact.afterRule > OrZero(p.product.price) > 0.0)
      && (exact.Priced? && rule.None? ==> exact.action.None? && exact.percentage == 0.0)
      && (exact.Priced? && rule.Some? ==>
            exact.action == Some(rule.value.action) && exact.percentage == rule.value.percentage)
  {
    var price := CalculationPrice(p, params).value;
    var rule := RuleFor(p, params, price);
    if rule.Some? {
      ActionExactly(rule.value.percentage, price);
    }
  }

  lemma LockedPriceExactly(cost: real, minMargin: real)
    requires minMargin / 100.0 < 1.0
    ensures LockedPrice(cost, minMargin) * (100.0 - minMargin) == cost * 100.0
  {
    var f := 1.0 - minMargin / 100.0;
    var price := cost / f;
    assert price * f == cost && f * 100.0 == 100.0 - minMargin;
    assert price * (f * 100.0) == (price * f) * 100.0;
  }

  /** The lock sets the price exactly when it has a minimum below 100, the product has a cost, and the current margin or
      the one after the rule is below the minimum; the price is then the one with that margin. Nothing else stands
      between the rule and the rounding. */
  lemma LockExactly(p: Prices, params: Params)
    requires Compute(p, params).Priced?
    ensures
      var exact, cost := Compute(p, params), OrZero(p.product.cost);
      var lock := LockFor(p, params, CalculationPrice(p, params).value);
      && (exact.lockApplied <==>
            && lock.Some? && lock.value.minMargin < 100.0 && cost > 0.0
            && (CurrentMargin(p) < lock.value.minMargin
                || BelowMargin(MarginAt(exact.afterRule, cost), lock.value.minMargin)))
      && (exact.lockApplied ==> exact.beforeRounding * (100.0 - lock.value.minMargin) == cost * 100.0)
      && (!exact.lockApplied ==> exact.beforeRounding == exact.afterRule)
  {
    var lock := LockFor(p, params, CalculationPrice(p, params).value);
    if lock.Some? && lock.value.minMargin / 100.0 < 1.0 {
      LockedPriceExactly(OrZero(p.product.cost), lock.value.minMargin);
    }
  }

  /** The final price is the rounded one if rounding applies. Its margin is reported, that of the lock exactly when it
      set the price. The applied percentage leads from the offer price to the final price when a lock set or kept a
      price other than the rule's, and is the rule's own otherwise. */
  lemma FinalPriceExactly(p: Prices, params: Params)
    requires Compute(p, params).Priced?
    ensures
      var exact, cost, offer := Compute(p, params), OrZero(p.product.cost), OfferOrSale(p);
      var rounded := ApplyPriceRounding(exact.beforeRounding, params.rounding);
      && (exact.roundingApplied <==> rounded.Some?)
      && exact.final == (if rounded.Some? then rounded.value else exact.beforeRounding)
      && (if exact.lockApplied && !exact.roundingApplied
          then exact.margin == Percent(LockFor(p, params, CalculationPrice(p, params).value).value.minMargin)
          else IsMargin(exact.margin, exact.final, cost))
      && (if exact.lockApplied && offer > 0.0 && (exact.roundingApplied || exact.beforeRounding != exact.afterRule)
          then Replays(exact, offer) else exact.applied == exact.percentage)
  {
    var exact, cost, offer := Compute(p, params), OrZero(p.product.cost), OfferOrSale(p);
    MarginExactly(exact.final, cost);
    if offer > 0.0 {
      EffectiveExactly(offer, exact.final, exact.action);
    }
  }

  predicate Replays(exact: Exact, offer: real)
    requires exact.Priced?
  {
    if exact.action == Some(Discount) then Lowered(offer, exact.final, exact.applied)
    else Raised(offer, exact.final, exact.applied)
  }

  // ----- the report -----

  /** Within half a cent, and a whole number of cents. */
  predicate InCents(reported: real, exact: real) {
    -0.005 < reported - exact <= 0.005 && reported * 100.0 == (reported * 100.0).Floor as real
  }

  /** The figures that every report carries as they are. */
  lemma ReportHeadExactly(p: Prices, params: Params)
    ensures
      var report := ReportOf(p, params, Compute(p, params));
      && report.classification == Normalize(p.product.classification)
      && report.baseSalePrice == OrZero(p.product.price) && report.baseOfferPrice == OfferOrSale(p)
      && report.cost == OrZero(p.product.cost)
      && report.currentPrice == (if CalculationPrice(p, params).Some? then CalculationPrice(p, params).value
                                 else OrZero(p.product.price))
  {
  }

  /** A priced product is reported with its own action, percentages, price, margins and flags, in cents. */
  lemma PricedReportExactly(p: Prices, params: Params)
    requires Compute(p, params).Priced?
    ensures
      var exact, report := Compute(p, params), ReportOf(p, params, Compute(p, params));
      && report.action == exact.action && report.percentage == Some(exact.percentage)
      && InCents(report.applied, exact.applied) && InCents(report.finalPrice, exact.final)
      && InCents(report.currentMargin, CurrentMargin(p))
      && (exact.margin.Percent? <==> report.newMargin.Percent?)
      && (exact.margin.Percent? ==> InCents(report.newMargin.value, exact.margin.value))
      && report.lockApplied == exact.lockApplied && report.roundingApplied == exact.roundingApplied
      && !report.skippedNoCompetitorPrice && !report.skippedPriceExceedsLimit
  {
    var exact := Compute(p, params);
    RoundCentsNear(exact.applied);
    RoundCentsNear(exact.final);
    RoundCentsNear(CurrentMargin(p));
    if exact.margin.Percent? {
      RoundCentsNear(exact.margin.value);
    }
  }

  /** A skipped product is reported as it stands: its price and margin are both the current and the new ones, nothing
      was applied, and one flag says why. Without a competitor price its margin is that of the sale price; over the
      limit the rule that led there is named. */
  lemma SkippedReportExactly(p: Prices, params: Params)
    requires !Compute(p, params).Priced?
    ensures
      var exact, report := Compute(p, params), ReportOf(p, params, Compute(p, params));
      var sale, cost := OrZero(p.product.price), OrZero(p.product.cost);
      && report.finalPrice == report.currentPrice && report.newMargin == Percent(report.currentMargin)
      && report.applied == 0.0 && !report.lockApplied && !report.roundingApplied
      && report.skippedNoCompetitorPrice == exact.NoCompetitorPrice?
      && report.skippedPriceExceedsLimit == exact.ExceedsLimit?
      && (exact.NoCompetitorPrice? ==>
            && report.action.None? && report.percentage == Some(0.0)
            && (if cost > 0.0 && sale > 0.0 then InCents(report.currentMargin, MarginOf(sale, cost))
                else report.currentMargin == 0.0))
      && (exact.ExceedsLimit? ==>
            var rule := RuleFor(p, params, CalculationPrice(p, params).value);
            && InCents(report.currentMargin, CurrentMargin(p))
            && report.action == (if rule.Some? then Some(rule.value.action) else None)
            && report.percentage == (if rule.Some? then Some(rule.value.percentage) else None))
  {
    var sale, cost := OrZero(p.product.price), OrZero(p.product.cost);
    RoundCentsNear(CurrentMargin(p));
    RoundCentsNear(0.0);
    if cost > 0.0 && sale > 0.0 {
      RoundCentsNear(MarginOf(sale, cost));
    }
  }
}
