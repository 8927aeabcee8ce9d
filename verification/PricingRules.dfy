/** The overlap validators of the pricing rules and price locks, and first-match selection: what the
    validators accept is exactly what makes the selection independent of list order. */
module PricingRules {
  import opened Options
  import opened Classification
  import opened Lists

  datatype Action = Discount | Increase

  /** A range end as it reaches the service: missing, JSON null (which the DTO's `@IsOptional` lets through),
      or a number. Comparing with null compares with zero; `??` replaces null by an infinity. */
  datatype Bound = Undefined | Null | Value(v: real)

  datatype Rule = Rule(
    classifications: Filters,
    priceMin: Bound, priceMax: Bound,
    marginMin: Bound, marginMax: Bound,
    action: Action, percentage: real,
    active: bool)

  datatype Lock = Lock(classifications: Filters, minMargin: real, active: bool)

  /** What rule selection sees of a product: its two-level classification, calculation price and margin. */
  datatype Target = Target(classification: string, price: real, margin: real)

  predicate HasRange(min: Bound, max: Bound) {
    !min.Undefined? || !max.Undefined?
  }

  function Number(b: Bound): real {
    if b.Value? then b.v else 0.0
  }

  predicate RangeMatches(value: real, min: Bound, max: Bound) {
    && !(!min.Undefined? && value < Number(min))
    && !(!max.Undefined? && value > Number(max))
  }

  predicate EndsMeet(min: Bound, max: Bound) {
    min.Value? && max.Value? ==> min.v <= max.v
  }

  predicate RangesOverlap(minA: Bound, maxA: Bound, minB: Bound, maxB: Bound) {
    EndsMeet(minA, maxB) && EndsMeet(minB, maxA)
  }

  // ----- rule selection -----

  predicate Matches(rule: Rule, t: Target) {
    && rule.active
    && FilterMatches(t.classification, rule.classifications)
    && var price := RangeMatches(t.price, rule.priceMin, rule.priceMax);
       var margin := RangeMatches(t.margin, rule.marginMin, rule.marginMax);
       var hasPrice := HasRange(rule.priceMin, rule.priceMax);
       var hasMargin := HasRange(rule.marginMin, rule.marginMax);
       if hasPrice && hasMargin then price && margin
       else if hasPrice then price
       else if hasMargin then margin
       else true
  }

  /** A value is inside a range; a missing end is no limit, and JSON null is the number zero. */
  predicate Inside(value: real, min: Bound, max: Bound) {
    && (min.Value? ==> min.v <= value) && (min.Null? ==> 0.0 <= value)
    && (max.Value? ==> value <= max.v) && (max.Null? ==> value <= 0.0)
  }

  predicate Named(classification: string, filters: Filters) {
    filters.None? || filters.value == [] || exists f <- filters.value :: f <= classification
  }

  /** A rule hits a product exactly when it is active, its filters name the product's classification or a level above,
      and both its ranges hold, a missing one always. */
  lemma MatchesExactly(rule: Rule, lock: Lock, t: Target)
    ensures Matches(rule, t) <==>
      && rule.active && Named(t.classification, rule.classifications)
      && Inside(t.price, rule.priceMin, rule.priceMax) && Inside(t.margin, rule.marginMin, rule.marginMax)
    ensures LockMatches(lock, t) <==> lock.active && Named(t.classification, lock.classifications)
  {
  }

  predicate LockMatches(lock: Lock, t: Target) {
    lock.active && FilterMatches(t.classification, lock.classifications)
  }

  function HitsRule(t: Target): Rule -> bool {
    rule => Matches(rule, t)
  }

  function HitsLock(t: Target): Lock -> bool {
    lock => LockMatches(lock, t)
  }

  function FirstMatch(rules: seq<Rule>, t: Target): Option<Rule> {
    Find(rules, HitsRule(t))
  }

  function FirstLock(locks: seq<Lock>, t: Target): Option<Lock> {
    Find(locks, HitsLock(t))
  }

  method FindMatchingPricingRule(rules: seq<Rule>, t: Target) returns (r: Option<Rule>)
    ensures r == FirstMatch(rules, t)
    ensures r.Some? ==> exists i :: 0 <= i < |rules| && rules[i] == r.value && Matches(rules[i], t)
                                    && forall j :: 0 <= j < i ==> !Matches(rules[j], t)
    ensures r.None? ==> forall j :: 0 <= j < |rules| ==> !Matches(rules[j], t)
  {
    for i := 0 to |rules|
      invariant forall j :: 0 <= j < i ==> !Matches(rules[j], t)
      invariant FirstMatch(rules, t) == FirstMatch(rules[i..], t)
    {
      var rule := rules[i];
      assert rules[i..][1..] == rules[i + 1..];
      if !rule.active { continue; }
      if !FilterMatches(t.classification, rule.classifications) { continue; }
      var priceRangeMatches := RangeMatches(t.price, rule.priceMin, rule.priceMax);
      var marginRangeMatches := RangeMatches(t.margin, rule.marginMin, rule.marginMax);
      var hasPriceRange := HasRange(rule.priceMin, rule.priceMax);
      var hasMarginRange := HasRange(rule.marginMin, rule.marginMax);
      if hasPriceRange && hasMarginRange {
        if priceRangeMatches && marginRangeMatches { return Some(rule); }
      } else if hasPriceRange {
        if priceRangeMatches { return Some(rule); }
      } else if hasMarginRange {
        if marginRangeMatches { return Some(rule); }
      } else {
        return Some(rule);
      }
    }
    r := None;
  }

  method FindMatchingPriceLock(locks: seq<Lock>, t: Target) returns (r: Option<Lock>)
    ensures r == FirstLock(locks, t)
    ensures r.Some? ==> exists i :: 0 <= i < |locks| && locks[i] == r.value && LockMatches(locks[i], t)
                                    && forall j :: 0 <= j < i ==> !LockMatches(locks[j], t)
    ensures r.None? ==> forall j :: 0 <= j < |locks| ==> !LockMatches(locks[j], t)
  {
    for i := 0 to |locks|
      invariant forall j :: 0 <= j < i ==> !LockMatches(locks[j], t)
      invariant FirstLock(locks, t) == FirstLock(locks[i..], t)
    {
      assert locks[i..][1..] == locks[i + 1..];
      if !locks[i].active { continue; }
      if FilterMatches(t.classification, locks[i].classifications) { return Some(locks[i]); }
    }
    r := None;
  }

  // ----- the service's overlap test -----

  predicate RulesOverlap(a: Rule, b: Rule) {
    if !FiltersOverlap(a.classifications, b.classifications) then false
    else
      var aPrice := HasRange(a.priceMin, a.priceMax);
      var aMargin := HasRange(a.marginMin, a.marginMax);
      var bPrice := HasRange(b.priceMin, b.priceMax);
      var bMargin := HasRange(b.marginMin, b.marginMax);
      if !aPrice && !aMargin && !bPrice && !bMargin then true
      else if !aPrice && !aMargin then true
      else if !bPrice && !bMargin then true
      else
        var priceRangesOverlap := (aPrice || bPrice) && RangesOverlap(
          if aPrice then a.priceMin else Undefined, if aPrice then a.priceMax else Undefined,
          if bPrice then b.priceMin else Undefined, if bPrice then b.priceMax else Undefined);
        var marginRangesOverlap := (aMargin || bMargin) && RangesOverlap(
          if aMargin then a.marginMin else Undefined, if aMargin then a.marginMax else Undefined,
          if bMargin then b.marginMin else Undefined, if bMargin then b.marginMax else Undefined);
        if aPrice && aMargin && bPrice && bMargin then priceRangesOverlap && marginRangesOverlap
        else if aPrice && aMargin && bPrice && !bMargin then priceRangesOverlap
        else if aPrice && aMargin && bMargin && !bPrice then marginRangesOverlap
        else if bPrice && bMargin && aPrice && !aMargin then priceRangesOverlap
        else if bPrice && bMargin && aMargin && !aPrice then marginRangesOverlap
        else if aPrice && !aMargin && bPrice && !bMargin then priceRangesOverlap
        else if !aPrice && aMargin && !bPrice && bMargin then marginRangesOverlap
        else if (aPrice && !aMargin && !bPrice && bMargin) || (!aPrice && aMargin && bPrice && !bMargin) then true
        else false
  }

  // ----- exactness -----

  /** The rules' ranges share a value, with null read as zero as selection reads it. */
  predicate EndsCompatible(min: Bound, max: Bound) {
    !min.Undefined? && !max.Undefined? ==> Number(min) <= Number(max)
  }

  predicate RangesShare(minA: Bound, maxA: Bound, minB: Bound, maxB: Bound) {
    EndsCompatible(minA, maxA) && EndsCompatible(minA, maxB) && EndsCompatible(minB, maxA) && EndsCompatible(minB, maxB)
  }

  lemma RangesShareExactly(minA: Bound, maxA: Bound, minB: Bound, maxB: Bound)
    ensures RangesShare(minA, maxA, minB, maxB)
       <==> exists v :: RangeMatches(v, minA, maxA) && RangeMatches(v, minB, maxB)
  {
    if RangesShare(minA, maxA, minB, maxB) {
      var lo := if minA.Undefined? then minB
                else if minB.Undefined? || Number(minA) >= Number(minB) then minA else minB;
      var hi := if maxA.Undefined? then maxB
                else if maxB.Undefined? || Number(maxA) <= Number(maxB) then maxA else maxB;
      var v := if !lo.Undefined? then Number(lo) else if !hi.Undefined? then Number(hi) else 0.0;
      assert RangeMatches(v, minA, maxA) && RangeMatches(v, minB, maxB);
    }
  }

  predicate Normalized(rule: Rule) {
    FiltersNormalized(rule.classifications)
  }

  ghost predicate ShareProduct(a: Rule, b: Rule) {
    exists t: Target :: TwoLevels(t.classification) && Matches(a, t) && Matches(b, t)
  }

  /** When two active rules can hit one product: a test on filters and range ends alone. */
  lemma SharedProductExactly(a: Rule, b: Rule)
    requires Normalized(a) && Normalized(b) && a.active && b.active
    ensures ShareProduct(a, b) <==>
      && FiltersOverlap(a.classifications, b.classifications)
      && RangesShare(a.priceMin, a.priceMax, b.priceMin, b.priceMax)
      && RangesShare(a.marginMin, a.marginMax, b.marginMin, b.marginMax)
  {
    FiltersOverlapExactly(a.classifications, b.classifications);
    RangesShareExactly(a.priceMin, a.priceMax, b.priceMin, b.priceMax);
    RangesShareExactly(a.marginMin, a.marginMax, b.marginMin, b.marginMax);
    if ShareProduct(a, b) {
      var t: Target :| TwoLevels(t.classification) && Matches(a, t) && Matches(b, t);
      assert RangeMatches(t.price, a.priceMin, a.priceMax) && RangeMatches(t.price, b.priceMin, b.priceMax);
      assert RangeMatches(t.margin, a.marginMin, a.marginMax) && RangeMatches(t.margin, b.marginMin, b.marginMax);
    } else if FiltersOverlap(a.classifications, b.classifications)
              && RangesShare(a.priceMin, a.priceMax, b.priceMin, b.priceMax)
              && RangesShare(a.marginMin, a.marginMax, b.marginMin, b.marginMax) {
      var c :| TwoLevels(c) && FilterMatches(c, a.classifications) && FilterMatches(c, b.classifications);
      var p :| RangeMatches(p, a.priceMin, a.priceMax) && RangeMatches(p, b.priceMin, b.priceMax);
      var m :| RangeMatches(m, a.marginMin, a.marginMax) && RangeMatches(m, b.marginMin, b.marginMax);
      assert Matches(a, Target(c, p, m)) && Matches(b, Target(c, p, m));
    }
  }

  /** No two rules that hit one product pass the overlap test, whatever their range ends are. */
  lemma SharedProductIsDetected(a: Rule, b: Rule, t: Target)
    requires Matches(a, t) && Matches(b, t)
    ensures RulesOverlap(a, b)
  {
    SharedProductOverlaps(a.classifications, b.classifications, t.classification);
  }

  /** The DTO's promise: bounds are numbers or missing, and a range is not upside down. */
  predicate WellFormed(rule: Rule) {
    && !rule.priceMin.Null? && !rule.priceMax.Null? && !rule.marginMin.Null? && !rule.marginMax.Null?
    && EndsMeet(rule.priceMin, rule.priceMax) && EndsMeet(rule.marginMin, rule.marginMax)
  }

  /** On the rules the DTO promises, the overlap test is exactly "some product is hit by both". On any
      rules it misses no such pair, and an accused pair has no product in common exactly when a null or
      upside-down range leaves no value to share. */
  lemma OverlapTestExactly(a: Rule, b: Rule)
    requires Normalized(a) && Normalized(b) && a.active && b.active
    ensures WellFormed(a) && WellFormed(b) ==> (RulesOverlap(a, b) <==> ShareProduct(a, b))
    ensures ShareProduct(a, b) <==>
      && RulesOverlap(a, b)
      && RangesShare(a.priceMin, a.priceMax, b.priceMin, b.priceMax)
      && RangesShare(a.marginMin, a.marginMax, b.marginMin, b.marginMax)
  {
    SharedProductExactly(a, b);
    if ShareProduct(a, b) {
      var t: Target :| TwoLevels(t.classification) && Matches(a, t) && Matches(b, t);
      SharedProductIsDetected(a, b, t);
    }
  }

  function AnyPrice(min: Bound, max: Bound): Rule {
    Rule(None, min, max, Undefined, Undefined, Discount, 0.0, true)
  }

  /** A null maximum is unbounded to the overlap test and zero to the selection. */
  lemma NullBoundIsReadTwoWays()
    ensures RulesOverlap(AnyPrice(Undefined, Null), AnyPrice(Value(1.0), Undefined))
    ensures !ShareProduct(AnyPrice(Undefined, Null), AnyPrice(Value(1.0), Undefined))
  {
    SharedProductExactly(AnyPrice(Undefined, Null), AnyPrice(Value(1.0), Undefined));
  }

  /** What the DTO's range check lets through: it sits on the maximum, which it skips when that is missing or null. */
  predicate RangeAccepted(min: Bound, max: Bound) {
    max.Value? && !min.Undefined? ==> Number(min) <= max.v
  }

  /** A range that the DTO lets through hits nothing exactly when its minimum is positive and its maximum null; and it
      is still accused of overlapping a rule without ranges. */
  lemma UpsideDownRangeIsAccused(min: Bound, max: Bound)
    requires RangeAccepted(min, max)
    ensures (forall v :: !RangeMatches(v, min, max)) <==> min.Value? && min.v > 0.0 && max.Null?
    ensures RulesOverlap(AnyPrice(min, max), AnyPrice(Undefined, Undefined))
  {
    assert RangeMatches(Number(min), min, max) || (min.Value? && min.v > 0.0 && max.Null?)
           || (min.Undefined? && RangeMatches(Number(max), min, max));
  }

  // ----- the validators -----

  function IsActive(): Rule -> bool {
    (rule: Rule) => rule.active
  }

  function IsActiveLock(): Lock -> bool {
    (lock: Lock) => lock.active
  }

  function Clash(): (Rule, Rule) -> bool {
    (a, b) => RulesOverlap(a, b)
  }

  function LockClash(): (Lock, Lock) -> bool {
    (a: Lock, b: Lock) => FiltersOverlap(a.classifications, b.classifications)
  }

  ghost predicate RulesApart(rules: seq<Rule>) {
    Apart(rules, IsActive(), Clash())
  }

  ghost predicate LocksApart(locks: seq<Lock>) {
    Apart(locks, IsActiveLock(), LockClash())
  }

  lemma RulesApartExactly(rules: seq<Rule>)
    ensures RulesApart(rules) <==> forall i, j :: 0 <= i < j < |rules| && rules[i].active && rules[j].active ==>
                                     !RulesOverlap(rules[i], rules[j])
  {
    assert forall r: Rule :: IsActive()(r) <==> r.active;
    assert forall a: Rule, b: Rule :: Clash()(a, b) <==> RulesOverlap(a, b);
  }

  lemma LocksApartExactly(locks: seq<Lock>)
    ensures LocksApart(locks) <==> forall i, j :: 0 <= i < j < |locks| && locks[i].active && locks[j].active ==>
                                     !FiltersOverlap(locks[i].classifications, locks[j].classifications)
  {
    assert forall l: Lock :: IsActiveLock()(l) <==> l.active;
    assert forall a: Lock, b: Lock :: LockClash()(a, b) <==> FiltersOverlap(a.classifications, b.classifications);
  }

  /** Accepts exactly the lists whose active rules are pairwise disjoint; the error names the first
      overlapping pair of active rules, counted from one. */
  method ValidateNonOverlappingPricingRules(rules: seq<Rule>) returns (error: Option<(nat, nat)>)
    ensures error.None? <==> RulesApart(rules)
    ensures error.None? <==> forall i, j :: 0 <= i < j < |rules| && rules[i].active && rules[j].active ==>
                               !RulesOverlap(rules[i], rules[j])
    ensures error.Some? ==>
      && error.value.0 > 0 && error.value.1 > 0
      && FirstClash(Filter(rules, IsActive()), Clash(), error.value.0 - 1, error.value.1 - 1)
  {
    error := Validate(rules, IsActive(), Clash());
    RulesApartExactly(rules);
  }

  datatype LockError = AllClassificationsNotAlone | LocksOverlap(first: nat, second: nat)

  /** The separate all-classifications check refuses nothing that the pairwise check would accept. */
  method ValidateNonOverlappingPriceLocks(locks: seq<Lock>) returns (error: Option<LockError>)
    ensures error.None? <==> LocksApart(locks)
    ensures error.None? <==> forall i, j :: 0 <= i < j < |locks| && locks[i].active && locks[j].active ==>
                               !FiltersOverlap(locks[i].classifications, locks[j].classifications)
    ensures error == Some(AllClassificationsNotAlone) ==>
      exists lock <- locks :: lock.active && AppliesToAll(lock.classifications)
    ensures error.Some? && error.value.LocksOverlap? ==>
      && error.value.first > 0 && error.value.second > 0
      && FirstClash(Filter(locks, IsActiveLock()), LockClash(), error.value.first - 1, error.value.second - 1)
  {
    var active := Filter(locks, IsActiveLock());
    FilterMembers(locks, IsActiveLock());
    LocksApartExactly(locks);
    if |active| == 0 {
      FilterKeepsPairs(locks, IsActiveLock(), LockClash());
      return None;
    }
    if |active| > 1 && exists lock <- active :: AppliesToAll(lock.classifications) {
      AllLockClashes(locks);
      return Some(AllClassificationsNotAlone);
    }
    var clash := Validate(locks, IsActiveLock(), LockClash());
    error := match clash case None => None case Some(pair) => Some(LocksOverlap(pair.0, pair.1));
  }

  lemma AllLockClashes(locks: seq<Lock>)
    requires |Filter(locks, IsActiveLock())| > 1
    requires exists lock <- Filter(locks, IsActiveLock()) :: AppliesToAll(lock.classifications)
    ensures !LocksApart(locks)
  {
    var active := Filter(locks, IsActiveLock());
    FilterMembers(locks, IsActiveLock());
    FilterKeepsPairs(locks, IsActiveLock(), LockClash());
    var lock :| lock in active && AppliesToAll(lock.classifications);
    var i :| 0 <= i < |active| && active[i] == lock;
    var j := if i == 0 then 1 else i;
    assert active[0] in active && active[j] in active;
    assert IsActiveLock()(active[0]) && IsActiveLock()(active[j]) && LockClash()(active[0], active[j]);
  }

  // ----- order independence -----

  /** A validated configuration selects the same rule and the same lock for every product, in whatever order
      its lists are kept. */
  lemma ValidatedSelectionIgnoresOrder(rules: seq<Rule>, rules': seq<Rule>, locks: seq<Lock>, locks': seq<Lock>,
                                       t: Target)
    requires RulesApart(rules) && multiset(rules) == multiset(rules')
    requires LocksApart(locks) && multiset(locks) == multiset(locks')
    ensures FirstMatch(rules, t) == FirstMatch(rules', t)
    ensures FirstLock(locks, t) == FirstLock(locks', t)
  {
    ApartHitOnce(rules, t);
    FindIgnoresOrder(rules, rules', HitsRule(t));
    ApartLocksHitOnce(locks, t);
    FindIgnoresOrder(locks, locks', HitsLock(t));
  }

  /** At most one rule of a validated list hits a product. */
  lemma ApartHitOnce(rules: seq<Rule>, t: Target)
    requires RulesApart(rules)
    ensures AtMostOne(rules, HitsRule(t))
  {
    forall i, j | 0 <= i < j < |rules|
      ensures !(HitsRule(t)(rules[i]) && HitsRule(t)(rules[j]))
    {
      assert IsActive()(rules[i]) && IsActive()(rules[j]) ==> !Clash()(rules[i], rules[j]);
      if Matches(rules[i], t) && Matches(rules[j], t) {
        SharedProductIsDetected(rules[i], rules[j], t);
      }
    }
  }

  lemma ApartLocksHitOnce(locks: seq<Lock>, t: Target)
    requires LocksApart(locks)
    ensures AtMostOne(locks, HitsLock(t))
  {
    forall i, j | 0 <= i < j < |locks|
      ensures !(HitsLock(t)(locks[i]) && HitsLock(t)(locks[j]))
    {
      assert IsActiveLock()(locks[i]) && IsActiveLock()(locks[j]) ==> !LockClash()(locks[i], locks[j]);
      if LockMatches(locks[i], t) && LockMatches(locks[j], t) {
        SharedProductOverlaps(locks[i].classifications, locks[j].classifications, t.classification);
      }
    }
  }

  // ----- the create use case's own overlap test -----

  predicate CreateRulesOverlap(a: Rule, b: Rule) {
    if !FiltersOverlap(a.classifications, b.classifications) then false
    else
      var aPrice := HasRange(a.priceMin, a.priceMax);
      var aMargin := HasRange(a.marginMin, a.marginMax);
      var bPrice := HasRange(b.priceMin, b.priceMax);
      var bMargin := HasRange(b.marginMin, b.marginMax);
      if !aPrice && !aMargin && !bPrice && !bMargin then true
      else if !aPrice && !aMargin then true
      else if !bPrice && !bMargin then true
      else
        var priceRangesOverlap := aPrice && bPrice && RangesOverlap(a.priceMin, a.priceMax, b.priceMin, b.priceMax);
        var marginRangesOverlap :=
            aMargin && bMargin && RangesOverlap(a.marginMin, a.marginMax, b.marginMin, b.marginMax);
        if (aPrice && !aMargin && !bPrice && bMargin) || (!aPrice && aMargin && bPrice && !bMargin) then true
        else priceRangesOverlap || marginRangesOverlap
  }

  /** Creation refuses every pair that preview refuses; it refuses more exactly when both rules carry both
      ranges, their filters overlap and exactly one of the two pairs of ranges does. */
  lemma CreateIsCoarser(a: Rule, b: Rule)
    ensures RulesOverlap(a, b) ==> CreateRulesOverlap(a, b)
    ensures CreateRulesOverlap(a, b) && !RulesOverlap(a, b) <==>
      && FiltersOverlap(a.classifications, b.classifications)
      && HasRange(a.priceMin, a.priceMax) && HasRange(a.marginMin, a.marginMax)
      && HasRange(b.priceMin, b.priceMax) && HasRange(b.marginMin, b.marginMax)
      && RangesOverlap(a.priceMin, a.priceMax, b.priceMin, b.priceMax)
         != RangesOverlap(a.marginMin, a.marginMax, b.marginMin, b.marginMax)
  {
  }

  function CreateClash(): (Rule, Rule) -> bool {
    (a, b) => CreateRulesOverlap(a, b)
  }

  lemma CreatedApartExactly(rules: seq<Rule>)
    ensures Apart(rules, IsActive(), CreateClash())
       <==> forall i, j :: 0 <= i < j < |rules| && rules[i].active && rules[j].active ==>
              !CreateRulesOverlap(rules[i], rules[j])
  {
    assert forall r: Rule :: IsActive()(r) <==> r.active;
    assert forall a: Rule, b: Rule :: CreateClash()(a, b) <==> CreateRulesOverlap(a, b);
  }

  method ValidateRulesAtCreation(rules: seq<Rule>) returns (error: Option<(nat, nat)>)
    ensures error.None? <==> Apart(rules, IsActive(), CreateClash())
    ensures error.None? <==> forall i, j :: 0 <= i < j < |rules| && rules[i].active && rules[j].active ==>
                               !CreateRulesOverlap(rules[i], rules[j])
    ensures error.Some? ==>
      && error.value.0 > 0 && error.value.1 > 0
      && FirstClash(Filter(rules, IsActive()), CreateClash(), error.value.0 - 1, error.value.1 - 1)
  {
    error := Validate(rules, IsActive(), CreateClash());
    CreatedApartExactly(rules);
  }

  /** A list accepted at creation is accepted at preview and hits every product at most once. */
  lemma CreatedListsPreview(rules: seq<Rule>, t: Target)
    requires Apart(rules, IsActive(), CreateClash())
    ensures RulesApart(rules)
    ensures AtMostOne(rules, HitsRule(t))
  {
    forall i, j | 0 <= i < j < |rules| && IsActive()(rules[i]) && IsActive()(rules[j])
      ensures !Clash()(rules[i], rules[j])
    {
      CreateIsCoarser(rules[i], rules[j]);
      assert !CreateClash()(rules[i], rules[j]);
    }
    ApartHitOnce(rules, t);
  }
}
