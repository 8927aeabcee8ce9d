/** Product classifications are strings of levels joined by " > "; rules and products are compared after
    truncation to two levels, by prefix. */
module Classification {
  import opened Options

  const SEPARATOR: string := " > "

  predicate SeparatorAt(s: string, i: nat) {
    i + |SEPARATOR| <= |s| && s[i..i + |SEPARATOR|] == SEPARATOR
  }

  /** The leftmost separator at or after position i. */
  function NextSeparator(s: string, i: nat): (r: Option<nat>)
    requires i <= |s|
    ensures r.Some? ==>
              i <= r.value && SeparatorAt(s, r.value) && forall j: nat :: i <= j < r.value ==> !SeparatorAt(s, j)
    ensures r.None? ==> forall j: nat :: i <= j ==> !SeparatorAt(s, j)
    decreases |s| - i
  {
    if SeparatorAt(s, i) then Some(i)
    else if i == |s| then None
    else NextSeparator(s, i + 1)
  }

  function Split(s: string): (parts: seq<string>)
    ensures parts != []
  {
    match NextSeparator(s, 0)
    case None => [s]
    case Some(i) => [s[..i]] + Split(s[i + |SEPARATOR|..])
  }

  function Normalize(s: string): string {
    if s == "" then s
    else
      var parts := Split(s);
      if |parts| <= 2 then s else parts[0] + SEPARATOR + parts[1]
  }

  function Joined(parts: seq<string>): string
    requires parts != []
  {
    if |parts| == 1 then parts[0] else parts[0] + SEPARATOR + Joined(parts[1..])
  }

  /** Splitting loses nothing and leaves no separator in a level. */
  lemma {:induction false} SplitExactly(s: string)
    ensures Joined(Split(s)) == s
    ensures forall part <- Split(s) :: forall j: nat :: !SeparatorAt(part, j)
    decreases |s|
  {
    var i := NextSeparator(s, 0);
    if i.Some? {
      var rest := s[i.value + |SEPARATOR|..];
      SplitExactly(rest);
      assert Split(s)[1..] == Split(rest);
      assert s[..i.value] + SEPARATOR + rest == s;
      NoSeparatorBefore(s, i.value);
    }
  }

  /** A name is cut to its first two levels. */
  lemma NormalizeExactly(s: string)
    ensures Normalize(s) == Joined(if |Split(s)| <= 2 then Split(s) else Split(s)[..2])
  {
    SplitExactly(s);
    if |Split(s)| > 2 {
      assert Split(s)[..2][1..] == [Split(s)[1]];
    }
  }

  predicate TwoLevels(s: string) {
    Normalize(s) == s
  }

  /** Truncation keeps a prefix of the name and is final: nothing is cut a second time. */
  lemma NormalizeTruncatesOnce(s: string)
    ensures Normalize(s) <= s
    ensures |Split(Normalize(s))| <= 2
    ensures TwoLevels(Normalize(s))
  {
    if |Split(s)| > 2 {
      var i, k := NormalizeCuts(s);
      var n := Normalize(s);
      var rest := s[i + |SEPARATOR|..];
      FirstSeparatorOfPrefix(s, i, n);
      assert n[i + |SEPARATOR|..] == rest[..k];
      NoSeparatorBefore(rest, k);
      assert Split(rest[..k]) == [rest[..k]];
      assert Split(n) == [n[..i]] + Split(rest[..k]);
    }
  }

  /** A deeper name is cut at its second separator. */
  lemma NormalizeCuts(s: string) returns (i: nat, k: nat)
    requires |Split(s)| > 2
    ensures NextSeparator(s, 0) == Some(i)
    ensures NextSeparator(s[i + |SEPARATOR|..], 0) == Some(k)
    ensures Normalize(s) == s[..i + |SEPARATOR| + k]
  {
    i := NextSeparator(s, 0).value;
    var rest := s[i + |SEPARATOR|..];
    SplitAtSeparator(s, i);
    k := NextSeparator(rest, 0).value;
    SplitAtSeparator(rest, k);
    var parts := Split(s);
    assert parts[0] == s[..i] && parts[1] == Split(rest)[0] == rest[..k];
    assert s[i..i + |SEPARATOR|] == SEPARATOR;
    assert s[..i] + SEPARATOR + rest[..k] == s[..i + |SEPARATOR| + k];
  }

  lemma SplitAtSeparator(s: string, i: nat)
    requires NextSeparator(s, 0) == Some(i)
    ensures Split(s) == [s[..i]] + Split(s[i + |SEPARATOR|..])
  {
  }

  lemma SeparatorOfPrefix(p: string, s: string, j: nat)
    requires p <= s
    ensures SeparatorAt(p, j) ==> SeparatorAt(s, j)
  {
    if SeparatorAt(p, j) {
      assert s[j..j + |SEPARATOR|] == p[j..j + |SEPARATOR|];
    }
  }

  lemma FirstSeparatorOfPrefix(s: string, i: nat, p: string)
    requires NextSeparator(s, 0) == Some(i) && p <= s && i + |SEPARATOR| <= |p|
    ensures NextSeparator(p, 0) == Some(i)
  {
    assert p[i..i + |SEPARATOR|] == s[i..i + |SEPARATOR|];
    assert SeparatorAt(p, i);
    forall j: nat | j < i ensures !SeparatorAt(p, j) {
      SeparatorOfPrefix(p, s, j);
    }
  }

  lemma NoSeparatorBefore(s: string, k: nat)
    requires NextSeparator(s, 0) == Some(k)
    ensures NextSeparator(s[..k], 0) == None
  {
    forall j: nat ensures !SeparatorAt(s[..k], j) {
      SeparatorOfPrefix(s[..k], s, j);
    }
  }

  // ----- classification filters -----

  /** A rule's filter list; a missing or empty list applies to every product. */
  type Filters = Option<seq<string>>

  predicate AppliesToAll(filters: Filters) {
    filters.None? || filters.value == []
  }

  /** `startsWith` of some filter; a prefix test is Dafny's `<=` on strings. */
  predicate FilterMatches(classification: string, filters: Filters) {
    AppliesToAll(filters) || exists f <- filters.value :: f <= classification
  }

  predicate FiltersOverlap(a: Filters, b: Filters) {
    || AppliesToAll(a)
    || AppliesToAll(b)
    || exists f <- a.value, g <- b.value :: g <= f || f <= g || f == g
  }

  predicate FiltersNormalized(filters: Filters) {
    filters.Some? ==> forall f <- filters.value :: TwoLevels(f)
  }

  /** Order-preserving duplicate removal, as spreading a Set does. */
  function Dedup(s: seq<string>): (r: seq<string>)
    ensures forall x :: x in r <==> x in s
    ensures forall i, j :: 0 <= i < j < |r| ==> r[i] != r[j]
  {
    if s == [] then []
    else
      var last := s[|s| - 1];
      assert s == s[..|s| - 1] + [last];
      if last in s[..|s| - 1] then Dedup(s[..|s| - 1]) else Dedup(s[..|s| - 1]) + [last]
  }

  function NormalizeFilters(filters: Filters): Filters {
    if AppliesToAll(filters) then None
    else Some(Dedup(seq(|filters.value|, i requires 0 <= i < |filters.value| => Normalize(filters.value[i]))))
  }

  /** A list that applies to everything becomes none; any other becomes the truncations of its names, each once. */
  lemma NormalizeFiltersExactly(filters: Filters)
    ensures NormalizeFilters(filters).None? <==> filters.None? || filters.value == []
    ensures NormalizeFilters(filters).Some? ==>
      && (forall x :: x in NormalizeFilters(filters).value <==> exists f <- filters.value :: Normalize(f) == x)
      && (forall i, j :: 0 <= i < j < |NormalizeFilters(filters).value| ==>
            NormalizeFilters(filters).value[i] != NormalizeFilters(filters).value[j])
  {
    if NormalizeFilters(filters).Some? {
      var fs := filters.value;
      var mapped := seq(|fs|, i requires 0 <= i < |fs| => Normalize(fs[i]));
      forall x ensures x in mapped <==> exists f <- fs :: Normalize(f) == x {
        if f :| f in fs && Normalize(f) == x {
          var i :| 0 <= i < |fs| && fs[i] == f;
          assert mapped[i] == x;
        }
      }
    }
  }

  /** Normalised filters are two-level, and match every two-level name that the raw filters matched. */
  lemma NormalizedFiltersMatchMore(filters: Filters, classification: string)
    ensures FiltersNormalized(NormalizeFilters(filters))
    ensures FilterMatches(classification, filters) ==> FilterMatches(classification, NormalizeFilters(filters))
  {
    if !AppliesToAll(filters) {
      var fs := filters.value;
      var mapped := seq(|fs|, i requires 0 <= i < |fs| => Normalize(fs[i]));
      forall f | f in Dedup(mapped) ensures TwoLevels(f) {
        var i :| 0 <= i < |mapped| && mapped[i] == f;
        NormalizeTruncatesOnce(fs[i]);
      }
      if f :| f in fs && f <= classification {
        var i :| 0 <= i < |fs| && fs[i] == f;
        NormalizeTruncatesOnce(f);
        assert mapped[i] in mapped && mapped[i] <= classification;
      }
    }
  }

  /** Two prefixes of one string are comparable, so filters that share a product overlap; and filters that
      overlap share a two-level product, the longer of the two comparable ones. */
  lemma FiltersOverlapExactly(a: Filters, b: Filters)
    requires FiltersNormalized(a) && FiltersNormalized(b)
    ensures FiltersOverlap(a, b) <==> exists c :: TwoLevels(c) && FilterMatches(c, a) && FilterMatches(c, b)
  {
    if c :| TwoLevels(c) && FilterMatches(c, a) && FilterMatches(c, b) {
      SharedProductOverlaps(a, b, c);
    }
    if FiltersOverlap(a, b) {
      var c := SharedProduct(a, b);
    }
  }

  lemma SharedProductOverlaps(a: Filters, b: Filters, c: string)
    requires FilterMatches(c, a) && FilterMatches(c, b)
    ensures FiltersOverlap(a, b)
  {
    if !AppliesToAll(a) && !AppliesToAll(b) {
      var f :| f in a.value && f <= c;
      var g :| g in b.value && g <= c;
      assert f == c[..|f|] && g == c[..|g|];
      assert if |f| <= |g| then f <= g else g <= f;
    }
  }

  lemma SharedProduct(a: Filters, b: Filters) returns (c: string)
    requires FiltersNormalized(a) && FiltersNormalized(b) && FiltersOverlap(a, b)
    ensures TwoLevels(c) && FilterMatches(c, a) && FilterMatches(c, b)
  {
    if AppliesToAll(a) {
      c := if AppliesToAll(b) then "" else b.value[0];
    } else if AppliesToAll(b) {
      c := a.value[0];
    } else {
      var f, g :| f in a.value && g in b.value && (g <= f || f <= g || f == g);
      c := if g <= f then f else g;
    }
  }
}
