/** First-match search and pairwise validation of a list, the two loops that every validator and every
    rule lookup of the pricing code repeats. */
module Lists {
  import opened Options

  /** Array.prototype.find. */
  function Find<T>(s: seq<T>, p: T -> bool): Option<T> {
    if s == [] then None else if p(s[0]) then Some(s[0]) else Find(s[1..], p)
  }

  lemma {:induction false} FindIsFirst<T>(s: seq<T>, p: T -> bool)
    ensures Find(s, p).None? <==> forall i :: 0 <= i < |s| ==> !p(s[i])
    ensures Find(s, p).Some? ==>
      exists i :: 0 <= i < |s| && p(s[i]) && Find(s, p).value == s[i] && forall j :: 0 <= j < i ==> !p(s[j])
  {
    if s != [] && !p(s[0]) {
      FindIsFirst(s[1..], p);
      if k :| 0 <= k < |s[1..]| && p(s[1..][k]) && Find(s[1..], p).value == s[1..][k]
              && forall j :: 0 <= j < k ==> !p(s[1..][j]) {
        assert p(s[k + 1]) && forall j :: 0 <= j < k + 1 ==> j == 0 || s[j] == s[1..][j - 1];
      }
      assert forall i :: 1 <= i < |s| ==> s[i] == s[1..][i - 1];
    }
  }

  /** At most one position of the list satisfies p. */
  ghost predicate AtMostOne<T(!new)>(s: seq<T>, p: T -> bool) {
    forall i, j :: 0 <= i < j < |s| ==> !(p(s[i]) && p(s[j]))
  }

  /** With at most one candidate, the first match does not depend on the order of the list. */
  lemma FindIgnoresOrder<T(!new)>(s: seq<T>, t: seq<T>, p: T -> bool)
    requires multiset(s) == multiset(t) && AtMostOne(s, p)
    ensures Find(s, p) == Find(t, p)
  {
    FindIsFirst(s, p);
    FindIsFirst(t, p);
    assert forall x :: x in s <==> x in multiset(s);
    assert forall x :: x in t <==> x in multiset(t);
    if Find(s, p).Some? {
      assert Find(s, p).value in t;
    }
    if Find(t, p).Some? {
      var y := Find(t, p).value;
      assert y in s;
      var j :| 0 <= j < |s| && s[j] == y;
      var i :| 0 <= i < |s| && p(s[i]) && Find(s, p).value == s[i];
    }
  }

  function Filter<T>(s: seq<T>, p: T -> bool): seq<T> {
    if s == [] then [] else (if p(s[0]) then [s[0]] else []) + Filter(s[1..], p)
  }

  /** No two distinct positions that both satisfy p clash. */
  ghost predicate Apart<T(!new)>(s: seq<T>, p: T -> bool, clash: (T, T) -> bool) {
    forall i, j :: 0 <= i < j < |s| && p(s[i]) && p(s[j]) ==> !clash(s[i], s[j])
  }

  ghost predicate ClearOf<T(!new)>(x: T, s: seq<T>, p: T -> bool, clash: (T, T) -> bool) {
    forall y :: y in s && p(y) ==> !clash(x, y)
  }

  lemma ApartUnfolds<T(!new)>(x: T, s: seq<T>, p: T -> bool, clash: (T, T) -> bool)
    ensures Apart([x] + s, p, clash) <==> Apart(s, p, clash) && (p(x) ==> ClearOf(x, s, p, clash))
  {
    var all := [x] + s;
    assert forall i :: 0 <= i < |s| ==> all[i + 1] == s[i];
    if Apart(all, p, clash) {
      forall y | p(x) && y in s && p(y) ensures !clash(x, y) {
        var i :| 0 <= i < |s| && s[i] == y;
        assert all[0] == x && all[i + 1] == y;
      }
    }
    if Apart(s, p, clash) && (p(x) ==> ClearOf(x, s, p, clash)) {
      forall i, j | 0 <= i < j < |all| && p(all[i]) && p(all[j]) ensures !clash(all[i], all[j]) {
        assert all[j] == s[j - 1] && s[j - 1] in s;
        if i > 0 {
          assert all[i] == s[i - 1];
        }
      }
    }
  }

  lemma {:induction false} FilterMembers<T>(s: seq<T>, p: T -> bool)
    ensures forall x :: x in Filter(s, p) <==> x in s && p(x)
  {
    if s != [] {
      FilterMembers(s[1..], p);
    }
  }

  /** Dropping the elements that do not satisfy p keeps exactly the pairs that matter. */
  lemma {:induction false} FilterKeepsPairs<T(!new)>(s: seq<T>, p: T -> bool, clash: (T, T) -> bool)
    ensures Apart(Filter(s, p), p, clash) <==> Apart(s, p, clash)
  {
    if s != [] {
      var rest := s[1..];
      FilterKeepsPairs(rest, p, clash);
      FilterMembers(rest, p);
      assert s == [s[0]] + rest;
      ApartUnfolds(s[0], rest, p, clash);
      if p(s[0]) {
        assert Filter(s, p) == [s[0]] + Filter(rest, p);
        ApartUnfolds(s[0], Filter(rest, p), p, clash);
        assert ClearOf(s[0], Filter(rest, p), p, clash) <==> ClearOf(s[0], rest, p, clash);
      } else {
        assert Filter(s, p) == Filter(rest, p);
      }
    }
  }

  ghost predicate FirstClash<T>(s: seq<T>, clash: (T, T) -> bool, i: nat, j: nat) {
    && i < j < |s|
    && clash(s[i], s[j])
    && forall x, y :: 0 <= x < y < |s| && (x < i || (x == i && y < j)) ==> !clash(s[x], s[y])
  }

  /** The nested loop of every validator: the first clashing pair in the order (0,1), (0,2), .., (1,2), .. */
  method FindClash<T>(s: seq<T>, clash: (T, T) -> bool) returns (r: Option<(nat, nat)>)
    ensures r.None? <==> forall i, j :: 0 <= i < j < |s| ==> !clash(s[i], s[j])
    ensures r.Some? ==> FirstClash(s, clash, r.value.0, r.value.1)
  {
    for i := 0 to |s|
      invariant forall x, y :: 0 <= x < i && x < y < |s| ==> !clash(s[x], s[y])
    {
      for j := i + 1 to |s|
        invariant forall y :: i < y < j ==> !clash(s[i], s[y])
      {
        if clash(s[i], s[j]) {
          return Some((i, j));
        }
      }
    }
    r := None;
  }

  lemma ApartMeansNoClash<T(!new)>(s: seq<T>, p: T -> bool, clash: (T, T) -> bool)
    requires forall x :: x in s ==> p(x)
    ensures Apart(s, p, clash) <==> forall i, j :: 0 <= i < j < |s| ==> !clash(s[i], s[j])
  {
    assert forall i :: 0 <= i < |s| ==> s[i] in s;
  }

  /** A validator: filters, then looks for the first clashing pair, counted from one. */
  method Validate<T(!new)>(s: seq<T>, p: T -> bool, clash: (T, T) -> bool) returns (error: Option<(nat, nat)>)
    ensures error.None? <==> Apart(s, p, clash)
    ensures error.Some? ==>
      && error.value.0 > 0 && error.value.1 > 0
      && FirstClash(Filter(s, p), clash, error.value.0 - 1, error.value.1 - 1)
  {
    var kept := Filter(s, p);
    FilterKeepsPairs(s, p, clash);
    FilterMembers(s, p);
    ApartMeansNoClash(kept, p, clash);
    var r := FindClash(kept, clash);
    error := match r case None => None case Some(pair) => Some((pair.0 + 1, pair.1 + 1));
  }
}
