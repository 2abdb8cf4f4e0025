/** The array operations the admin pages are built from: `filter` with a
    predicate, `map` that replaces the entries an id selects, and the
    order-preserving subsequence relation that describes what `filter`
    returns. */
module ListOps {

  /** `s.filter(p)`. */
  function Filter<T>(s: seq<T>, p: T -> bool): (r: seq<T>)
    ensures |r| <= |s|
    ensures forall k :: 0 <= k < |r| ==> p(r[k])
    ensures multiset(r) <= multiset(s)
  {
    if s == [] then []
    else if p(s[0]) then
      assert s == [s[0]] + s[1..];
      [s[0]] + Filter(s[1..], p)
    else
      assert s == [s[0]] + s[1..];
      Filter(s[1..], p)
  }

  /** `r` is `s` with some entries dropped and the rest in their order. */
  predicate SubsequenceOf<T(==)>(r: seq<T>, s: seq<T>)
    decreases |s|
  {
    r == [] || (s != [] && ((r[0] == s[0] && SubsequenceOf(r[1..], s[1..])) || SubsequenceOf(r, s[1..])))
  }

  /** Every list is an order-preserving subsequence of itself. */
  lemma {:induction false} SubsequenceOfSelf<T>(s: seq<T>)
    ensures SubsequenceOf(s, s)
  {
    if s != [] {
      SubsequenceOfSelf(s[1..]);
    }
  }

  /** What `filter` keeps: exactly the entries satisfying `p`, in order. */
  lemma {:induction false} FilterKeepsOrder<T>(s: seq<T>, p: T -> bool)
    ensures SubsequenceOf(Filter(s, p), s)
  {
    if s != [] {
      FilterKeepsOrder(s[1..], p);
      if p(s[0]) {
        assert Filter(s, p)[1..] == Filter(s[1..], p);
      }
    }
  }

  /** No entry satisfying `p` is lost. */
  lemma {:induction false} FilterComplete<T>(s: seq<T>, p: T -> bool)
    ensures forall k :: 0 <= k < |s| && p(s[k]) ==> s[k] in Filter(s, p)
  {
    if s != [] {
      FilterComplete(s[1..], p);
      forall k | 0 <= k < |s| && p(s[k]) ensures s[k] in Filter(s, p) {
        if k > 0 {
          assert s[k] == s[1..][k - 1];
        }
      }
    }
  }

  /** An entry is in the result exactly when it is in `s` and satisfies `p`. */
  lemma FilterMembership<T>(s: seq<T>, p: T -> bool, x: T)
    ensures x in Filter(s, p) <==> x in s && p(x)
  {
    FilterComplete(s, p);
    if x in Filter(s, p) {
      var k :| 0 <= k < |Filter(s, p)| && Filter(s, p)[k] == x;
      assert x in multiset(Filter(s, p));
    }
  }

  /** A predicate every entry satisfies filters nothing out. */
  lemma {:induction false} FilterAll<T>(s: seq<T>, p: T -> bool)
    requires forall k :: 0 <= k < |s| ==> p(s[k])
    ensures Filter(s, p) == s
  {
    if s != [] {
      FilterAll(s[1..], p);
      assert s == [s[0]] + s[1..];
    }
  }

  /** The conjunction of two conditions. */
  function Both<T>(p: T -> bool, q: T -> bool): T -> bool {
    x => p(x) && q(x)
  }

  /** Two filters in a row are one filter with both conditions. */
  lemma {:induction false} FilterTwice<T>(s: seq<T>, p: T -> bool, q: T -> bool)
    ensures Filter(Filter(s, p), q) == Filter(s, Both(p, q))
  {
    if s != [] {
      FilterTwice(s[1..], p, q);
    }
  }

  /** Filters that agree on every entry give the same result. */
  lemma {:induction false} FilterExtensional<T>(s: seq<T>, p: T -> bool, q: T -> bool)
    requires forall k :: 0 <= k < |s| ==> (p(s[k]) <==> q(s[k]))
    ensures Filter(s, p) == Filter(s, q)
  {
    if s != [] {
      FilterExtensional(s[1..], p, q);
    }
  }

  /** A condition applied only when `on` holds. */
  function When<T>(on: bool, p: T -> bool): T -> bool {
    x => !on || p(x)
  }

  /** The filter effect of the admin list pages: a search stage, applied when
      `searching`, then a status stage, applied when `narrowing`. */
  function Staged<T>(s: seq<T>, searching: bool, search: T -> bool, narrowing: bool, status: T -> bool): seq<T> {
    var searched := if searching then Filter(s, search) else s;
    if narrowing then Filter(searched, status) else searched
  }

  /** The two stages are one filter by both gated conditions. */
  lemma StagedIsOneFilter<T>(s: seq<T>, searching: bool, search: T -> bool, narrowing: bool, status: T -> bool)
    ensures Staged(s, searching, search, narrowing, status) == Filter(s, Both(When(searching, search), When(narrowing, status)))
  {
    var shown := Both(When(searching, search), When(narrowing, status));
    if searching && narrowing {
      FilterTwice(s, search, status);
      FilterExtensional(s, Both(search, status), shown);
    } else if searching {
      FilterExtensional(s, search, shown);
    } else if narrowing {
      FilterExtensional(s, status, shown);
    } else {
      FilterAll(s, shown);
    }
  }

  /** An entry is shown exactly when it is in `s` and passes every stage in
      force; the entries keep their order. */
  lemma StagedOutcomes<T>(s: seq<T>, searching: bool, search: T -> bool, narrowing: bool, status: T -> bool, x: T)
    ensures x in Staged(s, searching, search, narrowing, status) <==>
      x in s && (searching ==> search(x)) && (narrowing ==> status(x))
    ensures SubsequenceOf(Staged(s, searching, search, narrowing, status), s)
    ensures !searching && !narrowing ==> Staged(s, searching, search, narrowing, status) == s
  {
    StagedMembership(s, searching, search, narrowing, status, x);
    StagedKeepsOrder(s, searching, search, narrowing, status);
  }

  lemma StagedMembership<T>(s: seq<T>, searching: bool, search: T -> bool, narrowing: bool, status: T -> bool, x: T)
    ensures x in Staged(s, searching, search, narrowing, status) <==>
      x in s && (searching ==> search(x)) && (narrowing ==> status(x))
  {
    var shown := Both(When(searching, search), When(narrowing, status));
    StagedIsOneFilter(s, searching, search, narrowing, status);
    FilterMembership(s, shown, x);
    assert shown(x) == ((searching ==> search(x)) && (narrowing ==> status(x)));
  }

  lemma StagedKeepsOrder<T>(s: seq<T>, searching: bool, search: T -> bool, narrowing: bool, status: T -> bool)
    ensures SubsequenceOf(Staged(s, searching, search, narrowing, status), s)
  {
    StagedIsOneFilter(s, searching, search, narrowing, status);
    FilterKeepsOrder(s, Both(When(searching, search), When(narrowing, status)));
  }

  /** `s.map(x => matches(x) ? change(x) : x)`. */
  function MapWhere<T>(s: seq<T>, matches: T -> bool, change: T -> T): (r: seq<T>)
    ensures |r| == |s|
    ensures forall k :: 0 <= k < |s| && matches(s[k]) ==> r[k] == change(s[k])
    ensures forall k :: 0 <= k < |s| && !matches(s[k]) ==> r[k] == s[k]
  {
    if s == [] then []
    else [if matches(s[0]) then change(s[0]) else s[0]] + MapWhere(s[1..], matches, change)
  }

  /** When neither the selection nor the change alters what `p` decides,
      updating the full list and filtering it again gives the same list as
      updating the filtered one. */
  lemma {:induction false} MapWhereCommutesWithFilter<T>(s: seq<T>, p: T -> bool, matches: T -> bool, change: T -> T)
    requires forall k :: 0 <= k < |s| ==> (p(change(s[k])) <==> p(s[k]))
    ensures Filter(MapWhere(s, matches, change), p) == MapWhere(Filter(s, p), matches, change)
  {
    if s != [] {
      MapWhereCommutesWithFilter(s[1..], p, matches, change);
      var h := if matches(s[0]) then change(s[0]) else s[0];
      assert MapWhere(s, matches, change) == [h] + MapWhere(s[1..], matches, change);
      assert ([h] + MapWhere(s[1..], matches, change))[1..] == MapWhere(s[1..], matches, change);
    }
  }
}
