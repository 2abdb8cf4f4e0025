/** The recent-bookings table of src/pages/admin/Dashboard.tsx: the column
    toggle of `handleSort` and the filter-then-sort pipeline that produces
    the rows on screen. */
module AdminDashboard {
  import opened Text
  import opened ListOps

  datatype Booking = Booking(id: int, tourist: string, guide: string, date: string, status: string)

  // ------------------------------------------------------------ handleSort

  /** The next (sortBy, sortOrder) after a click on `field`. */
  function NextSort(sortBy: string, sortOrder: string, field: string): (r: (string, string))
    ensures sortBy == field ==> r.0 == sortBy && r.1 == (if sortOrder == "asc" then "desc" else "asc")
    ensures sortBy != field ==> r == (field, "asc")
  {
    if sortBy == field then (sortBy, if sortOrder == "asc" then "desc" else "asc") else (field, "asc")
  }

  /** Two clicks on the current column give back the order it had; the
      order is always 'asc' or 'desc' after a click. */
  lemma NextSortTwice(sortBy: string, sortOrder: string)
    requires sortOrder == "asc" || sortOrder == "desc"
    ensures var once := NextSort(sortBy, sortOrder, sortBy);
      NextSort(once.0, once.1, sortBy) == (sortBy, sortOrder)
  {
  }

  class DashboardPage {
    var searchTerm: string
    var sortBy: string
    var sortOrder: string

    /** The initial state: no search, column 'name', ascending. */
    constructor ()
      ensures searchTerm == "" && sortBy == "name" && sortOrder == "asc"
    {
      searchTerm := "";
      sortBy := "name";
      sortOrder := "asc";
    }

    /** `handleSearch`. */
    method HandleSearch(term: string)
      modifies this
      ensures searchTerm == term && sortBy == old(sortBy) && sortOrder == old(sortOrder)
    {
      searchTerm := term;
    }

    /** `handleSort(field)`: the same column flips asc and desc; another
        column is selected ascending. */
    method HandleSort(field: string)
      modifies this
      ensures (sortBy, sortOrder) == NextSort(old(sortBy), old(sortOrder), field)
      ensures searchTerm == old(searchTerm)
      ensures sortOrder == "asc" || sortOrder == "desc"
    {
      if sortBy == field {
        sortOrder := if sortOrder == "asc" then "desc" else "asc";
      } else {
        sortBy := field;
        sortOrder := "asc";
      }
    }
  }

  // ------------------------------------------------------------- the filter

  /** Tourist, guide or status contains the term, ignoring case. */
  predicate BookingMatches(b: Booking, term: string) {
    MatchesIgnoringCase(b.tourist, term) || MatchesIgnoringCase(b.guide, term) || MatchesIgnoringCase(b.status, term)
  }

  function BookingSearch(term: string): Booking -> bool {
    b => BookingMatches(b, term)
  }

  // ----------------------------------------------------------- the ordering

  /** Code-point order of strings, standing in for `localeCompare`:
      negative, zero or positive. */
  function StrCmp(a: string, b: string): (c: int)
    ensures -1 <= c <= 1
    ensures c == 0 <==> a == b
  {
    if a == [] && b == [] then 0
    else if a == [] then -1
    else if b == [] then 1
    else if a[0] < b[0] then -1
    else if a[0] > b[0] then 1
    else
      assert a != b ==> a[1..] != b[1..] by {
        if a[1..] == b[1..] { assert a == [a[0]] + a[1..] && b == [b[0]] + b[1..]; }
      }
      StrCmp(a[1..], b[1..])
  }

  lemma {:induction false} StrCmpFlip(a: string, b: string)
    ensures StrCmp(a, b) == -StrCmp(b, a)
  {
    if a != [] && b != [] && a[0] == b[0] {
      StrCmpFlip(a[1..], b[1..]);
    }
  }

  lemma {:induction false} StrCmpTransitive(a: string, b: string, c: string)
    requires StrCmp(a, b) <= 0 && StrCmp(b, c) <= 0
    ensures StrCmp(a, c) <= 0
  {
    if a != [] && b != [] && c != [] && a[0] == b[0] && b[0] == c[0] {
      StrCmpTransitive(a[1..], b[1..], c[1..]);
    }
  }

  /** The columns the comparator knows. */
  predicate Sortable(sortBy: string) {
    sortBy == "tourist" || sortBy == "guide" || sortBy == "date" || sortBy == "status"
  }

  function Key(sortBy: string, b: Booking): string {
    if sortBy == "tourist" then b.tourist
    else if sortBy == "guide" then b.guide
    else if sortBy == "date" then b.date
    else b.status
  }

  /** The comparator passed to `sort`. */
  function Compare(sortBy: string, sortOrder: string, a: Booking, b: Booking): int {
    if !Sortable(sortBy) then 0
    else if sortOrder == "asc" then StrCmp(Key(sortBy, a), Key(sortBy, b))
    else StrCmp(Key(sortBy, b), Key(sortBy, a))
  }

  lemma CompareFlip(sortBy: string, sortOrder: string, a: Booking, b: Booking)
    ensures Compare(sortBy, sortOrder, a, b) == -Compare(sortBy, sortOrder, b, a)
  {
    StrCmpFlip(Key(sortBy, a), Key(sortBy, b));
  }

  lemma CompareTransitive(sortBy: string, sortOrder: string, a: Booking, b: Booking, c: Booking)
    requires Compare(sortBy, sortOrder, a, b) <= 0 && Compare(sortBy, sortOrder, b, c) <= 0
    ensures Compare(sortBy, sortOrder, a, c) <= 0
  {
    if Sortable(sortBy) {
      if sortOrder == "asc" {
        StrCmpTransitive(Key(sortBy, a), Key(sortBy, b), Key(sortBy, c));
      } else {
        StrCmpTransitive(Key(sortBy, c), Key(sortBy, b), Key(sortBy, a));
      }
    }
  }

  predicate SortedBy(s: seq<Booking>, sortBy: string, sortOrder: string) {
    forall i, j :: 0 <= i < j < |s| ==> Compare(sortBy, sortOrder, s[i], s[j]) <= 0
  }

  /** Puts `x` before the first entry it does not compare above, so it stays
      ahead of the entries equal to it. */
  function Insert(x: Booking, s: seq<Booking>, sortBy: string, sortOrder: string): seq<Booking> {
    if s == [] then [x]
    else if Compare(sortBy, sortOrder, x, s[0]) <= 0 then [x] + s
    else [s[0]] + Insert(x, s[1..], sortBy, sortOrder)
  }

  /** `Array.prototype.sort` with the comparator: a stable sort. */
  function Sort(s: seq<Booking>, sortBy: string, sortOrder: string): seq<Booking> {
    if s == [] then [] else Insert(s[0], Sort(s[1..], sortBy, sortOrder), sortBy, sortOrder)
  }

  lemma {:induction false} InsertPermutes(x: Booking, s: seq<Booking>, sortBy: string, sortOrder: string)
    ensures multiset(Insert(x, s, sortBy, sortOrder)) == multiset(s) + multiset{x}
  {
    if s != [] && Compare(sortBy, sortOrder, x, s[0]) > 0 {
      InsertPermutes(x, s[1..], sortBy, sortOrder);
      assert s == [s[0]] + s[1..];
    }
  }

  lemma {:induction false} InsertSorted(x: Booking, s: seq<Booking>, sortBy: string, sortOrder: string)
    requires SortedBy(s, sortBy, sortOrder)
    ensures SortedBy(Insert(x, s, sortBy, sortOrder), sortBy, sortOrder)
  {
    if s == [] {
    } else if Compare(sortBy, sortOrder, x, s[0]) <= 0 {
      forall j | 0 <= j < |s| ensures Compare(sortBy, sortOrder, x, s[j]) <= 0 {
        if j > 0 {
          CompareTransitive(sortBy, sortOrder, x, s[0], s[j]);
        }
      }
      PrependSorted(x, s, sortBy, sortOrder);
    } else {
      var t := Insert(x, s[1..], sortBy, sortOrder);
      InsertSorted(x, s[1..], sortBy, sortOrder);
      InsertPermutes(x, s[1..], sortBy, sortOrder);
      CompareFlip(sortBy, sortOrder, x, s[0]);
      forall j | 0 <= j < |t| ensures Compare(sortBy, sortOrder, s[0], t[j]) <= 0 {
        assert t[j] in multiset(t);
        if t[j] != x {
          assert t[j] in multiset(s[1..]);
          var k :| 0 <= k < |s[1..]| && s[1..][k] == t[j];
          assert s[k + 1] == t[j];
        }
      }
      PrependSorted(s[0], t, sortBy, sortOrder);
    }
  }

  /** An entry at or below every entry of a sorted list may go in front. */
  lemma PrependSorted(y: Booking, t: seq<Booking>, sortBy: string, sortOrder: string)
    requires SortedBy(t, sortBy, sortOrder)
    requires forall j :: 0 <= j < |t| ==> Compare(sortBy, sortOrder, y, t[j]) <= 0
    ensures SortedBy([y] + t, sortBy, sortOrder)
  {
    var r := [y] + t;
    forall i, j | 0 <= i < j < |r| ensures Compare(sortBy, sortOrder, r[i], r[j]) <= 0 {
      if i == 0 {
        assert r[j] == t[j - 1];
      } else {
        assert r[i] == t[i - 1] && r[j] == t[j - 1];
      }
    }
  }

  /** The sort returns the same bookings, ordered by the comparator. */
  lemma {:induction false} SortSortsAndPermutes(s: seq<Booking>, sortBy: string, sortOrder: string)
    ensures SortedBy(Sort(s, sortBy, sortOrder), sortBy, sortOrder)
    ensures multiset(Sort(s, sortBy, sortOrder)) == multiset(s)
  {
    if s != [] {
      SortSortsAndPermutes(s[1..], sortBy, sortOrder);
      InsertSorted(s[0], Sort(s[1..], sortBy, sortOrder), sortBy, sortOrder);
      InsertPermutes(s[0], Sort(s[1..], sortBy, sortOrder), sortBy, sortOrder);
      assert s == [s[0]] + s[1..];
    }
  }

  /** A column the comparator does not know leaves the order as it was. */
  lemma {:induction false} SortUnknownColumnKeepsOrder(s: seq<Booking>, sortBy: string, sortOrder: string)
    requires !Sortable(sortBy)
    ensures Sort(s, sortBy, sortOrder) == s
  {
    if s != [] {
      SortUnknownColumnKeepsOrder(s[1..], sortBy, sortOrder);
      assert s == [s[0]] + s[1..];
    }
  }

  // -------------------------------------------------------------- the rows

  /** The rows on screen: filter by the search term, then sort. */
  function DisplayedBookings(bookings: seq<Booking>, term: string, sortBy: string, sortOrder: string): seq<Booking> {
    Sort(Filter(bookings, BookingSearch(term)), sortBy, sortOrder)
  }

  /** The rows are a permutation of the matching bookings; a booking is on
      screen iff it matches; for a known column the rows are ordered by that
      field, ascending or descending as `sortOrder` says. */
  lemma DisplayedBookingsOutcomes(bookings: seq<Booking>, term: string, sortBy: string, sortOrder: string, b: Booking)
    ensures multiset(DisplayedBookings(bookings, term, sortBy, sortOrder)) == multiset(Filter(bookings, BookingSearch(term)))
    ensures b in DisplayedBookings(bookings, term, sortBy, sortOrder) <==> b in bookings && BookingMatches(b, term)
    ensures var r := DisplayedBookings(bookings, term, sortBy, sortOrder);
      Sortable(sortBy) ==> forall i, j :: 0 <= i < j < |r| ==>
        if sortOrder == "asc" then StrCmp(Key(sortBy, r[i]), Key(sortBy, r[j])) <= 0
        else StrCmp(Key(sortBy, r[j]), Key(sortBy, r[i])) <= 0
  {
    var f := Filter(bookings, BookingSearch(term));
    SortSortsAndPermutes(f, sortBy, sortOrder);
    FilterMembership(bookings, BookingSearch(term), b);
    var r := Sort(f, sortBy, sortOrder);
    assert b in r <==> b in multiset(r);
    assert b in f <==> b in multiset(f);
  }

  /** With the initial column 'name' the comparator always answers 0, so the
      rows are the matching bookings in their original order. */
  lemma InitialOrderIsFilterOrder(bookings: seq<Booking>, term: string, sortOrder: string)
    ensures DisplayedBookings(bookings, term, "name", sortOrder) == Filter(bookings, BookingSearch(term))
    ensures SubsequenceOf(DisplayedBookings(bookings, term, "name", sortOrder), bookings)
  {
    SortUnknownColumnKeepsOrder(Filter(bookings, BookingSearch(term)), "name", sortOrder);
    FilterKeepsOrder(bookings, BookingSearch(term));
  }
}
