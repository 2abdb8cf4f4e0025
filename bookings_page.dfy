/** The booking list of src/pages/admin/Bookings.tsx: its search effect and
    its status colours. */
module BookingsPage {
  import opened Text
  import opened ListOps

  /** A booking row; the amount is not modelled. */
  datatype Booking = Booking(id: string, touristName: string, guideName: string, tourName: string, status: string)

  predicate BookingMatches(b: Booking, term: string) {
    MatchesIgnoringCase(b.touristName, term) || MatchesIgnoringCase(b.guideName, term)
    || MatchesIgnoringCase(b.tourName, term)
  }

  function BookingSearch(term: string): Booking -> bool {
    b => BookingMatches(b, term)
  }

  /** The search effect: a blank term shows all bookings; otherwise the
      untrimmed term is looked for in the tourist, guide and tour names. */
  function FilterBookings(bookings: seq<Booking>, term: string): (r: seq<Booking>)
    ensures multiset(r) <= multiset(bookings)
  {
    if JsTrim(term) == "" then bookings else Filter(bookings, BookingSearch(term))
  }

  /** A blank term shows every booking; any other keeps exactly the
      matching bookings, in their order. */
  lemma FilterBookingsOutcomes(bookings: seq<Booking>, term: string, b: Booking)
    ensures IsBlank(term) ==> FilterBookings(bookings, term) == bookings
    ensures !IsBlank(term) ==> (b in FilterBookings(bookings, term) <==> b in bookings && BookingMatches(b, term))
    ensures SubsequenceOf(FilterBookings(bookings, term), bookings)
  {
    TrimEmptyIffBlank(term);
    if !IsBlank(term) {
      FilterMembership(bookings, BookingSearch(term), b);
      FilterKeepsOrder(bookings, BookingSearch(term));
    } else {
      SubsequenceOfSelf(bookings);
    }
  }

  /** `getStatusColor`. */
  function BookingStatusColor(status: string): (c: string)
    ensures status == "Pending" <==> c == "warning"
    ensures status == "Confirmed" <==> c == "info"
    ensures status == "Completed" <==> c == "success"
    ensures status == "Cancelled" <==> c == "error"
    ensures c == "default" <==> status !in {"Pending", "Confirmed", "Completed", "Cancelled"}
  {
    match status
    case "Pending" => "warning"
    case "Confirmed" => "info"
    case "Completed" => "success"
    case "Cancelled" => "error"
    case _ => "default"
  }
}
