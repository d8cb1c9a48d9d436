/** The conflict query `findOverlapBooking` and what it does and does not catch. */
module OverlapChecker {
  import opened BookingTypes

  /** The where-clause of the query: the row's start lies in [s, e) or its
      end lies in (s, e]. Neither court nor status takes part. */
  predicate Reports(b: Booking, s: int, e: int)
  {
    (s <= b.startDate && b.startDate < e) || (s < b.endDate && b.endDate <= e)
  }

  /** The half-open overlap test s < be && bs < e; for non-empty intervals
      [bs, be) and [s, e) it holds exactly when they share an instant. */
  predicate HalfOpenOverlap(bs: int, be: int, s: int, e: int)
  {
    s < be && bs < e
  }

  /** The stored interval strictly encloses the candidate on both sides. */
  predicate StrictlyContains(b: Booking, s: int, e: int)
  {
    b.startDate < s && e < b.endDate
  }

  /** Every booking in the whole table that the query reports for [s, e]. */
  function FindOverlapBooking(t: seq<Booking>, s: int, e: int): (r: seq<Booking>)
    ensures forall b :: b in r <==> b in t && Reports(b, s, e)
    ensures |r| == 0 <==> forall b :: b in t ==> !Reports(b, s, e)
  {
    var r := Filter(t, (b: Booking) => Reports(b, s, e));
    assert |r| != 0 ==> r[0] in r;
    r
  }

  /** A booking that ends where the candidate starts, or starts where it
      ends, is not reported. */
  lemma AdjacencyAllowed(b: Booking, s: int, e: int)
    requires b.startDate < b.endDate
    requires b.endDate == s || b.startDate == e
    ensures !Reports(b, s, e)
  {
  }

  /** For a stored booking with a positive length, a report is a real
      half-open overlap. */
  lemma ReportsIsSound(b: Booking, s: int, e: int)
    requires b.startDate < b.endDate
    requires Reports(b, s, e)
    ensures HalfOpenOverlap(b.startDate, b.endDate, s, e)
  {
  }

  /** Exactly what the query misses: for a positive-length stored booking and
      a candidate with s <= e, it reports precisely the overlaps in which the
      stored booking does not strictly contain the candidate. */
  lemma ReportsExactly(b: Booking, s: int, e: int)
    requires b.startDate < b.endDate
    requires s <= e
    ensures Reports(b, s, e) <==>
      HalfOpenOverlap(b.startDate, b.endDate, s, e) && !StrictlyContains(b, s, e)
  {
  }

  /** A stored booking [0, 10] that strictly contains the candidate [2, 5]
      overlaps it but is not reported. */
  lemma ContainmentNotReported()
    ensures var b := Booking(1, 1, 1, None, 0, 10, PENDING, None);
      HalfOpenOverlap(b.startDate, b.endDate, 2, 5) && !Reports(b, 2, 5)
  {
  }

  /** A zero-length candidate is never reported against any row. */
  lemma ZeroLengthNeverReported(t: seq<Booking>, s: int)
    ensures FindOverlapBooking(t, s, s) == []
  {
  }

  /** A zero-length stored booking at the candidate's start is reported,
      although it shares no instant with it. */
  lemma ZeroLengthStoredReported(b: Booking, s: int, e: int)
    requires b.startDate == b.endDate == s < e
    ensures Reports(b, s, e) && !HalfOpenOverlap(b.startDate, b.endDate, s, e)
  {
  }
}
