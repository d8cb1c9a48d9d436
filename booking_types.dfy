/** Records and result kinds shared by the booking service model. */
module BookingTypes {

  datatype Option<+T> = None | Some(value: T)

  /** The lifecycle states a booking's status field takes. PENDING is the
      value a fresh booking carries before payment. */
  datatype Status = PENDING | PAID | APPROVED | UNAPPROVED

  /** One row of the booking table. Dates are integer timestamps. */
  datatype Booking = Booking(
    bookingId: int,
    courtId: int,
    userId: int,
    billId: Option<int>,
    startDate: int,
    endDate: int,
    status: Status,
    slip: Option<string>)

  /** The three failure answers of the service, one per sentinel string. */
  datatype Error =
    | NotFound        // 'booking not found'
    | StartLeadsEnd   // 'start date lead end date'
    | OverlapBooking  // 'overlap booking'

  datatype Result<+T> = Ok(value: T) | Err(error: Error)

  /** No two rows of the table share a booking id. */
  ghost predicate UniqueIds(t: seq<Booking>)
  {
    forall i, j :: 0 <= i < j < |t| ==> t[i].bookingId != t[j].bookingId
  }

  /** The rows of `t` satisfying `p`, in table order. */
  function Filter(t: seq<Booking>, p: Booking -> bool): (r: seq<Booking>)
    ensures forall b :: multiset(r)[b] == if p(b) then multiset(t)[b] else 0
    ensures forall b :: b in r <==> b in t && p(b)
    ensures |r| <= |t|
    decreases |t|
  {
    if |t| == 0 then []
    else
      assert t == [t[0]] + t[1..];
      (if p(t[0]) then [t[0]] else []) + Filter(t[1..], p)
  }
}
