/** Admission and status transitions of the booking service over its table. */
module BookingLifecycle {
  import opened BookingTypes
  import opened OverlapChecker
  import opened BookingQueries

  /** What every reachable table satisfies: ids unique, positive and below the
      next id to hand out, and no stored start after its end. */
  ghost predicate StoreInvariant(t: seq<Booking>, nextId: int)
  {
    1 <= nextId && UniqueIds(t) &&
    (forall i :: 0 <= i < |t| ==> 1 <= t[i].bookingId < nextId) &&
    (forall i :: 0 <= i < |t| ==> t[i].startDate <= t[i].endDate)
  }

  /** The answer `book` gives for `data` against table `t`, where `id` is the
      id the store would assign. */
  function Admission(t: seq<Booking>, id: int, data: Booking): (r: Result<Booking>)
    ensures r == Err(StartLeadsEnd) <==> data.startDate > data.endDate
    ensures r == Err(OverlapBooking) <==>
      data.startDate <= data.endDate && exists b :: b in t && Reports(b, data.startDate, data.endDate)
    ensures r.Ok? <==>
      data.startDate <= data.endDate && forall b :: b in t ==> !Reports(b, data.startDate, data.endDate)
    ensures r.Ok? ==> r.value == data.(bookingId := id)
    ensures r != Err(NotFound)
  {
    if data.startDate > data.endDate then Err(StartLeadsEnd)
    else if |FindOverlapBooking(t, data.startDate, data.endDate)| > 0 then Err(OverlapBooking)
    else Ok(data.(bookingId := id))
  }

  /** The table after `uploadSlip(id, filename)`. */
  function PayStore(t: seq<Booking>, id: int, filename: string): (r: seq<Booking>)
    ensures |r| == |t|
    ensures IndexOf(t, id).None? ==> r == t
    ensures IndexOf(t, id).Some? ==>
      var i := IndexOf(t, id).value;
      r[i].slip == Some(filename) && r[i].status == PAID &&
      r[i].(slip := t[i].slip, status := t[i].status) == t[i] &&
      forall j :: 0 <= j < |t| && j != i ==> r[j] == t[j]
  {
    match IndexOf(t, id)
    case None => t
    case Some(i) => t[i := t[i].(slip := Some(filename), status := PAID)]
  }

  /** The status `approve` assigns. */
  function Decision(isApprove: bool): (s: Status)
    ensures s == APPROVED <==> isApprove
    ensures s == UNAPPROVED <==> !isApprove
  {
    if isApprove then APPROVED else UNAPPROVED
  }

  /** The table after `approve(id, isApprove)`. */
  function ApproveStore(t: seq<Booking>, id: int, isApprove: bool): (r: seq<Booking>)
    ensures |r| == |t|
    ensures IndexOf(t, id).None? ==> r == t
    ensures IndexOf(t, id).Some? ==>
      var i := IndexOf(t, id).value;
      r[i].status == Decision(isApprove) &&
      r[i].(status := t[i].status) == t[i] &&
      forall j :: 0 <= j < |t| && j != i ==> r[j] == t[j]
  {
    match IndexOf(t, id)
    case None => t
    case Some(i) => t[i := t[i].(status := Decision(isApprove))]
  }

  class BookingService {
    var table: seq<Booking>
    var nextId: int

    ghost predicate Valid()
      reads this
    {
      StoreInvariant(table, nextId)
    }

    /** An empty table whose first assigned id is 1. */
    constructor ()
      ensures Valid() && table == [] && nextId == 1
    {
      table := [];
      nextId := 1;
    }

    /** `book`: reject an inverted interval, then any reported conflict; otherwise
        append the input under a fresh id. */
    method Book(data: Booking) returns (r: Result<Booking>)
      requires Valid()
      modifies this
      ensures Valid()
      ensures r == Admission(old(table), old(nextId), data)
      ensures r.Ok? ==> table == old(table) + [r.value] && nextId == old(nextId) + 1
      ensures r.Err? ==> table == old(table) && nextId == old(nextId)
    {
      if data.startDate > data.endDate {
        return Err(StartLeadsEnd);
      }
      var overlap := FindOverlapBooking(table, data.startDate, data.endDate);
      if |overlap| > 0 {
        return Err(OverlapBooking);
      }
      var created := data.(bookingId := nextId);
      table := table + [created];
      nextId := nextId + 1;
      r := Ok(created);
    }

    /** `uploadSlip`: not-found for a missing id; otherwise store the slip name
        and the PAID status on the row and return it. */
    method UploadSlip(bookingId: int, filename: string) returns (r: Result<Booking>)
      requires Valid()
      modifies this
      ensures Valid() && nextId == old(nextId)
      ensures table == PayStore(old(table), bookingId, filename)
      ensures IndexOf(old(table), bookingId).None? ==> r == Err(NotFound)
      ensures IndexOf(old(table), bookingId).Some? ==>
        r == Ok(table[IndexOf(old(table), bookingId).value])
    {
      var found := IndexOf(table, bookingId);
      if found.None? {
        return Err(NotFound);
      }
      var i := found.value;
      var booking := table[i];
      booking := booking.(slip := Some(filename));
      booking := booking.(status := PAID);
      table := table[i := booking];
      r := Ok(booking);
    }

    /** `approve`: not-found for a missing id; otherwise set APPROVED or
        UNAPPROVED from the decision and return the row. */
    method Approve(bookingId: int, isApprove: bool) returns (r: Result<Booking>)
      requires Valid()
      modifies this
      ensures Valid() && nextId == old(nextId)
      ensures table == ApproveStore(old(table), bookingId, isApprove)
      ensures IndexOf(old(table), bookingId).None? ==> r == Err(NotFound)
      ensures IndexOf(old(table), bookingId).Some? ==>
        r == Ok(table[IndexOf(old(table), bookingId).value])
    {
      var found := IndexOf(table, bookingId);
      if found.None? {
        return Err(NotFound);
      }
      var i := found.value;
      var booking := table[i];
      booking := booking.(status := Decision(isApprove));
      table := table[i := booking];
      r := Ok(booking);
    }
  }

  // ---- Admission ----

  /** An admitted booking keeps the table's invariant. */
  lemma AdmissionKeepsInvariant(t: seq<Booking>, nextId: int, data: Booking)
    requires StoreInvariant(t, nextId)
    requires Admission(t, nextId, data).Ok?
    ensures StoreInvariant(t + [Admission(t, nextId, data).value], nextId + 1)
  {
  }

  /** A zero-length request passes the guard and is always admitted. */
  lemma ZeroLengthAdmitted(t: seq<Booking>, id: int, data: Booking)
    requires data.startDate == data.endDate
    ensures Admission(t, id, data) == Ok(data.(bookingId := id))
  {
  }

  /** Rows on the same court do not share an instant. */
  ghost predicate CourtDisjoint(t: seq<Booking>)
  {
    forall i, j :: 0 <= i < j < |t| && t[i].courtId == t[j].courtId ==>
      !HalfOpenOverlap(t[i].startDate, t[i].endDate, t[j].startDate, t[j].endDate)
  }

  /** Admission keeps same-court rows disjoint, provided no stored row
      strictly contains the request. */
  lemma AdmissionKeepsDisjoint(t: seq<Booking>, id: int, data: Booking)
    requires CourtDisjoint(t)
    requires forall b :: b in t ==> !StrictlyContains(b, data.startDate, data.endDate)
    requires Admission(t, id, data).Ok?
    ensures CourtDisjoint(t + [Admission(t, id, data).value])
  {
    var c := Admission(t, id, data).value;
    var u := t + [c];
    forall i, j | 0 <= i < j < |u| && u[i].courtId == u[j].courtId
      ensures !HalfOpenOverlap(u[i].startDate, u[i].endDate, u[j].startDate, u[j].endDate)
    {
      if j == |t| {
        assert u[i] == t[i] && t[i] in t && u[j] == c;
      } else {
        assert u[i] == t[i] && u[j] == t[j];
      }
    }
  }

  /** A request strictly inside a stored booking on the same court is admitted,
      and the table then holds two overlapping rows on that court. */
  lemma ContainedRequestAdmitted()
    ensures var outer := Booking(1, 7, 1, None, 0, 10, PENDING, None);
      var inner := Booking(0, 7, 2, None, 2, 5, PENDING, None);
      CourtDisjoint([outer]) &&
      Admission([outer], 2, inner) == Ok(inner.(bookingId := 2)) &&
      !CourtDisjoint([outer, inner.(bookingId := 2)])
  {
    var outer := Booking(1, 7, 1, None, 0, 10, PENDING, None);
    var inner := Booking(0, 7, 2, None, 2, 5, PENDING, None);
    var both := [outer, inner.(bookingId := 2)];
    assert !Reports(outer, 2, 5);
    assert both[0] == outer && both[1].startDate == 2 && both[1].endDate == 5;
  }

  /** The query sees every court and every status: an UNAPPROVED booking on
      court 1 blocks the same slot on court 2. */
  lemma ConflictIgnoresCourtAndStatus()
    ensures var stored := Booking(1, 1, 1, None, 0, 10, UNAPPROVED, None);
      var request := Booking(0, 2, 2, None, 0, 10, PENDING, None);
      Admission([stored], 2, request) == Err(OverlapBooking)
  {
  }

  /** Back-to-back bookings [10, 11] then [11, 12] are both admitted. */
  lemma AdjacentRequestsAdmitted()
    ensures var first := Booking(0, 1, 1, None, 10, 11, PENDING, None);
      var second := Booking(0, 1, 1, None, 11, 12, PENDING, None);
      Admission([], 1, first) == Ok(first.(bookingId := 1)) &&
      Admission([first.(bookingId := 1)], 2, second) == Ok(second.(bookingId := 2))
  {
  }

  // ---- Status transitions ----

  /** The last approval decision wins over an earlier one; in particular a
      repeated decision changes nothing. */
  lemma ApproveLastWins(t: seq<Booking>, id: int, first: bool, second: bool)
    ensures ApproveStore(ApproveStore(t, id, first), id, second) == ApproveStore(t, id, second)
  {
  }

  /** Approving then disapproving leaves the booking UNAPPROVED. */
  lemma ApproveThenDisapprove(t: seq<Booking>, id: int, i: nat)
    requires IndexOf(t, id) == Some(i)
    ensures ApproveStore(ApproveStore(t, id, true), id, false)[i].status == UNAPPROVED
  {
  }

  /** `uploadSlip` sets PAID whatever the status was: paying after an approval
      decision overwrites that decision. */
  lemma PayOverridesApproval(t: seq<Booking>, id: int, isApprove: bool, filename: string)
    ensures PayStore(ApproveStore(t, id, isApprove), id, filename) == PayStore(t, id, filename)
  {
  }

  /** A second upload replaces the slip name of the first. */
  lemma PayLastWins(t: seq<Booking>, id: int, first: string, second: string)
    ensures PayStore(PayStore(t, id, first), id, second) == PayStore(t, id, second)
  {
  }

  /** Approval after payment keeps the slip. */
  lemma ApproveKeepsSlip(t: seq<Booking>, id: int, i: nat, filename: string, isApprove: bool)
    requires IndexOf(t, id) == Some(i)
    ensures ApproveStore(PayStore(t, id, filename), id, isApprove)[i] ==
      t[i].(slip := Some(filename), status := Decision(isApprove))
  {
  }

  /** Neither transition touches ids or dates, so both keep the invariant. */
  lemma TransitionsKeepInvariant(t: seq<Booking>, nextId: int, id: int, filename: string, isApprove: bool)
    requires StoreInvariant(t, nextId)
    ensures StoreInvariant(PayStore(t, id, filename), nextId)
    ensures StoreInvariant(ApproveStore(t, id, isApprove), nextId)
  {
  }
}
