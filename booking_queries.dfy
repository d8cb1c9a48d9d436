/** The read queries of the booking service, as functions of the table. */
module BookingQueries {
  import opened BookingTypes
  import opened OverlapChecker

  /** `findAll`: every stored row, each as often as it is stored. */
  function FindAll(t: seq<Booking>): (r: seq<Booking>)
    ensures multiset(r) == multiset(t)
  {
    t
  }

  /** Position of the first row whose id is `id`, or None when no row has it
      (the primary-key lookup `findByPk`). */
  function IndexOf(t: seq<Booking>, id: int): (r: Option<nat>)
    ensures r.None? <==> forall i :: 0 <= i < |t| ==> t[i].bookingId != id
    ensures r.Some? ==> r.value < |t| && t[r.value].bookingId == id
    ensures r.Some? ==> forall j :: 0 <= j < r.value ==> t[j].bookingId != id
    decreases |t|
  {
    if |t| == 0 then None
    else if t[0].bookingId == id then Some(0)
    else match IndexOf(t[1..], id)
      case None => None
      case Some(k) => Some(k + 1)
  }

  /** Replacing a row by one with the same id leaves the lookup where it was. */
  lemma IndexOfAfterUpdate(t: seq<Booking>, id: int, i: nat, b: Booking)
    requires IndexOf(t, id) == Some(i)
    requires b.bookingId == id
    ensures IndexOf(t[i := b], id) == Some(i)
  {
    var u := t[i := b];
    assert u[i].bookingId == id;
    assert forall j :: 0 <= j < i ==> u[j] == t[j];
  }

  /** `findById`: the row with that id, or none. */
  function FindById(t: seq<Booking>, id: int): (r: Option<Booking>)
    ensures r.None? <==> forall b :: b in t ==> b.bookingId != id
    ensures r.Some? ==> r.value in t && r.value.bookingId == id
  {
    match IndexOf(t, id)
    case None => None
    case Some(i) => Some(t[i])
  }

  /** With unique ids, the row found is the only row carrying that id. */
  lemma FindByIdUnique(t: seq<Booking>, b: Booking)
    requires UniqueIds(t)
    requires b in t
    ensures FindById(t, b.bookingId) == Some(b)
  {
  }

  /** `findByUserId`: exactly the rows owned by the user, each as often as stored. */
  function FindByUserId(t: seq<Booking>, userId: int): (r: seq<Booking>)
    ensures forall b :: b in r <==> b in t && b.userId == userId
    ensures forall b :: multiset(r)[b] == if b.userId == userId then multiset(t)[b] else 0
  {
    Filter(t, (b: Booking) => b.userId == userId)
  }

  /** Non-decreasing by start date. */
  ghost predicate SortedByStart(s: seq<Booking>)
  {
    forall i, j :: 0 <= i < j < |s| ==> s[i].startDate <= s[j].startDate
  }

  /** Places `b` into a sequence already sorted by start date. */
  function Insert(b: Booking, s: seq<Booking>): (r: seq<Booking>)
    requires SortedByStart(s)
    ensures SortedByStart(r)
    ensures multiset(r) == multiset(s) + multiset{b}
    ensures r[0] == b || (|s| > 0 && r[0] == s[0])
    decreases |s|
  {
    if |s| == 0 then [b]
    else if b.startDate <= s[0].startDate then [b] + s
    else
      assert s == [s[0]] + s[1..];
      var tail := Insert(b, s[1..]);
      [s[0]] + tail
  }

  /** The order clause `order: [['startDate']]`: the rows sorted by start date. */
  function SortByStart(s: seq<Booking>): (r: seq<Booking>)
    ensures SortedByStart(r)
    ensures multiset(r) == multiset(s)
    decreases |s|
  {
    if |s| == 0 then []
    else
      assert s == [s[0]] + s[1..];
      Insert(s[0], SortByStart(s[1..]))
  }

  /** The `Op.between` window on the end date: inclusive at both bounds. */
  predicate InWeek(b: Booking, todayMidnight: int, nextWeekMidnight: int)
  {
    todayMidnight <= b.endDate <= nextWeekMidnight
  }

  /** `findCurrentWeek`, with the two midnights supplied by the caller: the rows
      whose end date lies in the closed window, sorted by start date. */
  function FindCurrentWeek(t: seq<Booking>, todayMidnight: int, nextWeekMidnight: int): (r: seq<Booking>)
    ensures SortedByStart(r)
    ensures forall b :: multiset(r)[b] ==
                        if InWeek(b, todayMidnight, nextWeekMidnight) then multiset(t)[b] else 0
    ensures forall b :: b in r <==> b in t && InWeek(b, todayMidnight, nextWeekMidnight)
  {
    SortByStart(Filter(t, (b: Booking) => InWeek(b, todayMidnight, nextWeekMidnight)))
  }

  /** A row ending exactly at either midnight is in the window. */
  lemma WeekBoundsInclusive(t: seq<Booking>, b: Booking, todayMidnight: int, nextWeekMidnight: int)
    requires b in t
    requires todayMidnight <= nextWeekMidnight
    requires b.endDate == todayMidnight || b.endDate == nextWeekMidnight
    ensures b in FindCurrentWeek(t, todayMidnight, nextWeekMidnight)
  {
  }
}
