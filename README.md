# Booking service model

A Dafny model of the booking service of a sports-complex backend
(`src/booking/booking.service.ts`). The service keeps a table of court
bookings. `book` admits a reservation after a date guard and a conflict
query. `uploadSlip` and `approve` change a booking's payment slip and
status. `findAll`, `findById`, `findByUserId` and `findCurrentWeek` read the
table.

Layout:

- `booking_types.dfy` (`BookingTypes`): the `Booking` row, the closed
  `Status` enumeration (`PENDING`, `PAID`, `APPROVED`, `UNAPPROVED`), and an
  `Error` kind for each of the three sentinel strings the service returns
  (`NotFound`, `StartLeadsEnd`, `OverlapBooking`). It also holds a `Result`
  type and a filter helper.
- `overlap_checker.dfy` (`OverlapChecker`): the where-clause of
  `findOverlapBooking` as the predicate `Reports`, the query itself, and what
  it does and does not catch compared with half-open interval overlap.
- `booking_queries.dfy` (`BookingQueries`): the read queries, as pure
  functions of the table contents.
- `booking_lifecycle.dfy` (`BookingLifecycle`): the class `BookingService`.
  Its field `table: seq<Booking>` stands for the ORM table, and `nextId` stands
  for the database's auto-increment id. `Book`, `UploadSlip` and `Approve`
  modify the table. Each is specified against a pure function of the old
  table (`Admission`, `PayStore`, `ApproveStore`). The lemmas about status
  transitions and admission are stated over those functions.

Dates are integer timestamps. `findCurrentWeek` takes today's midnight and
the midnight seven days later as parameters. In the source these come from
the clock through `TimeUtils`, which is not part of this model.

Behaviour of the code that a reader might not expect, all of it modelled as
written:

- The date guard is a strict `>` (`booking.service.ts:76`), so a booking
  with start equal to end is admitted (`ZeroLengthAdmitted`).
- The conflict query (`booking.service.ts:89-106`) has no court or status
  term. A booking of any court and any status blocks the request
  (`ConflictIgnoresCourtAndStatus`).
- The conflict query misses a stored booking that strictly contains the
  request (`booking.service.ts:91-104`). So `book` can leave two overlapping
  bookings on one court (`ContainedRequestAdmitted`).
- The week window is `Op.between` (`booking.service.ts:41-45`), which
  includes both ends. A booking ending exactly at next week's midnight is
  returned (`WeekBoundsInclusive`).
- `uploadSlip` sets `PAID` from any status (`booking.service.ts:59`). This
  erases an earlier approval decision (`PayOverridesApproval`).

## Model

| member | source | states |
|---|---|---|
| `OverlapChecker.FindOverlapBooking` | src/booking/booking.service.ts:87-108 | a stored booking is returned exactly when its start lies in [s, e) or its end lies in (s, e]; court and status play no part; the result is empty exactly when no stored booking is reported |
| `OverlapChecker.AdjacencyAllowed` | src/booking/booking.service.ts:93-102 | a positive-length booking that ends where the request starts, or starts where it ends, is not reported |
| `OverlapChecker.ReportsIsSound` | src/booking/booking.service.ts:91-104 | for a stored booking with start < end, every report is a real half-open overlap |
| `OverlapChecker.ReportsExactly` | src/booking/booking.service.ts:91-104 | for a stored booking with start < end and a request with s <= e: reported if and only if the two overlap and the stored booking does not strictly contain the request |
| `OverlapChecker.ContainmentNotReported` | src/booking/booking.service.ts:91-104 | the stored booking [0, 10] overlaps the request [2, 5] but is not reported |
| `OverlapChecker.ZeroLengthNeverReported` | src/booking/booking.service.ts:91-104 | a request with start equal to end meets no stored booking |
| `OverlapChecker.ZeroLengthStoredReported` | src/booking/booking.service.ts:93-96 | a zero-length stored booking at the request's start is reported although it shares no instant with the request |
| `BookingLifecycle.Admission` | src/booking/booking.service.ts:74-85 | start after end gives the start-leads-end error; otherwise any reported booking gives the overlap error; otherwise the result is the input with the fresh id; never not-found |
| `BookingLifecycle.BookingService.Book` | src/booking/booking.service.ts:74-85 | returns `Admission` of the old table; on success the table gains exactly that one record at the end and the next id advances; on error table and next id are unchanged; the store invariant is kept |
| `BookingLifecycle.BookingService.constructor` | src/booking/booking.service.ts:11-12 | an empty table whose first id is 1 satisfies the store invariant |
| `BookingLifecycle.AdmissionKeepsInvariant` | src/booking/booking.service.ts:74-85 | ids stay unique, positive and below the next id, and no stored start exceeds its end, after an admission |
| `BookingLifecycle.ZeroLengthAdmitted` | src/booking/booking.service.ts:76 | a request with start equal to end passes the guard and is always admitted |
| `BookingLifecycle.AdmissionKeepsDisjoint` | src/booking/booking.service.ts:79-84 | if same-court bookings are disjoint, an admitted request keeps them disjoint whenever no stored booking strictly contains it |
| `BookingLifecycle.ContainedRequestAdmitted` | src/booking/booking.service.ts:79-84 | a request [2, 5] on the court of a stored [0, 10] is admitted, and the table then holds two overlapping same-court bookings |
| `BookingLifecycle.ConflictIgnoresCourtAndStatus` | src/booking/booking.service.ts:89-106 | an UNAPPROVED booking on court 1 blocks the same slot on court 2 with the overlap error |
| `BookingLifecycle.AdjacentRequestsAdmitted` | src/booking/booking.service.ts:79-84 | [10, 11] then [11, 12] on one court are both admitted |
| `BookingLifecycle.PayStore` | src/booking/booking.service.ts:53-62 | a missing id leaves the table as it was; otherwise only the found row changes, and only its slip (to the file name) and its status (to PAID) |
| `BookingLifecycle.BookingService.UploadSlip` | src/booking/booking.service.ts:53-62 | the new table is `PayStore` of the old one; a missing id answers not-found, a found one answers the updated row; the next id and the store invariant are kept |
| `BookingLifecycle.Decision` | src/booking/booking.service.ts:69 | the assigned status is APPROVED if and only if the decision is true, and UNAPPROVED if and only if it is false |
| `BookingLifecycle.ApproveStore` | src/booking/booking.service.ts:64-72 | a missing id leaves the table as it was; otherwise only the found row's status changes, to the decision's status |
| `BookingLifecycle.BookingService.Approve` | src/booking/booking.service.ts:64-72 | the new table is `ApproveStore` of the old one; a missing id answers not-found, a found one answers the updated row; the next id and the store invariant are kept |
| `BookingLifecycle.ApproveLastWins` | src/booking/booking.service.ts:64-72 | two approvals in a row leave the table of the second alone, so a repeated decision is idempotent |
| `BookingLifecycle.ApproveThenDisapprove` | src/booking/booking.service.ts:69 | approving then disapproving an existing booking leaves it UNAPPROVED |
| `BookingLifecycle.PayOverridesApproval` | src/booking/booking.service.ts:58-59 | uploading a slip after an approval decision gives the same table as uploading it without the decision |
| `BookingLifecycle.PayLastWins` | src/booking/booking.service.ts:58-59 | a second slip upload replaces the first |
| `BookingLifecycle.ApproveKeepsSlip` | src/booking/booking.service.ts:58-69 | approving after a payment keeps the slip and sets only the decision's status |
| `BookingLifecycle.TransitionsKeepInvariant` | src/booking/booking.service.ts:53-72 | neither transition breaks the store invariant |
| `BookingQueries.FindAll` | src/booking/booking.service.ts:14-16 | every stored row, each as often as stored |
| `BookingQueries.IndexOf` | src/booking/booking.service.ts:54 | no result exactly when no row has the id; otherwise the position of the first row with the id |
| `BookingQueries.IndexOfAfterUpdate` | src/booking/booking.service.ts:61 | writing back a row with the same id keeps the primary-key lookup at the same position |
| `BookingQueries.FindById` | src/booking/booking.service.ts:18-23 | none exactly when no row has the id; otherwise a stored row with that id |
| `BookingQueries.FindByIdUnique` | src/booking/booking.service.ts:18-23 | with unique ids, the row found is the one stored row with that id |
| `BookingQueries.FindByUserId` | src/booking/booking.service.ts:25-30 | exactly the rows with that user id, each as often as stored |
| `BookingQueries.SortByStart` | src/booking/booking.service.ts:47 | the result is sorted non-decreasingly by start date and is a permutation of the input |
| `BookingQueries.FindCurrentWeek` | src/booking/booking.service.ts:32-51 | exactly the rows with today's midnight <= end date <= next week's midnight, each as often as stored, sorted non-decreasingly by start date |
| `BookingQueries.WeekBoundsInclusive` | src/booking/booking.service.ts:40-45 | a row ending exactly at either midnight is in the window |

## Left out

- The HTTP controller, authentication, guards and pipes are not modelled. They are boundary code.
- `booking.service.ts` does not define `bookMany`, `bookByAdmin`, `update`, `deleteById`, `deleteByBillId`, `findByStadiumId` or `findByBillId`, which the controller calls; they are not part of this model.
- The controller calls `approve` with one argument, so there the decision is undefined and falls through to UNAPPROVED. The model always takes the decision as a boolean.
- The gap between the conflict query and the insert in `book` is a race between concurrent requests. `Book` is one sequential step.
- `Date` values, time zones and `TimeUtils.zeroOclock`/`nextXDate` are not modelled. Dates are integers, and the week bounds are parameters.
- Reading the clock (`new Date()`) is not modelled; the caller supplies the bounds.
- The ORM joins (`include: [Court, User]`) are not modelled. Queries return plain rows.
- The database's own row order for `findAll`, and its order among rows with equal start dates under `order`, is not modelled. `FindAll` promises only the rows and their multiplicities. `SortByStart` promises only sortedness and permutation.
- The column default for `status` lives in the Booking model definition, which is not part of this model. `Book` stores the input's status and slip as given and replaces only the id.
- Storage failures (database errors) are not modelled.
