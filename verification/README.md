# Parking lot manager: a verified model of its booking core

The application manages parking lots made of numbered spots. It has two
roles:

- An **admin** creates, edits and deletes lots and reads the dashboards.
- A **user** books the first available spot of a lot and later releases it.
  On release the user pays for the time parked, at the hourly price the lot
  had when the spot was booked.

This project models that core in Dafny and proves what the routes promise.

- The tables: lots, spots and reservations, plus the id counters. They are the
  fields of one object, `Store.ParkingStore`.
- The five routes that change those tables: create, edit and delete a lot; book
  and release a spot. Each route is one method. It either returns a `Failure`
  and changes nothing, or it applies all of its changes. `Valid()` is the store
  invariant, and every route preserves it. The invariant says:
  - a user holds at most one open reservation;
  - a spot is referenced by at most one open reservation;
  - a spot is occupied ('O') exactly when an open reservation references it;
  - every open reservation references an existing spot;
  - spot ids are distinct;
  - every spot belongs to an existing lot;
  - every lot has `maximum_number_of_spots` spots;
  - a total cost is recorded exactly when a leaving time is.
- The derived values of models.py:
  - a lot's available and occupied counts;
  - the current reservation of a spot;
  - the duration of a stay;
  - its total cost.
- The roll-ups of the admin dashboard, the earnings report and the user
  dashboard:
  - total earnings;
  - the per-lot earnings breakdown, built by a loop and proved against a
    recursive definition;
  - the spot totals;
  - the current stay.
- The spot-number format `upper(name[:3]) + "-" + n` with `n` zero-padded to
  three digits. It is a pure string function, and its ordinal is proved to read
  back.

Modelling choices:

- **Money is integer cents** and **time is integer seconds**. The current time
  is a parameter of every operation that reads the clock.
- The cost of a stay is `(leaving - arrival) * rate / 3600`, rounded to the
  nearest cent, ties to even. This is the rule Python's `round` applies.
- A spot's status is `Available` or `Occupied`. These are the only two values
  the application writes.
- Ids come from two counters. Creating a lot advances the lot counter by 1 and
  the spot counter by the number of spots; no other route changes them.
- The breakdown produced by the earnings report is a sequence of (lot name,
  amount) entries in insertion order, as a Python dict keeps them.
- A completed reservation whose spot or lot no longer exists has no lot name.
  The report would raise on it; the model returns `None`.
- The code does **not** clamp a negative duration to zero. A leaving time
  before the arrival time gives a negative cost (`Models.NegativeDurationCosts`).
- Costs round to the nearest cent, half to even.
- Editing a lot does not check that the price is positive.

## Model

| member | source | states |
|---|---|---|
| Models.AvailableSpotsCount | models.py:41-44 | definition: the number of the lot's spots with status 'A'; its properties are stated by AvailablePlusOccupied, CountStatusZero and CountStatusUpdate |
| Models.OccupiedSpotsCount | models.py:46-49 | definition: the number of the lot's spots with status 'O'; its properties are stated by AvailablePlusOccupied and CountStatusUpdate |
| Models.DurationSeconds | models.py:95-105 | definition: seconds from arrival to the leaving time, or to `now` while still parked, not clamped; used by CalculateTotalCost and Reports.CurrentStay |
| Models.FirstIndex | models.py:71-74 | `.first()`: the lowest index whose element matches, with no earlier match; None exactly when nothing matches |
| Models.StatusCountsCover | app.py:135-137 | over all lots, available spots plus occupied spots equals the total number of spots |
| Models.AvailablePlusOccupied | models.py:41-49 | available_spots_count + occupied_spots_count equals the number of spots of the lot |
| Models.CountStatusZero | models.py:41-44 | a lot's count for a status is zero exactly when none of its spots has that status |
| Models.CountStatusAppend | models.py:41-49 | the counts of a lot add up over two spot lists joined together |
| Models.CountStatusUpdate | models.py:41-49 | changing one spot's status moves it between the counts of its own lot; every lot's size and every other lot's counts stay the same |
| Models.CurrentReservation | models.py:68-74 | current_reservation is None exactly when no open reservation references the spot; otherwise it is one that references the spot and has no leaving time |
| Models.OpenReservationOf | app.py:334-337 | the user's open reservation, if any: it belongs to the user and has no leaving time; None exactly when the user has no open reservation |
| Models.OpenReservationOfAppend | app.py:358-368 | once a reservation is opened for a user who had none, that reservation is the user's open reservation |
| Models.SpotIndex | app.py:402 | `ParkingSpot.query.get(id)`: the found spot has that id; None exactly when no spot has it |
| Models.RoundHalfEven | models.py:111 | the result lies within half a unit of the exact quotient, and an exact tie goes to the even neighbour |
| Models.CalculateTotalCost | models.py:107-112 | cost is 0 while the user is still parked; otherwise it is within half a cent of elapsed seconds / 3600 times the captured rate, with ties to even |
| Models.ClosedStayCost | models.py:109-111 | a stay closed at t costs the rounded product of (t - arrival) and the reservation's own captured rate |
| Models.RoundHalfEvenMonotone | models.py:111 | rounding preserves order |
| Models.CostNonNegative | models.py:98-111 | a stay that does not go back in time, at a non-negative rate, costs at least 0 |
| Models.CostMonotoneInTime | models.py:98-111 | at a fixed non-negative rate, leaving later never costs less |
| Models.NegativeDurationCosts | models.py:98-101 | the duration is not clamped: leaving before arriving, at a positive rate, gives a negative cost |
| Models.HalfHourIsCharged | models.py:101 | fractional hours are charged rather than floored: 30 minutes at 10.00/hour costs 5.00 |
| Models.TwoAndAHalfHours | models.py:109-111 | 2.5 hours at 10.00/hour costs 25.00 |
| Labels.SpotLabel | app.py:209 | definition: the upper-cased name prefix, a hyphen and the zero-padded ordinal; its properties are stated by SpotLabelRoundTrip, SpotLabelInjective and MallSpotNumbers |
| Labels.Upper | app.py:209 | `upper()` keeps the length and upper-cases each ASCII letter in place |
| Labels.Prefix3 | app.py:209 | `name[:3]` is the first three characters, or the whole name when it is shorter |
| Labels.ZeroPad3 | app.py:209 | `{n:03d}` is all decimal digits, at least three of them, exactly three below 1000, and with no leading zero when longer than three |
| Labels.Digits | app.py:209 | the decimal numeral of n: at least one digit, all decimal digits, no leading zero for n >= 1, and at most three digits below 1000 |
| Labels.ParseDigits | app.py:209 | the decimal numeral of n reads back as n |
| Labels.ParseZeros | app.py:209 | a string of zeros reads as 0 |
| Labels.ParseLeadingZeros | app.py:209 | leading zeros do not change the value of a numeral |
| Labels.ParseZeroPad3 | app.py:209 | the zero-padded numeral reads back as n |
| Labels.SpotLabelRoundTrip | app.py:209 | a spot number is the upper-cased name prefix, a hyphen and the padded ordinal, and the ordinal reads back from it |
| Labels.SpotLabelInjective | app.py:206-209 | different ordinals give different spot numbers within one lot |
| Labels.MallSpotNumbers | app.py:209 | lot "Mall" numbers its first two spots "MAL-001" and "MAL-002" |
| Reports.TotalEarnings | app.py:144 | definition: the sum of the recorded costs of completed reservations, with a missing cost counted as 0; its properties are stated by TotalEarningsAppend, TotalEarningsUpdate, TotalEarningsNonNegative and BreakdownSums |
| Reports.TotalEarningsAppend | app.py:144 | total earnings add up over two reservation lists joined together |
| Reports.TotalEarningsUpdate | app.py:431 | replacing one reservation changes the total by the difference of what the old and the new one contribute |
| Reports.TotalEarningsNonNegative | app.py:144 | total earnings are at least 0 when every recorded cost is |
| Reports.LotNameOf | app.py:436 | definition: the name of the lot of the reservation's spot, None when the spot or lot is gone; its properties are stated by BreakdownDefined and BreakdownKeys |
| Reports.AddTo | app.py:437-439 | definition: the crediting step on the breakdown; its properties are stated by AddToSum and AddToEffect |
| Reports.Breakdown | app.py:434-439 | definition: the breakdown built reservation by reservation; its properties are stated by BreakdownDefined, BreakdownSums, BreakdownPerLot, BreakdownKeys and BreakdownFacts |
| Reports.NameIndex | app.py:437 | the position of a lot name among the breakdown's keys, or its length exactly when the name is not a key |
| Reports.AddToSum | app.py:437-439 | one crediting step adds its amount to the sum of the breakdown |
| Reports.AddToEffect | app.py:437-439 | one crediting step keeps the keys distinct and makes the name a key; it adds the amount under that name and changes no other key or value |
| Reports.BreakdownDefined | app.py:435-436 | the breakdown exists exactly when no completed reservation has lost its spot or lot |
| Reports.BreakdownSums | app.py:431-439 | the breakdown's keys are distinct and its values sum to total earnings |
| Reports.BreakdownPerLot | app.py:434-439 | the value under each name is the total paid for completed stays in lots of that name (0 when the name is not a key) |
| Reports.BreakdownKeys | app.py:434-439 | a name is a key exactly when some completed reservation was made in a lot of that name |
| Reports.BreakdownFacts | app.py:431-439 | undefined exactly when a completed reservation has lost its spot or lot; otherwise the keys are distinct, the values sum to total earnings and each value is its lot's total |
| Reports.Credit | app.py:437-439 | the in-place update of the breakdown: a lot name met for the first time starts at 0, then the cost is added to it; proved equal to the crediting step |
| Reports.LotEarnings | app.py:434-439 | the loop computes the breakdown: None exactly when some completed reservation has lost its spot or lot; otherwise the keys are distinct, the values sum to total earnings and each value is its lot's total |
| Reports.AdminSpotTotals | app.py:135-137 | total_spots is the number of spots and occupied_spots the number with status 'O'; available_spots = total - occupied is the number with status 'A' |
| Reports.CurrentStay | app.py:302-311 | None exactly when the user has no open reservation; otherwise a stay of that user, with no leaving time, whose elapsed time is now minus its arrival |
| Invariants.ProvisionedSpots | app.py:206-212 | a new lot receives exactly max_spots spots |
| Invariants.ProvisionedSpotsAt | app.py:206-211 | the i-th new spot has the next id, belongs to the lot, is numbered SpotLabel(name, i) and is 'A' |
| Invariants.ProvisionedSpotsFacts | app.py:206-212 | all max_spots new spots belong to the lot and are available; none is occupied |
| Invariants.ProvisionedNumbersDistinct | app.py:209 | the spots of one new lot have pairwise distinct spot numbers |
| Invariants.NewLotCounts | app.py:206-212 | after creation the new lot has max_spots spots, all available and none occupied |
| Invariants.CreateKeepsShape | app.py:193-212 | creation keeps spot ids distinct and every spot in an existing lot; the counters stay ahead and every lot keeps its capacity |
| Invariants.CreateKeepsOccupancy | app.py:206-212 | no open reservation references a new spot, so "occupied iff open" and "open on a live spot" still hold |
| Invariants.CreateKeepsInvariant | app.py:193-214 | create_parking_lot preserves the store invariant |
| Invariants.EditKeepsInvariant | app.py:236-242 | changing a lot's fields other than its capacity preserves the store invariant |
| Invariants.SpotsOutside | models.py:36 | the cascade removes exactly the lot's spots; every other lot's spot count is unchanged and the deleted lot's is 0 |
| Invariants.SpotsOutsideDistinct | app.py:268 | spot ids stay distinct after the cascade |
| Invariants.DeleteKeepsInvariant | app.py:262-269 | deleting a lot with no occupied spot preserves the store invariant |
| Invariants.StatusChangeKeepsShape | app.py:365 | flipping one spot's status keeps ids, lots and every lot's size |
| Invariants.AppendOpenKeepsUnique | app.py:334-362 | opening a reservation for a user and a spot that hold none keeps one-open-per-user and one-open-per-spot |
| Invariants.BookKeepsOccupiedIffOpen | app.py:358-368 | occupying a free spot while opening a reservation on it keeps "occupied iff open" |
| Invariants.BookKeepsOpenOnLiveSpot | app.py:358-362 | the new reservation references an existing spot |
| Invariants.BookKeepsInvariant | app.py:334-368 | book_spot's change preserves the store invariant |
| Invariants.Closed | app.py:398-399 | closing records the leaving time and a cost and keeps spot, user, arrival and captured rate |
| Invariants.Freed | app.py:402-404 | definition: the spot with the given id, if it exists, set back to 'A'; Store.ParkingStore.ReleaseSpot states the result in full |
| Invariants.CloseKeepsUnique | app.py:398-399 | closing a reservation keeps both one-open rules and "cost iff left" |
| Invariants.ReleaseKeepsOccupiedIffOpen | app.py:398-404 | closing the reservation and freeing its spot keeps "occupied iff open" |
| Invariants.ReleaseKeepsOpenOnLiveSpot | app.py:398-404 | after release, every open reservation still references an existing spot |
| Invariants.ReleaseKeepsInvariant | app.py:387-406 | the open reservation's spot exists, and release_spot's change preserves the store invariant |
| Store.ValidateLot | app.py:165-190 | a non-admin is refused as forbidden; an admin is refused for a blank field before a non-numeric or non-positive price or max spots; creation is accepted exactly when the caller is an admin, no field is blank and both numbers are positive |
| Store.FirstAvailable | app.py:350-354 | the chosen spot belongs to the lot and is 'A'; None exactly when the lot has no available spot |
| Store.ReleaseEffects | app.py:398-399 | once the reservation is closed, the user has no open reservation and total earnings grow by its cost |
| Store.NewSpots | app.py:206-212 | the spot-creation loop produces exactly the provisioned spots |
| Store.ParkingStore.Valid | models.py:22-90 | definition: the store invariant over lots, spots, reservations and the id counters (Invariants.StoreInvariant); every route's contract keeps it |
| Store.ParkingStore.constructor | models.py:22-90 | the empty store: no lots, spots or reservations, counters at 0, and the invariant holds |
| Store.ParkingStore.AddSpots | app.py:206-212 | the new spots are appended after the existing ones with ids from the counter, which advances by max_spots |
| Store.ParkingStore.CreateLot | app.py:165-216 | fails, changing nothing, exactly when validation fails, with the forbidden rejection exactly for a non-admin; otherwise a fresh lot with max_spots new available spots is added, reservations are unchanged, the lot counter advances by 1 and the spot counter by max_spots, and the invariant holds |
| Store.ParkingStore.EditLot | app.py:228-247 | fails, changing nothing, for a non-admin, a missing lot or an unparsable price; otherwise only name, price, address and pin code change, even for a non-positive price; the counters are unchanged |
| Store.ParkingStore.DeleteLot | app.py:255-273 | fails, changing nothing, exactly for a non-admin, a missing lot, or a lot with occupied spots (reporting how many), and with no other failure; so an admin deleting an existing lot with no occupied spot succeeds, the lot and all its spots are removed, and reservations and counters are kept |
| Store.ParkingStore.Occupy | app.py:358-366 | the spot becomes 'O' and an open reservation at the lot's current price is appended; nothing else changes |
| Store.ParkingStore.BookSpot | app.py:329-368 | fails, changing nothing, for a non-user, a user already parked, a missing lot or a full lot, in that order; otherwise exactly one 'A' spot of the lot becomes 'O' and one open reservation at the lot's price is appended; it becomes the user's open reservation, the lot's counts move by one, earnings and counters are unchanged and the invariant holds |
| Store.ParkingStore.Vacate | app.py:398-408 | the reservation is replaced by its closed form; the referenced spot, if it exists, becomes 'A' and its number is reported |
| Store.ParkingStore.ReleaseSpot | app.py:382-409 | fails, changing nothing, for a non-user or a user with no open reservation; otherwise the open reservation gets the leaving time and cost, its spot becomes 'A', the user has no open reservation, earnings grow by the cost, the counters are unchanged and the invariant holds |
| Scenarios.ReleaseTwice | app.py:387-394 | a second release in a row is refused with "no active reservation" |
| Scenarios.EditDoesNotRepriceOpenStay | models.py:107-111 | a price edit during a stay does not change what the stay costs: it is charged at the rate captured at booking |
| Scenarios.BookThenRelease | app.py:350-404 | for every store, user with no open stay and lot with a free spot: booking then releasing both succeed; the booked spot was 'A', is 'O' in between and the spots end as they began; the receipt names the spot; the cost is the lot's price at booking for the time parked; the user has no open stay and earnings grow by the cost |
| Scenarios.MallLot | app.py:193-212 | creating lot "Mall" at 10.00/hour with 2 spots gives exactly the two provisioned spots and no reservations |
| Scenarios.MallScenario | app.py:206-212 | lot "Mall" gets spots "MAL-001" and "MAL-002"; a booking takes one; releasing it after 2.5 hours costs 25.00 and frees the spot |
| Scenarios.CentralLot | app.py:193-212 | a new lot of five spots has five available and none occupied |
| Scenarios.DeleteFreeLot | app.py:262-269 | deleting a new lot of five spots, none occupied, succeeds; the lot is gone and none of its five spots remains |
| Scenarios.DeleteWhileParked | app.py:262-265 | deleting a lot while one of its spots is occupied is refused with a count of 1, and the lot remains |

## Left out

- Authentication, registration, login, logout, password hashing and the
  role redirects of `index`. They are calls into Flask-Login and werkzeug. The
  role check at the top of each route is a `Role` parameter and a `Forbidden`
  failure.
- The start-up `create_all` and the default-admin account. They are start-up
  I/O.
- Templates, flash messages and redirects. Each route's outcome is a result
  value or a `Failure` kind.
- SQLAlchemy sessions, flush, commit and rollback. Each route is atomic, and
  on failure the state is unchanged.
- The persistence-error branches (`except Exception: rollback`). Storage
  failures are outside the model.
- What the delete cascade does to historical reservations of deleted spots.
  That is ORM behaviour. The model only removes the lot and its spots; the
  reservations stay as they are, and the earnings report then returns `None`.
- SQLite's reuse of deleted row ids. Ids come from counters that only grow.
- Floating-point prices and costs, and Python's `round` on floats. Money is
  integer cents with half-to-even rounding. A price form field is an
  integer number of cents.
- `str.upper()` beyond ASCII. Only a-z are upper-cased.
- `.strip()` of form fields. The model receives the stripped strings.
- `float(request.form.get('price', 0))` in the edit route. A missing field
  arrives as the number 0. An empty or non-numeric price raises before the
  commit; the model reports that as `InvalidNumbers` and changes nothing.
- `datetime.utcnow()`. It is the `now` parameter.
- Store.ParkingStore.BookSpot: states only that the booked spot was 'A' and
  belongs to the lot, not which one. `.first()` has no ORDER BY. The body
  picks the lowest index (`Store.FirstAvailable`).
- Store.ParkingStore.ReleaseSpot: promises no non-negative cost. Nothing makes
  the clock monotonic, so a leaving time before the arrival costs a negative
  amount (`Models.NegativeDurationCosts`). A non-negative cost follows from a
  monotonic clock (`Models.CostNonNegative`).
- The order of `admin_earnings`' query (leaving time, descending). The
  breakdown follows the stored order of reservations. Its key set and values
  do not depend on the order; only the dict's iteration order would.
- Display-only listings:
  - the admin dashboard's ten most recent bookings;
  - the user dashboard's ten most recent reservations;
  - the list of lots;
  - the `view_parking_lot` and user-list pages;
  - the `total_users` count.
- Concurrent requests. The model treats each route as one atomic step.
