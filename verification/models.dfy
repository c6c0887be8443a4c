/**
 * The four ORM entities of models.py and the derived values they compute:
 * spot counts of a lot, the current reservation of a spot, the duration of a
 * reservation and its total cost.
 *
 * Money is integer cents and time is integer seconds.  The lot's price and the
 * reservation's captured rate are cents per hour.
 */
module Models {
  import opened Wrappers

  type LotId = nat
  type SpotId = nat
  type UserId = nat

  /** A ParkingLot row (models.py:22-36); `priceCents` is the price per hour. */
  datatype Lot = Lot(name: string, priceCents: int, address: string, pinCode: string, maxSpots: nat)

  /** The two values the application ever writes into ParkingSpot.status: 'A' and 'O'. */
  datatype Status = Available | Occupied

  /** A ParkingSpot row (models.py:51-63): its lot, its spot number ("MAL-001") and its status. */
  datatype Spot = Spot(id: SpotId, lot: LotId, number: string, status: Status)

  /**
   * A ParkingReservation row (models.py:76-90).  `leaving == None` means the user is
   * still parked; `rateCents` is the lot's price captured at booking time.
   */
  datatype Reservation = Reservation(
    spotId: SpotId,
    userId: UserId,
    arrival: int,
    leaving: Option<int>,
    rateCents: int,
    totalCost: Option<int>)

  const SecondsPerHour: int := 3600

  // ---------------------------------------------------------------------------
  // First match of a query filter, taken in storage order.
  // ---------------------------------------------------------------------------

  /** The lowest index whose element satisfies `p`, or None when no element does. */
  function FirstIndex<T>(s: seq<T>, p: T -> bool): (r: Option<nat>)
    ensures r.Some? ==> r.value < |s| && p(s[r.value])
    ensures r.Some? ==> forall j :: 0 <= j < r.value ==> !p(s[j])
    ensures r.None? <==> forall j :: 0 <= j < |s| ==> !p(s[j])
  {
    if s == [] then None
    else if p(s[0]) then Some(0)
    else
      match FirstIndex(s[1..], p)
      case None => None
      case Some(k) => Some(k + 1)
  }

  // ---------------------------------------------------------------------------
  // Spot counts of a lot (models.py:41-49).
  // ---------------------------------------------------------------------------

  /** The number of spots of `lot` in `spots` with status `st`. */
  function CountStatus(spots: seq<Spot>, lot: LotId, st: Status): nat
  {
    if spots == [] then 0
    else (if spots[0].lot == lot && spots[0].status == st then 1 else 0) + CountStatus(spots[1..], lot, st)
  }

  /** The number of spots that belong to `lot` (the length of the lot's spot list). */
  function LotSpotCount(spots: seq<Spot>, lot: LotId): nat
  {
    if spots == [] then 0
    else (if spots[0].lot == lot then 1 else 0) + LotSpotCount(spots[1..], lot)
  }

  /** ParkingLot.available_spots_count. */
  function AvailableSpotsCount(spots: seq<Spot>, lot: LotId): nat
  {
    CountStatus(spots, lot, Available)
  }

  /** ParkingLot.occupied_spots_count. */
  function OccupiedSpotsCount(spots: seq<Spot>, lot: LotId): nat
  {
    CountStatus(spots, lot, Occupied)
  }

  /** The number of spots of all lots with status `st`. */
  function StatusCount(spots: seq<Spot>, st: Status): nat
  {
    if spots == [] then 0
    else (if spots[0].status == st then 1 else 0) + StatusCount(spots[1..], st)
  }

  /** Over all lots, every spot is either available or occupied. */
  lemma {:induction false} StatusCountsCover(spots: seq<Spot>)
    ensures StatusCount(spots, Available) + StatusCount(spots, Occupied) == |spots|
  {
    if spots != [] {
      StatusCountsCover(spots[1..]);
    }
  }

  /** Every spot of a lot is counted exactly once, as available or as occupied. */
  lemma {:induction false} AvailablePlusOccupied(spots: seq<Spot>, lot: LotId)
    ensures AvailableSpotsCount(spots, lot) + OccupiedSpotsCount(spots, lot) == LotSpotCount(spots, lot)
  {
    if spots != [] {
      AvailablePlusOccupied(spots[1..], lot);
    }
  }

  /** A lot has no spot with status `st` exactly when its count for `st` is zero. */
  lemma {:induction false} CountStatusZero(spots: seq<Spot>, lot: LotId, st: Status)
    ensures CountStatus(spots, lot, st) == 0 <==>
              forall i :: 0 <= i < |spots| && spots[i].lot == lot ==> spots[i].status != st
  {
    if spots != [] {
      CountStatusZero(spots[1..], lot, st);
      assert forall i :: 1 <= i < |spots| ==> spots[i] == spots[1..][i - 1];
    }
  }

  /** Counts distribute over concatenation (spots added at creation time). */
  lemma {:induction false} CountStatusAppend(a: seq<Spot>, b: seq<Spot>, lot: LotId, st: Status)
    ensures CountStatus(a + b, lot, st) == CountStatus(a, lot, st) + CountStatus(b, lot, st)
    ensures LotSpotCount(a + b, lot) == LotSpotCount(a, lot) + LotSpotCount(b, lot)
  {
    if a != [] {
      assert (a + b)[1..] == a[1..] + b;
      CountStatusAppend(a[1..], b, lot, st);
    } else {
      assert a + b == b;
    }
  }

  /**
   * Changing the status of one spot moves it from one count to the other and
   * leaves the size of every lot alone.
   */
  lemma {:induction false} CountStatusUpdate(spots: seq<Spot>, k: nat, st': Status, lot: LotId, st: Status)
    requires k < |spots|
    ensures LotSpotCount(spots[k := spots[k].(status := st')], lot) == LotSpotCount(spots, lot)
    ensures CountStatus(spots[k := spots[k].(status := st')], lot, st) ==
              CountStatus(spots, lot, st)
              - (if spots[k].lot == lot && spots[k].status == st then 1 else 0)
              + (if spots[k].lot == lot && st' == st then 1 else 0)
  {
    var s' := spots[k := spots[k].(status := st')];
    if k == 0 {
      assert s'[1..] == spots[1..];
    } else {
      assert s'[1..] == spots[1..][k - 1 := spots[k].(status := st')];
      CountStatusUpdate(spots[1..], k - 1, st', lot, st);
    }
  }

  // ---------------------------------------------------------------------------
  // ParkingSpot.current_reservation (models.py:68-74).
  // ---------------------------------------------------------------------------

  /** True of a reservation that is still open and references spot `id`. */
  predicate OpenOn(r: Reservation, id: SpotId)
  {
    r.leaving.None? && r.spotId == id
  }

  /** The first reservation that references the spot and has no leaving time, if any. */
  function CurrentReservation(rs: seq<Reservation>, id: SpotId): (cur: Option<Reservation>)
    ensures cur.Some? ==> cur.value in rs && cur.value.spotId == id && cur.value.leaving.None?
    ensures cur.None? <==> forall i :: 0 <= i < |rs| ==> !OpenOn(rs[i], id)
  {
    match FirstIndex(rs, (r: Reservation) => OpenOn(r, id))
    case None => None
    case Some(k) => Some(rs[k])
  }

  /** True of a reservation that is still open and belongs to `user`. */
  predicate OpenFor(r: Reservation, user: UserId)
  {
    r.leaving.None? && r.userId == user
  }

  /**
   * The index of the user's first open reservation: the lookup book_spot,
   * release_spot and user_dashboard perform (app.py:334-337, 387-390, 302-305).
   */
  function OpenReservationOf(rs: seq<Reservation>, user: UserId): (k: Option<nat>)
    ensures k.Some? ==> k.value < |rs| && OpenFor(rs[k.value], user)
    ensures k.None? <==> forall i :: 0 <= i < |rs| ==> !OpenFor(rs[i], user)
  {
    FirstIndex(rs, (r: Reservation) => OpenFor(r, user))
  }

  /** A new open reservation of a user with none becomes that user's open reservation. */
  lemma OpenReservationOfAppend(rs: seq<Reservation>, r: Reservation)
    requires OpenReservationOf(rs, r.userId).None? && r.leaving.None?
    ensures OpenReservationOf(rs + [r], r.userId) == Some(|rs|)
  {
    assert OpenFor((rs + [r])[|rs|], r.userId);
    assert forall i :: 0 <= i < |rs| ==> (rs + [r])[i] == rs[i];
  }

  /** The index of the spot whose primary key is `id` (a lookup by primary key). */
  function SpotIndex(spots: seq<Spot>, id: SpotId): (j: Option<nat>)
    ensures j.Some? ==> j.value < |spots| && spots[j.value].id == id
    ensures j.None? <==> forall i :: 0 <= i < |spots| ==> spots[i].id != id
  {
    FirstIndex(spots, (s: Spot) => s.id == id)
  }

  // ---------------------------------------------------------------------------
  // ParkingReservation.duration_hours and calculate_total_cost (models.py:95-112).
  // ---------------------------------------------------------------------------

  /**
   * The length of the stay in seconds: up to the leaving time once the user has
   * left, up to `now` while the user is still parked.  A leaving time before the
   * arrival time gives a negative duration; nothing clamps it.
   */
  function DurationSeconds(r: Reservation, now: int): int
  {
    match r.leaving
    case Some(t) => t - r.arrival
    case None => now - r.arrival
  }

  function Abs(x: int): nat
  {
    if x < 0 then -x else x
  }

  /**
   * n / d rounded to the nearest integer, ties to the even neighbour (the rule
   * Python's `round` follows).
   */
  function RoundHalfEven(n: int, d: int): (q: int)
    requires d > 0
    ensures 2 * Abs(n - q * d) <= d
    ensures 2 * Abs(n - q * d) == d ==> q % 2 == 0
  {
    var f, rem := n / d, n % d;
    assert n == f * d + rem && 0 <= rem < d;
    if 2 * rem < d then f
    else if 2 * rem > d then
      assert n - (f + 1) * d == rem - d;
      f + 1
    else if f % 2 == 0 then f
    else
      assert n - (f + 1) * d == rem - d;
      f + 1
  }

  /**
   * calculate_total_cost: zero while the user is still parked; otherwise the
   * elapsed hours (seconds / 3600, fractions kept) times the captured rate,
   * rounded to a whole cent.
   */
  function CalculateTotalCost(r: Reservation): (cents: int)
    ensures r.leaving.None? ==> cents == 0
    ensures r.leaving.Some? ==>
      var exact := (r.leaving.value - r.arrival) * r.rateCents;
      2 * Abs(exact - cents * SecondsPerHour) <= SecondsPerHour &&
      (2 * Abs(exact - cents * SecondsPerHour) == SecondsPerHour ==> cents % 2 == 0)
  {
    match r.leaving
    case None => 0
    case Some(t) => RoundHalfEven(DurationSeconds(r, t) * r.rateCents, SecondsPerHour)
  }

  /** Closing a stay at `t` charges the rounded product of its length and its captured rate. */
  lemma ClosedStayCost(r: Reservation, t: int, arrival: int, rate: int)
    requires r.arrival == arrival && r.rateCents == rate
    ensures CalculateTotalCost(r.(leaving := Some(t))) == RoundHalfEven((t - arrival) * rate, SecondsPerHour)
  {
  }

  /** Rounding to the nearest multiple never reverses the order of two values. */
  lemma RoundHalfEvenMonotone(n1: int, n2: int, d: int)
    requires d > 0 && n1 <= n2
    ensures RoundHalfEven(n1, d) <= RoundHalfEven(n2, d)
  {
    if n1 < n2 {
      var q1, q2 := RoundHalfEven(n1, d), RoundHalfEven(n2, d);
      // Both values lie within half a step of their rounded multiples, so their
      // multiples can be at most one step apart, and then only at a tie.
      assert (q1 - q2) * d == q1 * d - q2 * d;
      MulAtLeast(q1 - q2, d);
    }
  }

  lemma MulAtLeast(k: int, d: int)
    requires d > 0
    ensures k >= 1 ==> k * d >= d
  {
  }

  /** A stay that does not go back in time at a non-negative rate costs nothing negative. */
  lemma CostNonNegative(r: Reservation)
    requires r.leaving.Some? ==> r.leaving.value >= r.arrival
    requires r.rateCents >= 0
    ensures CalculateTotalCost(r) >= 0
  {
    if r.leaving.Some? {
      var exact := (r.leaving.value - r.arrival) * r.rateCents;
      assert exact >= 0;
      RoundHalfEvenMonotone(0, exact, SecondsPerHour);
      assert RoundHalfEven(0, SecondsPerHour) == 0;
    }
  }

  /** At a fixed non-negative rate, a longer stay never costs less. */
  lemma CostMonotoneInTime(r: Reservation, t1: int, t2: int)
    requires r.rateCents >= 0 && t1 <= t2
    ensures CalculateTotalCost(r.(leaving := Some(t1))) <= CalculateTotalCost(r.(leaving := Some(t2)))
  {
    var e1, e2 := (t1 - r.arrival) * r.rateCents, (t2 - r.arrival) * r.rateCents;
    assert e2 - e1 == (t2 - t1) * r.rateCents;
    RoundHalfEvenMonotone(e1, e2, SecondsPerHour);
  }

  /**
   * The duration is not clamped: leaving more than a rounding step before the
   * arrival at a positive rate yields a negative cost.
   */
  lemma NegativeDurationCosts(r: Reservation)
    requires r.leaving.Some? && r.rateCents > 0
    requires (r.leaving.value - r.arrival) * r.rateCents < -SecondsPerHour / 2
    ensures CalculateTotalCost(r) < 0
  {
  }

  /** Fractions of an hour are charged: half an hour at 10.00 per hour costs 5.00. */
  lemma HalfHourIsCharged(r: Reservation)
    requires r.leaving == Some(r.arrival + 1800) && r.rateCents == 1000
    ensures CalculateTotalCost(r) == 500
  {
    assert DurationSeconds(r, r.leaving.value) * r.rateCents == 500 * SecondsPerHour;
  }

  /** Two and a half hours at 10.00 per hour cost 25.00. */
  lemma TwoAndAHalfHours(r: Reservation)
    requires r.leaving == Some(r.arrival + 9000) && r.rateCents == 1000
    ensures CalculateTotalCost(r) == 2500
  {
    assert DurationSeconds(r, r.leaving.value) * r.rateCents == 2500 * SecondsPerHour;
  }
}
