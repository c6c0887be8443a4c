/**
 * Properties that span several routes, written as client methods of the store:
 * what a caller can conclude from the routes' contracts alone.
 */
module Scenarios {
  import opened Wrappers
  import opened Models
  import opened Labels
  import opened Reports
  import opened Invariants
  import opened Store

  /** Releasing twice in a row: the second release is refused and changes nothing. */
  method ReleaseTwice(store: ParkingStore, user: UserId, t1: int, t2: int)
    returns (first: Result<Receipt, Failure>, second: Result<Receipt, Failure>)
    requires store.Valid()
    modifies store
    ensures store.Valid()
    ensures second == Failure(NoActiveReservation)
    ensures first.Success? <==> OpenReservationOf(old(store.reservations), user).Some?
  {
    first := store.ReleaseSpot(Customer, user, t1);
    second := store.ReleaseSpot(Customer, user, t2);
  }

  /**
   * Editing the lot's price while a user is parked does not change what that
   * user pays: the cost is computed from the rate captured at booking.
   */
  method EditDoesNotRepriceOpenStay(store: ParkingStore, user: UserId, lotId: LotId,
                                    t1: int, t2: int, newPrice: int)
    returns (released: Result<Receipt, Failure>)
    requires store.Valid()
    requires OpenReservationOf(store.reservations, user).None?
    requires lotId in store.lots && AvailableSpotsCount(store.spots, lotId) > 0
    modifies store
    ensures store.Valid()
    ensures lotId in store.lots && store.lots[lotId].priceCents == newPrice
    ensures released.Success?
    ensures released.value.cost == RoundHalfEven((t2 - t1) * old(store.lots[lotId].priceCents), SecondsPerHour)
  {
    ghost var price := store.lots[lotId].priceCents;
    var booked := store.BookSpot(Customer, user, lotId, t1);
    ghost var rs := store.reservations;
    ghost var n := |rs|;
    assert OpenReservationOf(rs, user) == Some(n - 1);
    assert rs[n - 1].arrival == t1 && rs[n - 1].rateCents == price;
    var lot := store.lots[lotId];
    var edited := store.EditLot(Admin, lotId, lot.name, Number(newPrice), lot.address, lot.pinCode);
    assert store.reservations == rs;
    released := store.ReleaseSpot(Customer, user, t2);
    ClosedStayCost(rs[n - 1], t2, t1, price);
  }

  /**
   * Booking a spot and then releasing it: both succeed, the spot goes from 'A'
   * to 'O' and back to 'A', and the stay is charged at the lot's price at
   * booking time for the time parked.
   */
  method BookThenRelease(store: ParkingStore, user: UserId, lotId: LotId, t1: int, t2: int)
    returns (booked: Result<nat, Failure>, during: Status, released: Result<Receipt, Failure>)
    requires store.Valid()
    requires OpenReservationOf(store.reservations, user).None?
    requires lotId in store.lots && AvailableSpotsCount(store.spots, lotId) > 0
    modifies store
    ensures store.Valid()
    ensures booked.Success? && released.Success?
    ensures booked.value < |old(store.spots)| && old(store.spots)[booked.value].status == Available
    ensures during == Occupied
    ensures store.spots == old(store.spots)
    ensures released.value.spotNumber == Some(old(store.spots)[booked.value].number)
    ensures released.value.cost == RoundHalfEven((t2 - t1) * old(store.lots[lotId].priceCents), SecondsPerHour)
    ensures OpenReservationOf(store.reservations, user).None?
    ensures TotalEarnings(store.reservations) == old(TotalEarnings(store.reservations)) + released.value.cost
  {
    ghost var price := store.lots[lotId].priceCents;
    booked := store.BookSpot(Customer, user, lotId, t1);
    var k := booked.value;
    during := store.spots[k].status;
    ghost var s1 := store.spots;
    ghost var rs := store.reservations;
    ghost var n := |rs|;
    assert rs[n - 1].arrival == t1 && rs[n - 1].rateCents == price && rs[n - 1].spotId == s1[k].id;
    SpotIndexOfOwnId(s1, k);
    released := store.ReleaseSpot(Customer, user, t2);
    ClosedStayCost(rs[n - 1], t2, t1, price);
    assert store.spots == s1[k := s1[k].(status := Available)];
  }

  /** A new store with one lot "Mall" at 10.00 per hour and two spots. */
  method MallLot() returns (store: ParkingStore, id: LotId)
    ensures fresh(store) && store.Valid()
    ensures store.spots == ProvisionedSpots(0, id, "Mall", 2)
    ensures store.reservations == [] && id in store.lots && store.lots[id].priceCents == 1000
  {
    store := new ParkingStore();
    var created := store.CreateLot(Admin, "Mall", Number(1000), "1 Main Road", "560001", Number(2));
    id := created.value;
  }

  /**
   * The lot "Mall" gets spots "MAL-001" and "MAL-002", both available; a
   * booking takes one of them, and releasing it after two and a half hours
   * costs 25.00 and frees the spot again.
   */
  method MallScenario() returns (numbers: seq<string>, booked: string, cost: int, freed: bool)
    ensures numbers == ["MAL-001", "MAL-002"]
    ensures booked in numbers
    ensures cost == 2500
    ensures freed
  {
    var store, id := MallLot();
    ProvisionedSpotsAt(0, id, "Mall", 2);
    MallSpotNumbers();
    numbers := [store.spots[0].number, store.spots[1].number];
    var b := store.BookSpot(Customer, 7, id, 0);
    var k := b.value;
    booked := store.spots[k].number;
    var r := Reservation(store.spots[k].id, 7, 0, None, 1000, None);
    assert store.reservations == [r];
    var released := store.ReleaseSpot(Customer, 7, 9000);
    TwoAndAHalfHours(r.(leaving := Some(9000)));
    cost := released.value.cost;
    freed := store.spots[k].status == Available;
  }

  /** A new store with one lot "Central" of five free spots. */
  method CentralLot() returns (store: ParkingStore, id: LotId)
    ensures fresh(store) && store.Valid()
    ensures store.lots.Keys == {id} && store.reservations == []
    ensures AvailableSpotsCount(store.spots, id) == 5 && OccupiedSpotsCount(store.spots, id) == 0
  {
    store := new ParkingStore();
    var created := store.CreateLot(Admin, "Central", Number(500), "2 Station Road", "560002", Number(5));
    id := created.value;
  }

  /** Deleting a lot of five spots none of which is occupied succeeds and removes the lot with its spots. */
  method DeleteFreeLot() returns (result: Outcome<Failure>, spotsBefore: nat, spotsAfter: nat, lotsLeft: nat)
    ensures result == Pass
    ensures spotsBefore == 5 && spotsAfter == 0
    ensures lotsLeft == 0
  {
    var store, id := CentralLot();
    AvailablePlusOccupied(store.spots, id);
    spotsBefore := LotSpotCount(store.spots, id);
    result := store.DeleteLot(Admin, id);
    spotsAfter := LotSpotCount(store.spots, id);
    lotsLeft := |store.lots.Keys|;
  }

  /** Deleting a lot of five spots while one of them is occupied is refused, naming one occupied spot. */
  method DeleteWhileParked() returns (result: Outcome<Failure>, lotsLeft: nat)
    ensures result == Fail(LotOccupied(1))
    ensures lotsLeft == 1
  {
    var store, id := CentralLot();
    var b := store.BookSpot(Customer, 3, id, 100);
    result := store.DeleteLot(Admin, id);
    lotsLeft := |store.lots.Keys|;
  }
}
