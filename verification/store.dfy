/**
 * The routes of app.py that change the parking tables, as methods of one
 * object holding the tables: create, edit and delete a lot (admin routes),
 * book and release a spot (user routes).  Each route is one atomic step: on
 * every rejection nothing changes.
 */
module Store {
  import opened Wrappers
  import opened Models
  import opened Labels
  import opened Reports
  import opened Invariants

  /** The role of the current user: 'admin' or 'user'. */
  datatype Role = Admin | Customer

  /**
   * A numeric form field: empty, not a number (the conversion fails),
   * or a number.  Prices are given in cents.
   */
  datatype NumInput = Blank | NotANumber | Number(value: int)

  /** The rejections of the routes (each is a flash message and a redirect in the source). */
  datatype Failure =
    | Forbidden             // the role check at the top of every route
    | MissingFields         // create: a required field is empty
    | InvalidNumbers        // create/edit: a number does not parse, or create: it is not positive
    | LotNotFound           // edit/delete/book: no lot has that id
    | LotOccupied(occupied: nat)  // delete: some of the lot's spots are occupied
    | AlreadyParked         // book: the user already has an open reservation
    | NoSpotAvailable       // book: no spot of the lot is available
    | NoActiveReservation   // release: the user has no open reservation

  /** What release reports: the freed spot's number (when the spot exists) and the total cost. */
  datatype Receipt = Receipt(spotNumber: Option<string>, cost: int)

  /** The validation at app.py:165-190, in the order the route performs it. */
  function ValidateLot(role: Role, name: string, price: NumInput, address: string,
                       pinCode: string, maxSpots: NumInput): (err: Option<Failure>)
    ensures err == Some(Forbidden) <==> role != Admin
    ensures err.None? <==>
      role == Admin && name != [] && address != [] && pinCode != [] &&
      price.Number? && price.value > 0 && maxSpots.Number? && maxSpots.value > 0
    ensures err == Some(MissingFields) <==>
      role == Admin && (name == [] || price == Blank || address == [] || pinCode == [] || maxSpots == Blank)
    ensures err == Some(InvalidNumbers) <==>
      role == Admin && name != [] && price != Blank && address != [] && pinCode != [] && maxSpots != Blank &&
      !(price.Number? && price.value > 0 && maxSpots.Number? && maxSpots.value > 0)
    ensures err.Some? ==> err.value in {Forbidden, MissingFields, InvalidNumbers}
  {
    if role != Admin then Some(Forbidden)
    else if name == [] || price.Blank? || address == [] || pinCode == [] || maxSpots.Blank? then Some(MissingFields)
    else if !price.Number? || !maxSpots.Number? || price.value <= 0 || maxSpots.value <= 0 then Some(InvalidNumbers)
    else None
  }

  /** The first spot of the lot whose status is 'A', in storage order. */
  function FirstAvailable(spots: seq<Spot>, lot: LotId): (k: Option<nat>)
    ensures k.Some? ==> k.value < |spots| && spots[k.value].lot == lot && spots[k.value].status == Available
    ensures k.None? <==> AvailableSpotsCount(spots, lot) == 0
  {
    CountStatusZero(spots, lot, Available);
    FirstIndex(spots, (s: Spot) => s.lot == lot && s.status == Available)
  }

  /** Closing the user's open reservation at `k` leaves the user with none and adds its cost to the earnings. */
  lemma ReleaseEffects(rs: seq<Reservation>, k: nat, now: int)
    requires OneOpenPerUser(rs) && k < |rs| && rs[k].leaving.None?
    ensures OpenReservationOf(rs[k := Closed(rs[k], now)], rs[k].userId).None?
    ensures TotalEarnings(rs[k := Closed(rs[k], now)]) == TotalEarnings(rs) + Closed(rs[k], now).totalCost.value
  {
    var rs' := rs[k := Closed(rs[k], now)];
    TotalEarningsUpdate(rs, k, Closed(rs[k], now));
    forall i | 0 <= i < |rs'|
      ensures !OpenFor(rs'[i], rs[k].userId)
    {
      if i != k {
        assert rs'[i] == rs[i];
      }
    }
  }

  /**
   * The spot-creation loop of create_parking_lot (app.py:206-212): spots
   * 1..count of lot `id`, numbered by SpotLabel, all 'A', with ids from `first`.
   */
  method NewSpots(first: SpotId, id: LotId, name: string, count: nat) returns (added: seq<Spot>)
    ensures added == ProvisionedSpots(first, id, name, count)
  {
    added := [];
    for n := 1 to count + 1
      invariant added == ProvisionedSpots(first, id, name, n - 1)
    {
      var spot := Spot(first + n - 1, id, SpotLabel(name, n), Available);
      assert ProvisionedSpots(first, id, name, n) == added + [spot];
      added := added + [spot];
    }
  }

  class ParkingStore {
    var lots: map<LotId, Lot>
    var spots: seq<Spot>
    var reservations: seq<Reservation>
    var nextLotId: nat
    var nextSpotId: nat

    ghost predicate Valid()
      reads this
    {
      StoreInvariant(lots, spots, reservations, nextLotId, nextSpotId)
    }

    constructor ()
      ensures Valid()
      ensures lots == map[] && spots == [] && reservations == [] && nextLotId == 0 && nextSpotId == 0
    {
      lots, spots, reservations := map[], [], [];
      nextLotId, nextSpotId := 0, 0;
    }

    /** create_parking_lot (app.py:169-216). */
    method CreateLot(role: Role, name: string, price: NumInput, address: string,
                     pinCode: string, maxSpots: NumInput)
      returns (result: Result<LotId, Failure>)
      requires Valid()
      modifies this
      ensures Valid()
      ensures result == Failure(Forbidden) <==> role != Admin
      ensures result.Failure? <==> ValidateLot(role, name, price, address, pinCode, maxSpots).Some?
      ensures result.Failure? ==>
        Some(result.error) == ValidateLot(role, name, price, address, pinCode, maxSpots) && unchanged(this)
      ensures result.Success? ==>
        var id := result.value;
        var count := maxSpots.value as nat;
        && id !in old(lots)
        && lots == old(lots)[id := Lot(name, price.value, address, pinCode, count)]
        && spots == old(spots) + ProvisionedSpots(old(nextSpotId), id, name, count)
        && reservations == old(reservations)
        && nextLotId == old(nextLotId) + 1 && nextSpotId == old(nextSpotId) + count
        && LotSpotCount(spots, id) == count
        && AvailableSpotsCount(spots, id) == count
        && OccupiedSpotsCount(spots, id) == 0
    {
      var err := ValidateLot(role, name, price, address, pinCode, maxSpots);
      if err.Some? {
        return Failure(err.value);
      }
      var count := maxSpots.value as nat;
      var id := nextLotId;
      var first := nextSpotId;
      ghost var oldSpots := spots;
      CreateKeepsInvariant(lots, spots, reservations, nextLotId, nextSpotId,
                           Lot(name, price.value, address, pinCode, count));
      lots := lots[id := Lot(name, price.value, address, pinCode, count)];
      nextLotId := nextLotId + 1;
      AddSpots(id, name, count);
      NewLotCounts(oldSpots, old(lots), first, id, name, count);
      return Success(id);
    }

    /**
     * Adds the spots of a new lot, built by NewSpots, with fresh ids.  A step of
     * CreateLot only: on its own it does not keep Valid().
     */
    method AddSpots(id: LotId, name: string, count: nat)
      modifies this
      ensures spots == old(spots) + ProvisionedSpots(old(nextSpotId), id, name, count)
      ensures nextSpotId == old(nextSpotId) + count
      ensures lots == old(lots) && reservations == old(reservations) && nextLotId == old(nextLotId)
    {
      var added := NewSpots(nextSpotId, id, name, count);
      spots := spots + added;
      nextSpotId := nextSpotId + count;
    }

    /** edit_parking_lot (app.py:232-247): name, price, address and pin code are replaced. */
    method EditLot(role: Role, lotId: LotId, name: string, price: NumInput, address: string, pinCode: string)
      returns (result: Outcome<Failure>)
      requires Valid()
      modifies this
      ensures Valid()
      ensures result == Fail(Forbidden) <==> role != Admin
      ensures result == Fail(LotNotFound) <==> role == Admin && lotId !in old(lots)
      ensures result == Fail(InvalidNumbers) <==> role == Admin && lotId in old(lots) && !price.Number?
      ensures result.Fail? ==> result.error in {Forbidden, LotNotFound, InvalidNumbers} && unchanged(this)
      ensures result.Pass? ==>
        && lots == old(lots)[lotId := old(lots)[lotId].(name := name, priceCents := price.value,
                                                         address := address, pinCode := pinCode)]
        && lots[lotId].maxSpots == old(lots)[lotId].maxSpots
        && spots == old(spots)
        && reservations == old(reservations)
        && nextLotId == old(nextLotId) && nextSpotId == old(nextSpotId)
    {
      if role != Admin {
        return Fail(Forbidden);
      }
      if lotId !in lots {
        return Fail(LotNotFound);
      }
      if !price.Number? {
        return Fail(InvalidNumbers);
      }
      var lot := lots[lotId].(name := name, priceCents := price.value, address := address, pinCode := pinCode);
      EditKeepsInvariant(lots, spots, reservations, nextLotId, nextSpotId, lotId, lot);
      lots := lots[lotId := lot];
      return Pass;
    }

    /** delete_parking_lot (app.py:259-273): refused while any of the lot's spots is occupied. */
    method DeleteLot(role: Role, lotId: LotId) returns (result: Outcome<Failure>)
      requires Valid()
      modifies this
      ensures Valid()
      ensures result == Fail(Forbidden) <==> role != Admin
      ensures result == Fail(LotNotFound) <==> role == Admin && lotId !in old(lots)
      ensures result == Fail(LotOccupied(OccupiedSpotsCount(old(spots), lotId))) <==>
        role == Admin && lotId in old(lots) && OccupiedSpotsCount(old(spots), lotId) > 0
      ensures result.Fail? ==>
        (result.error in {Forbidden, LotNotFound} || result.error == LotOccupied(OccupiedSpotsCount(old(spots), lotId))) &&
        unchanged(this)
      ensures result.Pass? ==>
        && lots == old(lots) - {lotId}
        && spots == SpotsOutside(old(spots), lotId)
        && reservations == old(reservations)
        && nextLotId == old(nextLotId) && nextSpotId == old(nextSpotId)
    {
      if role != Admin {
        return Fail(Forbidden);
      }
      if lotId !in lots {
        return Fail(LotNotFound);
      }
      var occupied := OccupiedSpotsCount(spots, lotId);
      if occupied > 0 {
        return Fail(LotOccupied(occupied));
      }
      DeleteKeepsInvariant(lots, spots, reservations, nextLotId, nextSpotId, lotId);
      lots := lots - {lotId};
      spots := SpotsOutside(spots, lotId);
      return Pass;
    }

    /**
     * The state change of a successful book_spot (app.py:356-366): spot `k`
     * becomes 'O' and an open reservation for `user` on it is appended, at the
     * price its lot has now.  A step of BookSpot only: on its own it does not
     * keep Valid().
     */
    method Occupy(k: nat, user: UserId, now: int)
      requires k < |spots| && spots[k].lot in lots
      modifies this
      ensures spots == old(spots)[k := old(spots)[k].(status := Occupied)]
      ensures reservations == old(reservations) +
        [Reservation(old(spots)[k].id, user, now, None, old(lots)[old(spots)[k].lot].priceCents, None)]
      ensures lots == old(lots) && nextLotId == old(nextLotId) && nextSpotId == old(nextSpotId)
    {
      var r := Reservation(spots[k].id, user, now, None, lots[spots[k].lot].priceCents, None);
      spots := spots[k := spots[k].(status := Occupied)];
      reservations := reservations + [r];
    }

    /**
     * book_spot (app.py:333-368).  On success the result is the index of the
     * booked spot.
     */
    method BookSpot(role: Role, user: UserId, lotId: LotId, now: int) returns (result: Result<nat, Failure>)
      requires Valid()
      modifies this
      ensures Valid()
      ensures result == Failure(Forbidden) <==> role != Customer
      ensures result == Failure(AlreadyParked) <==>
        role == Customer && OpenReservationOf(old(reservations), user).Some?
      ensures result == Failure(LotNotFound) <==>
        role == Customer && OpenReservationOf(old(reservations), user).None? && lotId !in old(lots)
      ensures result == Failure(NoSpotAvailable) <==>
        role == Customer && OpenReservationOf(old(reservations), user).None? && lotId in old(lots) &&
        AvailableSpotsCount(old(spots), lotId) == 0
      ensures result.Failure? ==>
        result.error in {Forbidden, AlreadyParked, LotNotFound, NoSpotAvailable} && unchanged(this)
      ensures result.Success? ==>
        var k := result.value;
        && k < |old(spots)|
        && old(spots)[k].lot == lotId && old(spots)[k].status == Available
        && spots == old(spots)[k := old(spots)[k].(status := Occupied)]
        && reservations == old(reservations) +
             [Reservation(old(spots)[k].id, user, now, None, old(lots)[lotId].priceCents, None)]
        && lots == old(lots)
        && nextLotId == old(nextLotId) && nextSpotId == old(nextSpotId)
        && OpenReservationOf(reservations, user) == Some(|reservations| - 1)
        && AvailableSpotsCount(spots, lotId) == old(AvailableSpotsCount(spots, lotId)) - 1
        && OccupiedSpotsCount(spots, lotId) == old(OccupiedSpotsCount(spots, lotId)) + 1
        && TotalEarnings(reservations) == old(TotalEarnings(reservations))
    {
      if role != Customer {
        return Failure(Forbidden);
      }
      if OpenReservationOf(reservations, user).Some? {
        return Failure(AlreadyParked);
      }
      if lotId !in lots {
        return Failure(LotNotFound);
      }
      var found := FirstAvailable(spots, lotId);
      if found.None? {
        return Failure(NoSpotAvailable);
      }
      var k := found.value;
      BookKeepsInvariant(lots, spots, reservations, nextLotId, nextSpotId, k, user, now);
      var r := Reservation(spots[k].id, user, now, None, lots[lotId].priceCents, None);
      CountStatusUpdate(spots, k, Occupied, lotId, Available);
      CountStatusUpdate(spots, k, Occupied, lotId, Occupied);
      TotalEarningsAppend(reservations, [r]);
      assert [r][..0] == [];
      OpenReservationOfAppend(reservations, r);
      Occupy(k, user, now);
      return Success(k);
    }

    /**
     * The state change of a successful release_spot (app.py:398-404): the
     * reservation at `k` is replaced by its closed form, and the spot it
     * references, if it still exists, becomes 'A'.  The result is that spot's
     * number.  A step of ReleaseSpot only: on its own it does not keep Valid().
     */
    method Vacate(k: nat, closed: Reservation) returns (number: Option<string>)
      requires k < |reservations|
      modifies this
      ensures reservations == old(reservations)[k := closed]
      ensures spots == Freed(old(spots), closed.spotId)
      ensures number.Some? <==> SpotIndex(old(spots), closed.spotId).Some?
      ensures number.Some? ==> number.value == old(spots)[SpotIndex(old(spots), closed.spotId).value].number
      ensures lots == old(lots) && nextLotId == old(nextLotId) && nextSpotId == old(nextSpotId)
    {
      reservations := reservations[k := closed];
      var j := SpotIndex(spots, closed.spotId);
      number := None;
      if j.Some? {
        number := Some(spots[j.value].number);
        spots := spots[j.value := spots[j.value].(status := Available)];
      }
    }

    /** release_spot (app.py:387-406). */
    method ReleaseSpot(role: Role, user: UserId, now: int) returns (result: Result<Receipt, Failure>)
      requires Valid()
      modifies this
      ensures Valid()
      ensures result == Failure(Forbidden) <==> role != Customer
      ensures result == Failure(NoActiveReservation) <==>
        role == Customer && OpenReservationOf(old(reservations), user).None?
      ensures result.Failure? ==> result.error in {Forbidden, NoActiveReservation} && unchanged(this)
      ensures result.Success? ==>
        var k := OpenReservationOf(old(reservations), user).value;
        var r := old(reservations)[k];
        var cost := CalculateTotalCost(r.(leaving := Some(now)));
        && result.value.cost == cost
        && reservations == old(reservations)[k := r.(leaving := Some(now), totalCost := Some(cost))]
        && SpotIndex(old(spots), r.spotId).Some?
        && (var j := SpotIndex(old(spots), r.spotId).value;
            spots == old(spots)[j := old(spots)[j].(status := Available)] &&
            result.value.spotNumber == Some(old(spots)[j].number))
        && lots == old(lots)
        && nextLotId == old(nextLotId) && nextSpotId == old(nextSpotId)
        && OpenReservationOf(reservations, user).None?
        && TotalEarnings(reservations) == old(TotalEarnings(reservations)) + cost
    {
      if role != Customer {
        return Failure(Forbidden);
      }
      var found := OpenReservationOf(reservations, user);
      if found.None? {
        return Failure(NoActiveReservation);
      }
      var k := found.value;
      ReleaseKeepsInvariant(lots, spots, reservations, nextLotId, nextSpotId, k, now);
      ReleaseEffects(reservations, k, now);
      var closed := Closed(reservations[k], now);
      var number := Vacate(k, closed);
      return Success(Receipt(number, closed.totalCost.value));
    }
  }
}
