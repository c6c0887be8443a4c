/**
 * The consistency conditions of the parking store's four tables, stated over
 * plain values, and one lemma per state-changing route showing that the route's
 * new state satisfies them again.
 *
 * The two conditions the application exists to keep are OneOpenPerUser (a user
 * is never parked twice) and OccupiedIffOpen together with OneOpenPerSpot (a
 * spot is 'O' exactly when one open reservation references it).
 */
module Invariants {
  import opened Wrappers
  import opened Models
  import opened Labels

  ghost predicate HasOpenOn(rs: seq<Reservation>, id: SpotId)
  {
    exists i :: 0 <= i < |rs| && OpenOn(rs[i], id)
  }

  ghost predicate HasSpot(spots: seq<Spot>, id: SpotId)
  {
    exists j :: 0 <= j < |spots| && spots[j].id == id
  }

  predicate SpotIdsDistinct(spots: seq<Spot>)
  {
    forall i, j :: 0 <= i < j < |spots| ==> spots[i].id != spots[j].id
  }

  /** Every spot belongs to an existing lot. */
  predicate SpotsInLots(spots: seq<Spot>, lots: map<LotId, Lot>)
  {
    forall j :: 0 <= j < |spots| ==> spots[j].lot in lots
  }

  /** The id counters are ahead of every id in use. */
  predicate IdsBelow(lots: map<LotId, Lot>, spots: seq<Spot>, nextLotId: nat, nextSpotId: nat)
  {
    (forall k :: k in lots ==> k < nextLotId) &&
    (forall j :: 0 <= j < |spots| ==> spots[j].id < nextSpotId)
  }

  /** `maximum_number_of_spots` is the number of spots the lot has. */
  predicate CapacityMatches(spots: seq<Spot>, lots: map<LotId, Lot>)
  {
    forall k :: k in lots ==> LotSpotCount(spots, k) == lots[k].maxSpots
  }

  /** A user holds at most one open reservation. */
  predicate OneOpenPerUser(rs: seq<Reservation>)
  {
    forall i, j :: 0 <= i < j < |rs| && rs[i].leaving.None? && rs[j].leaving.None? ==> rs[i].userId != rs[j].userId
  }

  /** A spot is referenced by at most one open reservation. */
  predicate OneOpenPerSpot(rs: seq<Reservation>)
  {
    forall i, j :: 0 <= i < j < |rs| && rs[i].leaving.None? && rs[j].leaving.None? ==> rs[i].spotId != rs[j].spotId
  }

  /** A spot is occupied exactly when an open reservation references it. */
  ghost predicate OccupiedIffOpen(spots: seq<Spot>, rs: seq<Reservation>)
  {
    forall j :: 0 <= j < |spots| ==> (spots[j].status == Occupied <==> HasOpenOn(rs, spots[j].id))
  }

  /** Every open reservation references an existing spot. */
  ghost predicate OpenOnLiveSpot(spots: seq<Spot>, rs: seq<Reservation>)
  {
    forall i :: 0 <= i < |rs| && rs[i].leaving.None? ==> HasSpot(spots, rs[i].spotId)
  }

  /** The total cost is recorded exactly when the leaving time is. */
  predicate CostIffLeft(rs: seq<Reservation>)
  {
    forall i :: 0 <= i < |rs| ==> (rs[i].leaving.Some? <==> rs[i].totalCost.Some?)
  }

  ghost predicate StoreInvariant(lots: map<LotId, Lot>, spots: seq<Spot>, rs: seq<Reservation>, nextLotId: nat, nextSpotId: nat)
  {
    && SpotIdsDistinct(spots)
    && SpotsInLots(spots, lots)
    && IdsBelow(lots, spots, nextLotId, nextSpotId)
    && CapacityMatches(spots, lots)
    && OneOpenPerUser(rs)
    && OneOpenPerSpot(rs)
    && OccupiedIffOpen(spots, rs)
    && OpenOnLiveSpot(spots, rs)
    && CostIffLeft(rs)
  }

  // ---------------------------------------------------------------------------
  // Counting facts used below.
  // ---------------------------------------------------------------------------

  lemma {:induction false} LotSpotCountNone(spots: seq<Spot>, lot: LotId)
    requires forall j :: 0 <= j < |spots| ==> spots[j].lot != lot
    ensures LotSpotCount(spots, lot) == 0
  {
    if spots != [] {
      LotSpotCountNone(spots[1..], lot);
    }
  }

  lemma {:induction false} CountStatusAll(spots: seq<Spot>, lot: LotId)
    requires forall j :: 0 <= j < |spots| ==> spots[j].lot == lot && spots[j].status == Available
    ensures LotSpotCount(spots, lot) == |spots|
    ensures CountStatus(spots, lot, Available) == |spots|
    ensures CountStatus(spots, lot, Occupied) == 0
  {
    if spots != [] {
      CountStatusAll(spots[1..], lot);
    }
  }

  // ---------------------------------------------------------------------------
  // Lot creation: the spots provisioned by the loop at app.py:206-212.
  // ---------------------------------------------------------------------------

  /**
   * The `count` spots created for a new lot, the n-th (from 1) with id
   * `firstId + n - 1`, spot number SpotLabel(name, n) and status 'A'.
   */
  function ProvisionedSpots(firstId: SpotId, lot: LotId, name: string, count: nat): (s: seq<Spot>)
    ensures |s| == count
  {
    if count == 0 then []
    else ProvisionedSpots(firstId, lot, name, count - 1) + [Spot(firstId + count - 1, lot, SpotLabel(name, count), Available)]
  }

  /** The i-th provisioned spot (from 0) has id `firstId + i` and number SpotLabel(name, i + 1), and is free. */
  lemma {:induction false} ProvisionedSpotsAt(firstId: SpotId, lot: LotId, name: string, count: nat)
    ensures forall i :: 0 <= i < count ==>
      ProvisionedSpots(firstId, lot, name, count)[i] == Spot(firstId + i, lot, SpotLabel(name, i + 1), Available)
  {
    if count > 0 {
      ProvisionedSpotsAt(firstId, lot, name, count - 1);
      var prev := ProvisionedSpots(firstId, lot, name, count - 1);
      var s := ProvisionedSpots(firstId, lot, name, count);
      assert s == prev + [Spot(firstId + count - 1, lot, SpotLabel(name, count), Available)];
      forall i | 0 <= i < count
        ensures s[i] == Spot(firstId + i, lot, SpotLabel(name, i + 1), Available)
      {
        if i < count - 1 {
          assert s[i] == prev[i];
        }
      }
    }
  }

  /** A new lot has exactly `count` spots, all available. */
  lemma ProvisionedSpotsFacts(firstId: SpotId, lot: LotId, name: string, count: nat)
    ensures var s := ProvisionedSpots(firstId, lot, name, count);
      && LotSpotCount(s, lot) == count
      && AvailableSpotsCount(s, lot) == count
      && OccupiedSpotsCount(s, lot) == 0
  {
    ProvisionedSpotsAt(firstId, lot, name, count);
    CountStatusAll(ProvisionedSpots(firstId, lot, name, count), lot);
  }

  /** The spots of a new lot have pairwise distinct spot numbers. */
  lemma ProvisionedNumbersDistinct(firstId: SpotId, lot: LotId, name: string, count: nat)
    ensures forall i, j :: 0 <= i < j < count ==>
      ProvisionedSpots(firstId, lot, name, count)[i].number != ProvisionedSpots(firstId, lot, name, count)[j].number
  {
    var s := ProvisionedSpots(firstId, lot, name, count);
    ProvisionedSpotsAt(firstId, lot, name, count);
    forall i, j | 0 <= i < j < count
      ensures s[i].number != s[j].number
    {
      SpotLabelInjective(name, i + 1, j + 1);
    }
  }

  /** Right after creation, the new lot's spots are exactly the provisioned ones, all available. */
  lemma NewLotCounts(spots: seq<Spot>, lots: map<LotId, Lot>, firstId: SpotId, id: LotId, name: string, count: nat)
    requires SpotsInLots(spots, lots) && id !in lots
    ensures var s := spots + ProvisionedSpots(firstId, id, name, count);
      && LotSpotCount(s, id) == count
      && AvailableSpotsCount(s, id) == count
      && OccupiedSpotsCount(s, id) == 0
  {
    var p := ProvisionedSpots(firstId, id, name, count);
    CountStatusAppend(spots, p, id, Available);
    CountStatusAppend(spots, p, id, Occupied);
    ProvisionedSpotsFacts(firstId, id, name, count);
    LotSpotCountNone(spots, id);
    AvailablePlusOccupied(spots, id);
  }

  /** The new lot's spots come after the existing ones, with fresh ids and in a fresh lot. */
  lemma CreateKeepsShape(lots: map<LotId, Lot>, spots: seq<Spot>, nextLotId: nat, nextSpotId: nat, lot: Lot)
    requires SpotIdsDistinct(spots) && SpotsInLots(spots, lots)
    requires IdsBelow(lots, spots, nextLotId, nextSpotId) && CapacityMatches(spots, lots)
    ensures var spots' := spots + ProvisionedSpots(nextSpotId, nextLotId, lot.name, lot.maxSpots);
      var lots' := lots[nextLotId := lot];
      && SpotIdsDistinct(spots') && SpotsInLots(spots', lots')
      && IdsBelow(lots', spots', nextLotId + 1, nextSpotId + lot.maxSpots)
      && CapacityMatches(spots', lots')
  {
    var p := ProvisionedSpots(nextSpotId, nextLotId, lot.name, lot.maxSpots);
    ProvisionedSpotsAt(nextSpotId, nextLotId, lot.name, lot.maxSpots);
    var spots', lots' := spots + p, lots[nextLotId := lot];
    assert forall j :: 0 <= j < |spots| ==> spots'[j] == spots[j];
    assert forall j :: |spots| <= j < |spots'| ==> spots'[j] == p[j - |spots|];
    forall k | k in lots'
      ensures LotSpotCount(spots', k) == lots'[k].maxSpots
    {
      CountStatusAppend(spots, p, k, Available);
      if k == nextLotId {
        LotSpotCountNone(spots, k);
        ProvisionedSpotsFacts(nextSpotId, nextLotId, lot.name, lot.maxSpots);
      } else {
        LotSpotCountNone(p, k);
      }
    }
  }

  /** No open reservation references a new spot, and every new spot is free. */
  lemma CreateKeepsOccupancy(spots: seq<Spot>, rs: seq<Reservation>, nextSpotId: nat, id: LotId, name: string, count: nat)
    requires OccupiedIffOpen(spots, rs) && OpenOnLiveSpot(spots, rs)
    requires forall j :: 0 <= j < |spots| ==> spots[j].id < nextSpotId
    ensures var spots' := spots + ProvisionedSpots(nextSpotId, id, name, count);
      OccupiedIffOpen(spots', rs) && OpenOnLiveSpot(spots', rs)
  {
    var p := ProvisionedSpots(nextSpotId, id, name, count);
    ProvisionedSpotsAt(nextSpotId, id, name, count);
    var spots' := spots + p;
    assert forall j :: 0 <= j < |spots| ==> spots'[j] == spots[j];
    // Open reservations reference existing spots, whose ids are below the new ones.
    forall i | 0 <= i < |rs| && rs[i].leaving.None?
      ensures rs[i].spotId < nextSpotId && HasSpot(spots', rs[i].spotId)
    {
      var j :| 0 <= j < |spots| && spots[j].id == rs[i].spotId;
      assert spots'[j].id == rs[i].spotId;
    }
    forall j | |spots| <= j < |spots'|
      ensures spots'[j].status == Occupied <==> HasOpenOn(rs, spots'[j].id)
    {
      assert spots'[j] == p[j - |spots|];
    }
  }

  lemma CreateKeepsInvariant(lots: map<LotId, Lot>, spots: seq<Spot>, rs: seq<Reservation>,
                             nextLotId: nat, nextSpotId: nat, lot: Lot)
    requires StoreInvariant(lots, spots, rs, nextLotId, nextSpotId)
    ensures StoreInvariant(lots[nextLotId := lot],
                           spots + ProvisionedSpots(nextSpotId, nextLotId, lot.name, lot.maxSpots),
                           rs, nextLotId + 1, nextSpotId + lot.maxSpots)
  {
    CreateKeepsShape(lots, spots, nextLotId, nextSpotId, lot);
    CreateKeepsOccupancy(spots, rs, nextSpotId, nextLotId, lot.name, lot.maxSpots);
  }

  // ---------------------------------------------------------------------------
  // Lot edit (app.py:236-239): only the descriptive fields and the price change.
  // ---------------------------------------------------------------------------

  lemma EditKeepsInvariant(lots: map<LotId, Lot>, spots: seq<Spot>, rs: seq<Reservation>,
                           nextLotId: nat, nextSpotId: nat, id: LotId, lot': Lot)
    requires StoreInvariant(lots, spots, rs, nextLotId, nextSpotId)
    requires id in lots && lot'.maxSpots == lots[id].maxSpots
    ensures StoreInvariant(lots[id := lot'], spots, rs, nextLotId, nextSpotId)
  {
  }

  // ---------------------------------------------------------------------------
  // Lot deletion (app.py:262-268): the lot goes and its spots go with it.
  // ---------------------------------------------------------------------------

  /** With distinct spot ids, looking a spot up by its own id finds that spot. */
  lemma SpotIndexOfOwnId(spots: seq<Spot>, k: nat)
    requires SpotIdsDistinct(spots) && k < |spots|
    ensures SpotIndex(spots, spots[k].id) == Some(k)
  {
    var j := SpotIndex(spots, spots[k].id);
    assert j.Some?;
    assert spots[j.value].id == spots[k].id;
  }

  /** The spots left once the spots of `lot` are deleted, in their original order. */
  function SpotsOutside(spots: seq<Spot>, lot: LotId): (r: seq<Spot>)
    ensures forall x :: x in r <==> x in spots && x.lot != lot
    ensures forall k :: k != lot ==> LotSpotCount(r, k) == LotSpotCount(spots, k)
    ensures LotSpotCount(r, lot) == 0
  {
    if spots == [] then []
    else if spots[0].lot == lot then SpotsOutside(spots[1..], lot)
    else [spots[0]] + SpotsOutside(spots[1..], lot)
  }

  lemma TailDistinct(spots: seq<Spot>)
    requires spots != [] && SpotIdsDistinct(spots)
    ensures SpotIdsDistinct(spots[1..])
    ensures forall x :: x in spots[1..] ==> x.id != spots[0].id
  {
    forall i, j | 0 <= i < j < |spots| - 1
      ensures spots[1..][i].id != spots[1..][j].id
    {
      assert spots[1..][i] == spots[i + 1] && spots[1..][j] == spots[j + 1];
    }
  }

  lemma ConsDistinct(s: Spot, r: seq<Spot>)
    requires SpotIdsDistinct(r)
    requires forall x :: x in r ==> x.id != s.id
    ensures SpotIdsDistinct([s] + r)
  {
    var r' := [s] + r;
    forall i, j | 0 <= i < j < |r'|
      ensures r'[i].id != r'[j].id
    {
      assert r'[j] == r[j - 1];
      if i == 0 {
        assert r[j - 1] in r;
      } else {
        assert r'[i] == r[i - 1];
      }
    }
  }

  lemma {:induction false} SpotsOutsideDistinct(spots: seq<Spot>, lot: LotId)
    requires SpotIdsDistinct(spots)
    ensures SpotIdsDistinct(SpotsOutside(spots, lot))
  {
    if spots != [] {
      TailDistinct(spots);
      SpotsOutsideDistinct(spots[1..], lot);
      if spots[0].lot != lot {
        ConsDistinct(spots[0], SpotsOutside(spots[1..], lot));
      }
    }
  }

  lemma DeleteKeepsInvariant(lots: map<LotId, Lot>, spots: seq<Spot>, rs: seq<Reservation>,
                             nextLotId: nat, nextSpotId: nat, lot: LotId)
    requires StoreInvariant(lots, spots, rs, nextLotId, nextSpotId)
    requires OccupiedSpotsCount(spots, lot) == 0
    ensures StoreInvariant(lots - {lot}, SpotsOutside(spots, lot), rs, nextLotId, nextSpotId)
  {
    var r := SpotsOutside(spots, lot);
    SpotsOutsideDistinct(spots, lot);
    CountStatusZero(spots, lot, Occupied);
    forall j | 0 <= j < |r|
      ensures r[j].lot in lots - {lot} && r[j].id < nextSpotId
      ensures r[j].status == Occupied <==> HasOpenOn(rs, r[j].id)
    {
      assert r[j] in r;
      var i :| 0 <= i < |spots| && spots[i] == r[j];
    }
    forall i | 0 <= i < |rs| && rs[i].leaving.None?
      ensures HasSpot(r, rs[i].spotId)
    {
      var j :| 0 <= j < |spots| && spots[j].id == rs[i].spotId;
      assert HasOpenOn(rs, spots[j].id);
      assert spots[j] in r;
      var j' :| 0 <= j' < |r| && r[j'] == spots[j];
    }
  }

  // ---------------------------------------------------------------------------
  // Booking (app.py:350-368) and release (app.py:398-404).
  // ---------------------------------------------------------------------------

  /** Changing the status of one spot keeps ids, lots and every lot's size. */
  lemma StatusChangeKeepsShape(lots: map<LotId, Lot>, spots: seq<Spot>, nextLotId: nat, nextSpotId: nat,
                               k: nat, st: Status)
    requires SpotIdsDistinct(spots) && SpotsInLots(spots, lots)
    requires IdsBelow(lots, spots, nextLotId, nextSpotId) && CapacityMatches(spots, lots)
    requires k < |spots|
    ensures var spots' := spots[k := spots[k].(status := st)];
      && SpotIdsDistinct(spots') && SpotsInLots(spots', lots)
      && IdsBelow(lots, spots', nextLotId, nextSpotId) && CapacityMatches(spots', lots)
  {
    var spots' := spots[k := spots[k].(status := st)];
    assert forall j :: 0 <= j < |spots| ==> spots'[j].id == spots[j].id && spots'[j].lot == spots[j].lot;
    forall x | x in lots
      ensures LotSpotCount(spots', x) == lots[x].maxSpots
    {
      CountStatusUpdate(spots, k, st, x, Available);
    }
  }

  /** Appending an open reservation for a user and a spot that hold none keeps both "one open" rules. */
  lemma AppendOpenKeepsUnique(rs: seq<Reservation>, r: Reservation)
    requires OneOpenPerUser(rs) && OneOpenPerSpot(rs) && CostIffLeft(rs)
    requires r.leaving.None? && r.totalCost.None?
    requires forall i :: 0 <= i < |rs| ==> !OpenFor(rs[i], r.userId)
    requires forall i :: 0 <= i < |rs| ==> !OpenOn(rs[i], r.spotId)
    ensures OneOpenPerUser(rs + [r]) && OneOpenPerSpot(rs + [r]) && CostIffLeft(rs + [r])
  {
    var rs' := rs + [r];
    assert forall i :: 0 <= i < |rs| ==> rs'[i] == rs[i];
  }

  /** Occupying a free spot and opening a reservation on it keeps "occupied iff open". */
  lemma BookKeepsOccupiedIffOpen(spots: seq<Spot>, rs: seq<Reservation>, k: nat, r: Reservation)
    requires SpotIdsDistinct(spots) && OccupiedIffOpen(spots, rs)
    requires k < |spots| && spots[k].status == Available
    requires r.spotId == spots[k].id && r.leaving.None?
    ensures OccupiedIffOpen(spots[k := spots[k].(status := Occupied)], rs + [r])
  {
    var spots' := spots[k := spots[k].(status := Occupied)];
    var rs' := rs + [r];
    forall j | 0 <= j < |spots'|
      ensures spots'[j].status == Occupied <==> HasOpenOn(rs', spots'[j].id)
    {
      if j == k {
        assert OpenOn(rs'[|rs|], spots'[j].id);
      } else {
        assert spots'[j] == spots[j] && spots[j].id != r.spotId;
        if HasOpenOn(rs, spots[j].id) {
          var i :| 0 <= i < |rs| && OpenOn(rs[i], spots[j].id);
          assert rs'[i] == rs[i];
        }
        if HasOpenOn(rs', spots[j].id) {
          var i :| 0 <= i < |rs'| && OpenOn(rs'[i], spots[j].id);
          assert i < |rs| && rs'[i] == rs[i];
        }
      }
    }
  }

  /** The new reservation references the booked spot, which exists. */
  lemma BookKeepsOpenOnLiveSpot(spots: seq<Spot>, rs: seq<Reservation>, k: nat, r: Reservation)
    requires OpenOnLiveSpot(spots, rs)
    requires k < |spots| && r.spotId == spots[k].id
    ensures OpenOnLiveSpot(spots[k := spots[k].(status := Occupied)], rs + [r])
  {
    var spots' := spots[k := spots[k].(status := Occupied)];
    var rs' := rs + [r];
    forall i | 0 <= i < |rs'| && rs'[i].leaving.None?
      ensures HasSpot(spots', rs'[i].spotId)
    {
      if i == |rs| {
        assert spots'[k].id == rs'[i].spotId;
      } else {
        assert rs'[i] == rs[i];
        var j :| 0 <= j < |spots| && spots[j].id == rs[i].spotId;
        assert spots'[j].id == rs'[i].spotId;
      }
    }
  }

  lemma BookKeepsInvariant(lots: map<LotId, Lot>, spots: seq<Spot>, rs: seq<Reservation>,
                           nextLotId: nat, nextSpotId: nat, k: nat, user: UserId, now: int)
    requires StoreInvariant(lots, spots, rs, nextLotId, nextSpotId)
    requires k < |spots| && spots[k].status == Available
    requires forall i :: 0 <= i < |rs| ==> !OpenFor(rs[i], user)
    ensures spots[k].lot in lots
    ensures StoreInvariant(lots, spots[k := spots[k].(status := Occupied)],
                           rs + [Reservation(spots[k].id, user, now, None, lots[spots[k].lot].priceCents, None)],
                           nextLotId, nextSpotId)
  {
    var r := Reservation(spots[k].id, user, now, None, lots[spots[k].lot].priceCents, None);
    assert !HasOpenOn(rs, spots[k].id);
    StatusChangeKeepsShape(lots, spots, nextLotId, nextSpotId, k, Occupied);
    AppendOpenKeepsUnique(rs, r);
    BookKeepsOccupiedIffOpen(spots, rs, k, r);
    BookKeepsOpenOnLiveSpot(spots, rs, k, r);
  }

  /** A reservation closed at `now`: its leaving time and its total cost are recorded. */
  function Closed(r: Reservation, now: int): (c: Reservation)
    ensures c.leaving == Some(now) && c.totalCost.Some?
    ensures c.spotId == r.spotId && c.userId == r.userId && c.arrival == r.arrival && c.rateCents == r.rateCents
  {
    var left := r.(leaving := Some(now));
    left.(totalCost := Some(CalculateTotalCost(left)))
  }

  /** The spots after the spot with id `id`, if it still exists, is set back to 'A'. */
  function Freed(spots: seq<Spot>, id: SpotId): seq<Spot>
  {
    match SpotIndex(spots, id)
    case None => spots
    case Some(j) => spots[j := spots[j].(status := Available)]
  }

  /** Closing an open reservation keeps both "one open" rules and records its cost. */
  lemma CloseKeepsUnique(rs: seq<Reservation>, k: nat, now: int)
    requires OneOpenPerUser(rs) && OneOpenPerSpot(rs) && CostIffLeft(rs)
    requires k < |rs|
    ensures var rs' := rs[k := Closed(rs[k], now)];
      OneOpenPerUser(rs') && OneOpenPerSpot(rs') && CostIffLeft(rs')
  {
  }

  /** Freeing the spot of the closed reservation keeps "occupied iff open". */
  lemma ReleaseKeepsOccupiedIffOpen(spots: seq<Spot>, rs: seq<Reservation>, k: nat, now: int, jj: nat)
    requires SpotIdsDistinct(spots) && OccupiedIffOpen(spots, rs) && OneOpenPerSpot(rs)
    requires k < |rs| && rs[k].leaving.None?
    requires jj < |spots| && spots[jj].id == rs[k].spotId
    ensures OccupiedIffOpen(spots[jj := spots[jj].(status := Available)], rs[k := Closed(rs[k], now)])
  {
    var id := rs[k].spotId;
    var spots' := spots[jj := spots[jj].(status := Available)];
    var rs' := rs[k := Closed(rs[k], now)];
    forall j | 0 <= j < |spots'|
      ensures spots'[j].status == Occupied <==> HasOpenOn(rs', spots'[j].id)
    {
      if j == jj {
        // The released reservation was the only open one on this spot.
        forall i | 0 <= i < |rs'| && rs'[i].leaving.None?
          ensures rs'[i].spotId != id
        {
          assert i != k && rs'[i] == rs[i];
        }
      } else {
        assert spots'[j] == spots[j] && spots[j].id != id;
        if HasOpenOn(rs, spots[j].id) {
          var i :| 0 <= i < |rs| && OpenOn(rs[i], spots[j].id);
          assert i != k && rs'[i] == rs[i];
        }
        if HasOpenOn(rs', spots[j].id) {
          var i :| 0 <= i < |rs'| && OpenOn(rs'[i], spots[j].id);
          assert i != k && rs'[i] == rs[i];
        }
      }
    }
  }

  /** Closing a reservation and freeing a spot leaves every open reservation on an existing spot. */
  lemma ReleaseKeepsOpenOnLiveSpot(spots: seq<Spot>, rs: seq<Reservation>, k: nat, now: int, jj: nat)
    requires OpenOnLiveSpot(spots, rs)
    requires k < |rs| && jj < |spots|
    ensures OpenOnLiveSpot(spots[jj := spots[jj].(status := Available)], rs[k := Closed(rs[k], now)])
  {
    var spots' := spots[jj := spots[jj].(status := Available)];
    var rs' := rs[k := Closed(rs[k], now)];
    forall i | 0 <= i < |rs'| && rs'[i].leaving.None?
      ensures HasSpot(spots', rs'[i].spotId)
    {
      assert rs'[i] == rs[i];
      var j :| 0 <= j < |spots| && spots[j].id == rs[i].spotId;
      assert spots'[j].id == rs'[i].spotId;
    }
  }

  lemma ReleaseKeepsInvariant(lots: map<LotId, Lot>, spots: seq<Spot>, rs: seq<Reservation>,
                              nextLotId: nat, nextSpotId: nat, k: nat, now: int)
    requires StoreInvariant(lots, spots, rs, nextLotId, nextSpotId)
    requires k < |rs| && rs[k].leaving.None?
    ensures SpotIndex(spots, rs[k].spotId).Some?
    ensures StoreInvariant(lots, Freed(spots, rs[k].spotId), rs[k := Closed(rs[k], now)], nextLotId, nextSpotId)
  {
    assert HasSpot(spots, rs[k].spotId);
    var jj := SpotIndex(spots, rs[k].spotId).value;
    assert Freed(spots, rs[k].spotId) == spots[jj := spots[jj].(status := Available)];
    StatusChangeKeepsShape(lots, spots, nextLotId, nextSpotId, jj, Available);
    CloseKeepsUnique(rs, k, now);
    ReleaseKeepsOccupiedIffOpen(spots, rs, k, now, jj);
    ReleaseKeepsOpenOnLiveSpot(spots, rs, k, now, jj);
  }
}
