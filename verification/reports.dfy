/**
 * The read-only roll-ups of the dashboards: total earnings (app.py:141-144 and
 * 431), the per-lot earnings breakdown (app.py:434-439), the spot totals of the
 * admin dashboard (app.py:135-137) and the current stay on the user dashboard
 * (app.py:302-311).
 */
module Reports {
  import opened Wrappers
  import opened Models

  // ---------------------------------------------------------------------------
  // Total earnings.
  // ---------------------------------------------------------------------------

  /** What a reservation contributes: its recorded cost once the user has left (0 when none is recorded), nothing while it is open. */
  function Paid(r: Reservation): int
  {
    if r.leaving.Some? then r.totalCost.GetOr(0) else 0
  }

  /** The total earnings: what every reservation contributes, summed in storage order. */
  function TotalEarnings(rs: seq<Reservation>): int
  {
    if rs == [] then 0 else TotalEarnings(rs[..|rs| - 1]) + Paid(rs[|rs| - 1])
  }

  lemma {:induction false} TotalEarningsAppend(a: seq<Reservation>, b: seq<Reservation>)
    ensures TotalEarnings(a + b) == TotalEarnings(a) + TotalEarnings(b)
  {
    if b == [] {
      assert a + b == a;
    } else {
      assert (a + b)[..|a + b| - 1] == a + b[..|b| - 1];
      TotalEarningsAppend(a, b[..|b| - 1]);
    }
  }

  /** Replacing one reservation changes the total by the difference of what the two contribute. */
  lemma {:induction false} TotalEarningsUpdate(rs: seq<Reservation>, k: nat, r': Reservation)
    requires k < |rs|
    ensures TotalEarnings(rs[k := r']) == TotalEarnings(rs) - Paid(rs[k]) + Paid(r')
  {
    assert rs == rs[..k] + [rs[k]] + rs[k + 1..];
    assert rs[k := r'] == rs[..k] + [r'] + rs[k + 1..];
    TotalEarningsAppend(rs[..k] + [rs[k]], rs[k + 1..]);
    TotalEarningsAppend(rs[..k] + [r'], rs[k + 1..]);
    TotalEarningsAppend(rs[..k], [rs[k]]);
    TotalEarningsAppend(rs[..k], [r']);
    assert [rs[k]][..0] == [] && [r'][..0] == [];
  }

  /** Earnings are never negative while every recorded cost is non-negative. */
  lemma {:induction false} TotalEarningsNonNegative(rs: seq<Reservation>)
    requires forall i :: 0 <= i < |rs| && rs[i].totalCost.Some? ==> rs[i].totalCost.value >= 0
    ensures TotalEarnings(rs) >= 0
  {
    if rs != [] {
      TotalEarningsNonNegative(rs[..|rs| - 1]);
    }
  }

  // ---------------------------------------------------------------------------
  // Per-lot breakdown: a dict keyed by lot name (lot_earnings).  Python dicts
  // keep insertion order, so the breakdown is a sequence of entries.
  // ---------------------------------------------------------------------------

  datatype Entry = Entry(name: string, amount: int)

  /** The name of the lot that the reservation's spot belongs to, or None when the spot or its lot is gone. */
  function LotNameOf(r: Reservation, spots: seq<Spot>, lots: map<LotId, Lot>): Option<string>
  {
    match SpotIndex(spots, r.spotId)
    case None => None
    case Some(j) => if spots[j].lot in lots then Some(lots[spots[j].lot].name) else None
  }

  predicate DistinctNames(es: seq<Entry>)
  {
    forall i, j :: 0 <= i < j < |es| ==> es[i].name != es[j].name
  }

  function SumAmounts(es: seq<Entry>): int
  {
    if es == [] then 0 else SumAmounts(es[..|es| - 1]) + es[|es| - 1].amount
  }

  /** Where key `n` sits in the breakdown, or `|es|` when it is not a key. */
  function NameIndex(es: seq<Entry>, n: string): (j: nat)
    ensures j <= |es|
    ensures j < |es| ==> es[j].name == n
    ensures j == |es| <==> forall i :: 0 <= i < |es| ==> es[i].name != n
  {
    match FirstIndex(es, (e: Entry) => e.name == n)
    case None => |es|
    case Some(j) => j
  }

  /** The value stored under key `n`, 0 when `n` is not a key. */
  function AmountOf(es: seq<Entry>, n: string): int
  {
    var j := NameIndex(es, n);
    if j < |es| then es[j].amount else 0
  }

  /** Credits `c` to key `n`: a key met for the first time starts at 0, then `c` is added to its value. */
  function AddTo(es: seq<Entry>, n: string, c: int): seq<Entry>
  {
    var j := NameIndex(es, n);
    var es' := if j == |es| then es + [Entry(n, 0)] else es;
    es'[j := Entry(n, es'[j].amount + c)]
  }

  lemma {:induction false} SumAmountsAppend(a: seq<Entry>, b: seq<Entry>)
    ensures SumAmounts(a + b) == SumAmounts(a) + SumAmounts(b)
  {
    if b == [] {
      assert a + b == a;
    } else {
      assert (a + b)[..|a + b| - 1] == a + b[..|b| - 1];
      SumAmountsAppend(a, b[..|b| - 1]);
    }
  }

  lemma SumAmountsUpdate(es: seq<Entry>, k: nat, e: Entry)
    requires k < |es|
    ensures SumAmounts(es[k := e]) == SumAmounts(es) - es[k].amount + e.amount
  {
    assert es == es[..k] + [es[k]] + es[k + 1..];
    assert es[k := e] == es[..k] + [e] + es[k + 1..];
    SumAmountsAppend(es[..k] + [es[k]], es[k + 1..]);
    SumAmountsAppend(es[..k] + [e], es[k + 1..]);
    SumAmountsAppend(es[..k], [es[k]]);
    SumAmountsAppend(es[..k], [e]);
    assert [es[k]][..0] == [] && [e][..0] == [];
  }

  /** Adding to one key adds to the sum of all values. */
  lemma AddToSum(es: seq<Entry>, n: string, c: int)
    ensures SumAmounts(AddTo(es, n, c)) == SumAmounts(es) + c
  {
    var j := NameIndex(es, n);
    var es' := if j == |es| then es + [Entry(n, 0)] else es;
    if j == |es| {
      SumAmountsAppend(es, [Entry(n, 0)]);
      assert [Entry(n, 0)][..0] == [];
    }
    SumAmountsUpdate(es', j, Entry(n, es'[j].amount + c));
  }

  /**
   * Adding to key `n` keeps the keys distinct, makes `n` a key, adds `c` to the
   * value under `n` and changes no other key or value.
   */
  lemma AddToEffect(es: seq<Entry>, n: string, c: int)
    requires DistinctNames(es)
    ensures DistinctNames(AddTo(es, n, c))
    ensures forall m :: NameIndex(AddTo(es, n, c), m) < |AddTo(es, n, c)| <==> NameIndex(es, m) < |es| || m == n
    ensures forall m :: AmountOf(AddTo(es, n, c), m) == AmountOf(es, m) + (if m == n then c else 0)
  {
    var es2 := AddTo(es, n, c);
    var j := NameIndex(es, n);
    assert forall i :: 0 <= i < |es| ==> es2[i].name == es[i].name;
    assert forall i :: 0 <= i < |es| && i != j ==> es2[i] == es[i];
    forall m
      ensures NameIndex(es2, m) < |es2| <==> NameIndex(es, m) < |es| || m == n
      ensures AmountOf(es2, m) == AmountOf(es, m) + (if m == n then c else 0)
    {
      var jm := NameIndex(es, m);
      if jm < |es| {
        assert es2[jm].name == m;
        assert NameIndex(es2, m) == jm;
      } else if m == n {
        assert es2[j].name == n;
        assert NameIndex(es2, m) == j;
      } else {
        assert forall i :: 0 <= i < |es2| ==> es2[i].name != m;
      }
    }
  }

  /**
   * The earnings of the lot called `name`: the sum of the recorded costs over the
   * completed reservations whose spot belongs to a lot of that name.
   */
  function LotTotal(rs: seq<Reservation>, spots: seq<Spot>, lots: map<LotId, Lot>, name: string): int
  {
    if rs == [] then 0
    else
      var r := rs[|rs| - 1];
      LotTotal(rs[..|rs| - 1], spots, lots, name) +
      (if r.leaving.Some? && LotNameOf(r, spots, lots) == Some(name) then Paid(r) else 0)
  }

  /** True of a completed reservation whose spot or lot can no longer be found. */
  predicate Dangling(r: Reservation, spots: seq<Spot>, lots: map<LotId, Lot>)
  {
    r.leaving.Some? && LotNameOf(r, spots, lots).None?
  }

  /**
   * The breakdown the loop at app.py:434-439 builds, reservation by reservation;
   * None stands for the error raised when a completed reservation's spot is gone.
   */
  function Breakdown(rs: seq<Reservation>, spots: seq<Spot>, lots: map<LotId, Lot>): Option<seq<Entry>>
  {
    if rs == [] then Some([])
    else
      var r := rs[|rs| - 1];
      match Breakdown(rs[..|rs| - 1], spots, lots)
      case None => None
      case Some(es) =>
        if r.leaving.None? then Some(es)
        else match LotNameOf(r, spots, lots)
          case None => None
          case Some(n) => Some(AddTo(es, n, Paid(r)))
  }

  /** The breakdown exists exactly when no completed reservation is dangling. */
  lemma {:induction false} BreakdownDefined(rs: seq<Reservation>, spots: seq<Spot>, lots: map<LotId, Lot>)
    ensures Breakdown(rs, spots, lots).Some? <==> forall i :: 0 <= i < |rs| ==> !Dangling(rs[i], spots, lots)
  {
    if rs != [] {
      var init := rs[..|rs| - 1];
      BreakdownDefined(init, spots, lots);
      assert forall i :: 0 <= i < |init| ==> init[i] == rs[i];
    }
  }

  /** The breakdown's keys are distinct and its values add up to the total earnings. */
  lemma {:induction false} BreakdownSums(rs: seq<Reservation>, spots: seq<Spot>, lots: map<LotId, Lot>)
    requires Breakdown(rs, spots, lots).Some?
    ensures DistinctNames(Breakdown(rs, spots, lots).value)
    ensures SumAmounts(Breakdown(rs, spots, lots).value) == TotalEarnings(rs)
  {
    if rs != [] {
      var init, r := rs[..|rs| - 1], rs[|rs| - 1];
      BreakdownSums(init, spots, lots);
      if r.leaving.Some? {
        var es0, n := Breakdown(init, spots, lots).value, LotNameOf(r, spots, lots).value;
        AddToSum(es0, n, Paid(r));
        AddToEffect(es0, n, Paid(r));
      }
    }
  }

  /** The value under each lot name is the earnings of the lots of that name. */
  lemma {:induction false} BreakdownPerLot(rs: seq<Reservation>, spots: seq<Spot>, lots: map<LotId, Lot>, m: string)
    requires Breakdown(rs, spots, lots).Some?
    ensures AmountOf(Breakdown(rs, spots, lots).value, m) == LotTotal(rs, spots, lots, m)
  {
    if rs != [] {
      var init, r := rs[..|rs| - 1], rs[|rs| - 1];
      BreakdownPerLot(init, spots, lots, m);
      BreakdownSums(init, spots, lots);
      if r.leaving.Some? {
        var es0, n := Breakdown(init, spots, lots).value, LotNameOf(r, spots, lots).value;
        AddToEffect(es0, n, Paid(r));
      }
    }
  }

  /** A name is a key exactly when some completed reservation was made in a lot of that name. */
  lemma {:induction false} BreakdownKeys(rs: seq<Reservation>, spots: seq<Spot>, lots: map<LotId, Lot>, m: string)
    requires Breakdown(rs, spots, lots).Some?
    ensures var es := Breakdown(rs, spots, lots).value;
      NameIndex(es, m) < |es| <==>
        exists i :: 0 <= i < |rs| && rs[i].leaving.Some? && LotNameOf(rs[i], spots, lots) == Some(m)
  {
    if rs != [] {
      var init, r := rs[..|rs| - 1], rs[|rs| - 1];
      BreakdownKeys(init, spots, lots, m);
      BreakdownSums(init, spots, lots);
      assert forall i :: 0 <= i < |init| ==> init[i] == rs[i];
      var es0 := Breakdown(init, spots, lots).value;
      if r.leaving.Some? {
        var n := LotNameOf(r, spots, lots).value;
        AddToEffect(es0, n, Paid(r));
        if m == n {
          assert rs[|rs| - 1].leaving.Some? && LotNameOf(rs[|rs| - 1], spots, lots) == Some(m);
        }
      }
    }
  }

  /** One more reservation extends the breakdown as one pass of the loop body does. */
  lemma BreakdownStep(rs: seq<Reservation>, i: nat, spots: seq<Spot>, lots: map<LotId, Lot>)
    requires i < |rs|
    ensures Breakdown(rs[..i + 1], spots, lots) ==
      match Breakdown(rs[..i], spots, lots)
      case None => None
      case Some(es) =>
        if rs[i].leaving.None? then Some(es)
        else match LotNameOf(rs[i], spots, lots)
          case None => None
          case Some(n) => Some(AddTo(es, n, Paid(rs[i])))
  {
    assert rs[..i + 1][..i] == rs[..i];
  }

  /** What the per-lot breakdown promises, gathered for its callers. */
  lemma BreakdownFacts(rs: seq<Reservation>, spots: seq<Spot>, lots: map<LotId, Lot>)
    ensures Breakdown(rs, spots, lots).None? <==> exists i :: 0 <= i < |rs| && Dangling(rs[i], spots, lots)
    ensures Breakdown(rs, spots, lots).Some? ==>
      var es := Breakdown(rs, spots, lots).value;
      && DistinctNames(es)
      && SumAmounts(es) == TotalEarnings(rs)
      && (forall e :: e in es ==> e.amount == LotTotal(rs, spots, lots, e.name))
  {
    BreakdownDefined(rs, spots, lots);
    if Breakdown(rs, spots, lots).Some? {
      var es := Breakdown(rs, spots, lots).value;
      BreakdownSums(rs, spots, lots);
      forall e | e in es
        ensures e.amount == LotTotal(rs, spots, lots, e.name)
      {
        var k :| 0 <= k < |es| && es[k] == e;
        assert NameIndex(es, e.name) == k;
        BreakdownPerLot(rs, spots, lots, e.name);
      }
    }
  }

  /**
   * The body of admin_earnings' loop (app.py:437-439), updating the breakdown in
   * place: a lot name met for the first time gets an entry of 0, and the cost is
   * then added to that name's entry.
   */
  method Credit(es: seq<Entry>, n: string, c: int) returns (es': seq<Entry>)
    ensures es' == AddTo(es, n, c)
  {
    es' := es;
    var j := NameIndex(es', n);
    if j == |es'| {
      es' := es' + [Entry(n, 0)];
    }
    es' := es'[j := Entry(n, es'[j].amount + c)];
  }

  /**
   * admin_earnings' per-lot loop: walks the completed reservations, creating a
   * zero entry for a lot name the first time it is met and adding the
   * reservation's cost to it.
   */
  method LotEarnings(rs: seq<Reservation>, spots: seq<Spot>, lots: map<LotId, Lot>)
    returns (result: Option<seq<Entry>>)
    ensures result == Breakdown(rs, spots, lots)
    ensures result.None? <==> exists i :: 0 <= i < |rs| && Dangling(rs[i], spots, lots)
    ensures result.Some? ==>
      && DistinctNames(result.value)
      && SumAmounts(result.value) == TotalEarnings(rs)
      && (forall e :: e in result.value ==> e.amount == LotTotal(rs, spots, lots, e.name))
  {
    var entries: seq<Entry> := [];
    for i := 0 to |rs|
      invariant Breakdown(rs[..i], spots, lots) == Some(entries)
    {
      BreakdownStep(rs, i, spots, lots);
      var r := rs[i];
      if r.leaving.Some? {
        var name := LotNameOf(r, spots, lots);
        if name.None? {
          assert Dangling(rs[i], spots, lots);
          BreakdownDefined(rs, spots, lots);
          return None;
        }
        entries := Credit(entries, name.value, Paid(r));
      }
    }
    assert rs[..|rs|] == rs;
    BreakdownFacts(rs, spots, lots);
    return Some(entries);
  }

  // ---------------------------------------------------------------------------
  // Spot totals of the admin dashboard.
  // ---------------------------------------------------------------------------

  datatype SpotTotals = SpotTotals(total: nat, occupied: nat, available: int)

  /** The admin dashboard's spot totals: all spots, the occupied ones, and their difference as the available ones. */
  function AdminSpotTotals(spots: seq<Spot>): (t: SpotTotals)
    ensures t.total == |spots|
    ensures t.occupied == StatusCount(spots, Occupied)
    ensures t.available == StatusCount(spots, Available)
  {
    StatusCountsCover(spots);
    var occupied := StatusCount(spots, Occupied);
    SpotTotals(|spots|, occupied, |spots| - occupied)
  }

  // ---------------------------------------------------------------------------
  // The current stay on the user dashboard.
  // ---------------------------------------------------------------------------

  datatype Stay = Stay(reservation: Reservation, elapsedSeconds: int)

  /** The user's open reservation, if any, and how long the user has been parked at `now`. */
  function CurrentStay(rs: seq<Reservation>, user: UserId, now: int): (s: Option<Stay>)
    ensures s.None? <==> forall i :: 0 <= i < |rs| ==> !OpenFor(rs[i], user)
    ensures s.Some? ==>
      s.value.reservation in rs && OpenFor(s.value.reservation, user) &&
      s.value.elapsedSeconds == now - s.value.reservation.arrival
  {
    match OpenReservationOf(rs, user)
    case None => None
    case Some(k) => Some(Stay(rs[k], DurationSeconds(rs[k], now)))
  }
}
