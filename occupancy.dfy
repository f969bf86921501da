/**
 * What the dashboard derives from its cached stays and invoice history: the
 * occupancy statistics, the placement of active stays on the numbered spots,
 * and the plate choices offered to the entry and exit simulations.
 */
module Occupancy {
  import opened Util
  import opened Entities
  import Feed

  /** Number of spots shown on the dashboard (`TOTAL_SPOTS`). */
  const TotalSpots: nat := 12

  /** The plates the entry simulation draws from (`placasEjemplo`). */
  const SamplePlates: seq<string> :=
    ["ABC123", "XYZ789", "DEF456", "GHI012", "JKL345", "MNO678", "PQR901", "STU234", "VWX567", "YZA890"]

  /** `filter(e => e.salida === null)`: the active stays in snapshot order. */
  function ActiveStays(stays: seq<Stay>): (r: seq<Stay>)
    ensures forall s :: s in r <==> s in stays && IsActive(s)
  {
    Filter(stays, IsActive)
  }

  /** The active stays of two consecutive parts of a snapshot are those of the first part, then those of the second. */
  lemma ActiveStaysKeepSnapshotOrder(first: seq<Stay>, second: seq<Stay>)
    ensures ActiveStays(first + second) == ActiveStays(first) + ActiveStays(second)
  {
    FilterOfConcat(first, second, IsActive);
  }

  /** A one-stay snapshot keeps its stay exactly when it is active. */
  lemma ActiveStaysOfOne(s: Stay)
    ensures ActiveStays([s]) == if IsActive(s) then [s] else []
  {
    FilterCons(s, [], IsActive);
    assert [s] + [] == [s];
  }

  /** An active stay occurs among the active stays as often as in the snapshot; an inactive one never. */
  lemma ActiveStaysCounts(stays: seq<Stay>)
    ensures forall s :: multiset(ActiveStays(stays))[s] == if IsActive(s) then multiset(stays)[s] else 0
  {
    FilterCounts(stays, IsActive);
  }

  /** `map(e => e.placa)` over the active stays. */
  function ActivePlates(stays: seq<Stay>): (r: seq<string>)
    ensures |r| == |ActiveStays(stays)|
    ensures forall p :: p in r <==> exists s :: s in stays && IsActive(s) && s.plate == p
  {
    var active := ActiveStays(stays);
    var r := seq(|active|, i requires 0 <= i < |active| => active[i].plate);
    assert forall s :: s in active ==> s.plate in r by {
      forall s | s in active ensures s.plate in r {
        var i :| 0 <= i < |active| && active[i] == s;
        assert r[i] == s.plate;
      }
    }
    r
  }

  /** `reduce((sum, f) => sum + f.total, 0)`. */
  function Revenue(invoices: seq<Invoice>): (sum: int)
    ensures (forall f :: f in invoices ==> f.total >= 0) ==> sum >= 0
    ensures (forall f :: f in invoices ==> f.total >= 0) ==> forall f :: f in invoices ==> f.total <= sum
  {
    if invoices == [] then 0 else invoices[0].total + Revenue(invoices[1..])
  }

  datatype Stats = Stats(occupied: int, available: int, revenue: int)

  /**
   * `updateStats`: occupied is the number of snapshot positions holding a
   * stay with a null `salida`, available is the rest of the 12 spots (not
   * clamped at zero, so negative exactly when more than 12 stays are open),
   * and the revenue is the sum over the invoice history.
   */
  function ComputeStats(stays: seq<Stay>, invoices: seq<Invoice>): (st: Stats)
    ensures st.occupied == |set i | 0 <= i < |stays| && IsActive(stays[i])|
    ensures st.occupied + st.available == TotalSpots
    ensures 0 <= st.occupied <= |stays|
    ensures st.available < 0 <==> st.occupied > TotalSpots
    ensures st.revenue == Revenue(invoices)
  {
    var occupied := |ActiveStays(stays)|;
    FilterLength(stays, IsActive);
    assert KeptPositions(stays, IsActive) == set i | 0 <= i < |stays| && IsActive(stays[i]);
    Stats(occupied, TotalSpots - occupied, Revenue(invoices))
  }

  /** Revenue adds up over concatenation. */
  lemma {:induction false} RevenueOfConcat(a: seq<Invoice>, b: seq<Invoice>)
    ensures Revenue(a + b) == Revenue(a) + Revenue(b)
  {
    if a == [] {
      assert a + b == b;
    } else {
      assert (a + b)[1..] == a[1..] + b;
      RevenueOfConcat(a[1..], b);
    }
  }

  /** Reversing a batch does not change its revenue. */
  lemma {:induction false} RevenueOfReverse(a: seq<Invoice>)
    ensures Revenue(Reverse(a)) == Revenue(a)
  {
    if a != [] {
      RevenueOfReverse(a[1..]);
      RevenueOfConcat(Reverse(a[1..]), [a[0]]);
    }
  }

  /**
   * While the history has room, ingesting a batch of invoices raises the
   * revenue shown by exactly the batch's totals.
   */
  lemma RevenueAfterIngest(batch: seq<Invoice>, history: seq<Invoice>)
    requires |batch| + |history| <= Feed.Capacity
    ensures Revenue(Feed.FoldIn(batch, history)) == Revenue(batch) + Revenue(history)
  {
    assert Feed.FoldIn(batch, history) == Reverse(batch) + history;
    RevenueOfConcat(Reverse(batch), history);
    RevenueOfReverse(batch);
  }

  /**
   * `placasActivasMap` as built by `updateParkingSpots`: spot index `i` holds
   * the `i`-th active stay, for indices below the spot total only.
   */
  ghost predicate AssignsSpots(stays: seq<Stay>, spots: map<int, Stay>)
  {
    var active := ActiveStays(stays);
    && (forall i :: i in spots <==> 0 <= i < |active| && i < TotalSpots)
    && (forall i :: i in spots ==> spots[i] == active[i])
  }

  /** The spot map of `updateParkingSpots`, filled by its `forEach` over the active stays. */
  method AssignSpots(stays: seq<Stay>) returns (spots: map<int, Stay>)
    ensures AssignsSpots(stays, spots)
    ensures forall i :: i in spots ==> spots[i] in stays && IsActive(spots[i])
  {
    var active := ActiveStays(stays);
    spots := map[];
    for index := 0 to |active|
      invariant forall i :: i in spots <==> 0 <= i < index && i < TotalSpots
      invariant forall i :: i in spots ==> spots[i] == active[i]
    {
      if index < TotalSpots {
        spots := spots[index := active[index]];
      }
    }
    assert forall i :: i in spots ==> active[i] in active;
  }

  /** Outcome of the plate-selection step of a simulation. */
  datatype SimulationPlan =
    | Refused(message: string)        // an error notification; nothing is posted
    | Proceed(choices: seq<string>)   // the plates one of which is picked at random and posted

  /** `placasEjemplo.filter(p => !placasOcupadas.includes(p))`. */
  function FreePlates(stays: seq<Stay>): (r: seq<string>)
    ensures forall p :: p in r <==> p in SamplePlates && p !in ActivePlates(stays)
  {
    var taken := ActivePlates(stays);
    Filter(SamplePlates, p => p !in taken)
  }

  /** The error shown by the entry simulation when every sample plate is inside. */
  const LotFull: string := "Parqueadero lleno - No hay espacios disponibles"

  /** The error shown by the exit simulation when no stay is active. */
  const LotEmpty: string := "No hay vehículos en el parqueadero"

  /** The precondition of `simularEntrada`: some sample plate must be outside the lot. */
  function PlanEntry(stays: seq<Stay>): (r: SimulationPlan)
    ensures r.Refused? <==> forall p :: p in SamplePlates ==> p in ActivePlates(stays)
    ensures r.Refused? ==> r.message == LotFull
    ensures r.Proceed? ==> r.choices != [] && forall p :: p in r.choices <==> p in SamplePlates && p !in ActivePlates(stays)
  {
    var free := FreePlates(stays);
    if |free| == 0 then Refused(LotFull)
    else Proceed(free)
  }

  /** The precondition of `simularSalida`: some stay must be active. */
  function PlanExit(stays: seq<Stay>): (r: SimulationPlan)
    ensures r.Refused? <==> forall s :: s in stays ==> !IsActive(s)
    ensures r.Refused? ==> r.message == LotEmpty
    ensures r.Proceed? ==> r.choices != [] && forall p :: p in r.choices <==> exists s :: s in stays && IsActive(s) && s.plate == p
  {
    var active := ActiveStays(stays);
    if |active| == 0 then Refused(LotEmpty)
    else
      assert active[0] in active;
      Proceed(ActivePlates(stays))
  }

  /**
   * The entry simulation reports a full lot only once at least ten stays
   * (one per sample plate) are active, whatever the spot total.
   */
  lemma EntryRefusedOnlyWithTenActive(stays: seq<Stay>)
    requires PlanEntry(stays).Refused?
    ensures |ActiveStays(stays)| >= |SamplePlates|
  {
    var taken := ActivePlates(stays);
    var sample := set p | p in SamplePlates;
    var occupied := set p | p in taken;
    assert sample <= occupied;
    SamplePlatesAreDistinct();
    DistinctElementsBound(taken);
    SubsetCardinality(sample, occupied);
  }

  /** The ten sample plates are pairwise different. */
  lemma SamplePlatesAreDistinct()
    ensures |set p | p in SamplePlates| == |SamplePlates|
  {
    assert forall i, j :: 0 <= i < j < |SamplePlates| ==> SamplePlates[i][0] != SamplePlates[j][0];
    DistinctElementsCount(SamplePlates);
  }
}
