/**
 * The map the ant colony walks on: cities, the roads between them and the
 * pheromone each road carries.  Cities and roads live in the two lists of a
 * `CityMap` and refer to each other by their position in those lists.
 */
module Graph {

  /** A city: its position, its name and the indices of the roads that touch it. */
  datatype City = City(x: real, y: real, name: string, roads: seq<nat>)

  /**
   * A road between the cities `a` and `b`.  `pheromone` is the amount that
   * currently steers the ants; `pheromonePending` is what has been deposited
   * since the last decay pass and does not steer them yet.
   */
  datatype Road = Road(a: nat, b: nat, distance: real, pheromone: real, pheromonePending: real)

  /** The straight-line distance between two cities; `root` stands for the square root. */
  function Distance(root: real -> real, a: City, b: City): real
  {
    root((a.x - b.x) * (a.x - b.x) + (a.y - b.y) * (a.y - b.y))
  }

  /** The distance from `a` to `b` is the distance from `b` to `a`. */
  lemma DistanceSymmetric(root: real -> real, a: City, b: City)
    ensures Distance(root, a, b) == Distance(root, b, a)
  {
    assert (a.x - b.x) * (a.x - b.x) == (b.x - a.x) * (b.x - a.x);
    assert (a.y - b.y) * (a.y - b.y) == (b.y - a.y) * (b.y - a.y);
  }

  /** The end of `road` seen from `x`: `b` when `x` is `a`, and `a` for every other `x`. */
  function Opposite(road: Road, x: nat): nat
  {
    if road.a == x then road.b else road.a
  }

  /** From either end of a road between two distinct cities, the opposite city is the other end. */
  lemma OppositeSwapsEnds(road: Road, x: nat)
    requires road.a != road.b && (x == road.a || x == road.b)
    ensures Opposite(road, x) != x
    ensures Opposite(road, x) == road.a || Opposite(road, x) == road.b
    ensures Opposite(road, Opposite(road, x)) == x
  {
  }

  /** A road joins two distinct cities of the map, is a positive length, and holds no negative pheromone. */
  ghost predicate RoadOk(road: Road, cityCount: nat)
  {
    road.a < cityCount && road.b < cityCount && road.a != road.b &&
    road.distance > 0.0 && road.pheromone >= 0.0 && road.pheromonePending >= 0.0
  }

  /** Every road is sound, and every city lists only roads of the map that touch it. */
  ghost predicate WellFormed(cities: seq<City>, roads: seq<Road>)
  {
    (forall i :: 0 <= i < |roads| ==> RoadOk(roads[i], |cities|)) &&
    (forall c, k :: 0 <= c < |cities| && 0 <= k < |cities[c].roads| ==>
       cities[c].roads[k] < |roads| &&
       (roads[cities[c].roads[k]].a == c || roads[cities[c].roads[k]].b == c))
  }

  /** Road `i` is listed by both cities it joins. */
  ghost predicate ListedAt(cities: seq<City>, roads: seq<Road>, i: nat)
    requires i < |roads| && roads[i].a < |cities| && roads[i].b < |cities|
  {
    i in cities[roads[i].a].roads && i in cities[roads[i].b].roads
  }

  /** Every road is listed by both cities it joins. */
  ghost predicate Listed(cities: seq<City>, roads: seq<Road>)
    requires forall i :: 0 <= i < |roads| ==> roads[i].a < |cities| && roads[i].b < |cities|
  {
    forall i :: 0 <= i < |roads| ==> ListedAt(cities, roads, i)
  }

  /** Roads that keep their ends, in the same places, stay listed by their cities. */
  lemma ListedKeepsEnds(cities: seq<City>, roads: seq<Road>, after: seq<Road>)
    requires forall i :: 0 <= i < |roads| ==> roads[i].a < |cities| && roads[i].b < |cities|
    requires Listed(cities, roads) && |after| == |roads|
    requires forall i :: 0 <= i < |roads| ==> after[i].a == roads[i].a && after[i].b == roads[i].b
    ensures Listed(cities, after)
  {
    forall i | 0 <= i < |after|
      ensures ListedAt(cities, after, i)
    {
      assert ListedAt(cities, roads, i);
    }
  }

  /** The pheromone that steers the ants, summed over all roads. */
  function SumPheromone(roads: seq<Road>): (sum: real)
    ensures (forall i :: 0 <= i < |roads| ==> roads[i].pheromone >= 0.0) ==> sum >= 0.0
  {
    if roads == [] then 0.0 else SumPheromone(roads[..|roads| - 1]) + roads[|roads| - 1].pheromone
  }

  /** The pending pheromone, summed over all roads. */
  function SumPending(roads: seq<Road>): (sum: real)
    ensures (forall i :: 0 <= i < |roads| ==> roads[i].pheromonePending >= 0.0) ==> sum >= 0.0
  {
    if roads == [] then 0.0 else SumPending(roads[..|roads| - 1]) + roads[|roads| - 1].pheromonePending
  }

  /** The length of all roads together. */
  function SumDistances(roads: seq<Road>): real
  {
    if roads == [] then 0.0 else SumDistances(roads[..|roads| - 1]) + roads[|roads| - 1].distance
  }

  /** A map with at least one road, all of positive length, has a positive total length. */
  lemma {:induction false} SumDistancesPositive(roads: seq<Road>)
    requires forall i :: 0 <= i < |roads| ==> roads[i].distance > 0.0
    ensures roads != [] ==> SumDistances(roads) > 0.0
    ensures SumDistances(roads) >= 0.0
  {
    if roads != [] {
      SumDistancesPositive(roads[..|roads| - 1]);
    }
  }

  /** Every road index on `path` names a road of the map. */
  ghost predicate PathOk(roads: seq<Road>, path: seq<nat>)
  {
    forall i :: 0 <= i < |path| ==> path[i] < |roads|
  }

  /** The length of a walk along `path`, a road counted once per traversal. */
  function SumDist(roads: seq<Road>, path: seq<nat>): real
    requires PathOk(roads, path)
  {
    if path == [] then 0.0 else SumDist(roads, path[..|path| - 1]) + roads[path[|path| - 1]].distance
  }

  /** A walk over at least one road of positive length has a positive length. */
  lemma {:induction false} SumDistPositive(roads: seq<Road>, path: seq<nat>)
    requires PathOk(roads, path)
    requires forall i :: 0 <= i < |roads| ==> roads[i].distance > 0.0
    ensures path != [] ==> SumDist(roads, path) > 0.0
    ensures SumDist(roads, path) >= 0.0
  {
    if path != [] {
      SumDistPositive(roads, path[..|path| - 1]);
    }
  }

  // ---------------------------------------------------------------------------
  // Decay: every road's pheromone is halved and its pending pheromone flushed in.

  /** One road after a decay pass. */
  function Flushed(road: Road): Road
  {
    road.(pheromone := road.pheromone / 2.0 + road.pheromonePending, pheromonePending := 0.0)
  }

  /** All roads after a decay pass. */
  function Decayed(roads: seq<Road>): seq<Road>
  {
    seq(|roads|, i requires 0 <= i < |roads| => Flushed(roads[i]))
  }

  /**
   * After a decay pass nothing is pending, and the active pheromone is half
   * of what was active plus everything that was pending.
   */
  lemma {:induction false} DecayedTotals(roads: seq<Road>)
    ensures SumPending(Decayed(roads)) == 0.0
    ensures SumPheromone(Decayed(roads)) == SumPheromone(roads) / 2.0 + SumPending(roads)
  {
    if roads != [] {
      var n := |roads| - 1;
      assert Decayed(roads)[..n] == Decayed(roads[..n]);
      DecayedTotals(roads[..n]);
    }
  }

  /** A decay pass keeps the map well formed: pheromone stays non-negative. */
  lemma DecayedWellFormed(cities: seq<City>, roads: seq<Road>)
    requires WellFormed(cities, roads)
    ensures WellFormed(cities, Decayed(roads))
  {
    assert forall i :: 0 <= i < |roads| ==> Decayed(roads)[i].a == roads[i].a && Decayed(roads)[i].b == roads[i].b;
  }

  // ---------------------------------------------------------------------------
  // Deposit: each traversal of a road adds `perUnit` times its length to its pending pheromone.

  /** `roads` with `amount` added to the pending pheromone of road `r`. */
  function AddPending(roads: seq<Road>, r: nat, amount: real): seq<Road>
    requires r < |roads|
  {
    roads[r := roads[r].(pheromonePending := roads[r].pheromonePending + amount)]
  }

  /**
   * When `after` differs from `roads` only in road `r`, whose pending
   * pheromone grew by `amount`, the pending total grows by `amount` and the
   * active total stays.
   */
  lemma {:induction false} PendingChangedAt(roads: seq<Road>, after: seq<Road>, r: nat, amount: real)
    requires |after| == |roads| && r < |roads|
    requires forall i :: 0 <= i < |roads| && i != r ==> after[i] == roads[i]
    requires after[r] == roads[r].(pheromonePending := roads[r].pheromonePending + amount)
    ensures SumPending(after) == SumPending(roads) + amount
    ensures SumPheromone(after) == SumPheromone(roads)
  {
    var n := |roads| - 1;
    assert SumPending(after) == SumPending(after[..n]) + after[n].pheromonePending;
    assert SumPheromone(after) == SumPheromone(after[..n]) + after[n].pheromone;
    assert SumPending(roads) == SumPending(roads[..n]) + roads[n].pheromonePending;
    assert SumPheromone(roads) == SumPheromone(roads[..n]) + roads[n].pheromone;
    if r == n {
      assert after[..n] == roads[..n];
    } else {
      assert after[n] == roads[n];
      PendingChangedAt(roads[..n], after[..n], r, amount);
    }
  }

  /**
   * The roads after the deposit loop has run over `path`: each traversal of
   * a road adds `perUnit` times its length to that road's pending pheromone.
   * Only pending pheromone changes, and with `perUnit >= 0` it never shrinks.
   */
  function Deposited(roads: seq<Road>, path: seq<nat>, perUnit: real): (after: seq<Road>)
    requires PathOk(roads, path)
    ensures |after| == |roads|
    ensures forall i :: 0 <= i < |roads| ==>
      after[i] == roads[i].(pheromonePending := after[i].pheromonePending)
    ensures perUnit >= 0.0 && (forall i :: 0 <= i < |roads| ==> roads[i].distance >= 0.0) ==>
      forall i :: 0 <= i < |roads| ==> after[i].pheromonePending >= roads[i].pheromonePending
    decreases |path|
  {
    if path == [] then roads
    else
      var before := Deposited(roads, path[..|path| - 1], perUnit);
      var r := path[|path| - 1];
      AddPending(before, r, Share(perUnit, roads[r]))
  }

  /** Road `r` gains `perUnit * distance` once for every occurrence of `r` on the path. */
  lemma {:induction false} DepositedPerRoad(roads: seq<Road>, path: seq<nat>, perUnit: real, r: nat)
    requires PathOk(roads, path) && r < |roads|
    ensures Deposited(roads, path, perUnit)[r].pheromonePending ==
            roads[r].pheromonePending + Share(perUnit, roads[r]) * (multiset(path)[r] as real)
  {
    if path != [] {
      var init := path[..|path| - 1];
      DepositedPerRoad(roads, init, perUnit, r);
      DepositedLast(roads, path, perUnit, r);
      if path[|path| - 1] == r {
        var bag: multiset<nat> := multiset(init);
        OneMore(Share(perUnit, roads[r]), bag[r]);
      }
    }
  }

  /** The last traversal on the path adds one share to its road and nothing to the others. */
  lemma DepositedLast(roads: seq<Road>, path: seq<nat>, perUnit: real, r: nat)
    requires PathOk(roads, path) && r < |roads| && path != []
    ensures PathOk(roads, path[..|path| - 1])
    ensures var init := path[..|path| - 1];
            var before := Deposited(roads, init, perUnit)[r].pheromonePending;
            if path[|path| - 1] == r then
              multiset(path)[r] == multiset(init)[r] + 1 &&
              Deposited(roads, path, perUnit)[r].pheromonePending == before + Share(perUnit, roads[r])
            else
              multiset(path)[r] == multiset(init)[r] &&
              Deposited(roads, path, perUnit)[r].pheromonePending == before
  {
    var init := path[..|path| - 1];
    assert path == init + [path[|path| - 1]];
  }

  /** `count + 1` shares are `count` shares and one more. */
  lemma OneMore(share: real, count: nat)
    ensures share * ((count + 1) as real) == share * (count as real) + share
  {
  }

  /** What one traversal of `road` deposits at `perUnit` pheromone per unit of length. */
  function Share(perUnit: real, road: Road): real
  {
    perUnit * road.distance
  }

  /** What the deposit loop adds along `path`, traversal by traversal. */
  function DepositAmount(roads: seq<Road>, path: seq<nat>, perUnit: real): real
    requires PathOk(roads, path)
  {
    if path == [] then 0.0
    else DepositAmount(roads, path[..|path| - 1], perUnit) + Share(perUnit, roads[path[|path| - 1]])
  }

  /** The traversal-by-traversal amounts add up to `perUnit` times the walk's length. */
  lemma {:induction false} DepositAmountIsRateTimesLength(roads: seq<Road>, path: seq<nat>, perUnit: real)
    requires PathOk(roads, path)
    ensures DepositAmount(roads, path, perUnit) == perUnit * SumDist(roads, path)
  {
    if path != [] {
      var init := path[..|path| - 1];
      DepositAmountIsRateTimesLength(roads, init, perUnit);
      Distribute(perUnit, SumDist(roads, init), roads[path[|path| - 1]].distance);
    }
  }

  /** The deposit adds exactly `DepositAmount` to the pending total and leaves the active total alone. */
  lemma {:induction false} DepositedTotals(roads: seq<Road>, path: seq<nat>, perUnit: real)
    requires PathOk(roads, path)
    ensures SumPending(Deposited(roads, path, perUnit)) == SumPending(roads) + DepositAmount(roads, path, perUnit)
    ensures SumPheromone(Deposited(roads, path, perUnit)) == SumPheromone(roads)
  {
    if path != [] {
      var init := path[..|path| - 1];
      var r := path[|path| - 1];
      var before := Deposited(roads, init, perUnit);
      var after := Deposited(roads, path, perUnit);
      var amount := Share(perUnit, roads[r]);
      DepositedTotals(roads, init, perUnit);
      assert SumPending(after) == SumPending(before) + amount && SumPheromone(after) == SumPheromone(before) by {
        DepositedStep(roads, path, perUnit);
        PendingChangedAt(before, after, r, amount);
      }
      assert DepositAmount(roads, path, perUnit) == DepositAmount(roads, init, perUnit) + amount;
    }
  }

  /** The last traversal of a path is deposited on top of the deposit for the rest of it. */
  lemma DepositedStep(roads: seq<Road>, path: seq<nat>, perUnit: real)
    requires PathOk(roads, path) && path != []
    ensures var before := Deposited(roads, path[..|path| - 1], perUnit);
            var r := path[|path| - 1];
            var after := Deposited(roads, path, perUnit);
            (forall i :: 0 <= i < |roads| && i != r ==> after[i] == before[i]) &&
            after[r] == before[r].(pheromonePending := before[r].pheromonePending + Share(perUnit, roads[r]))
  {
  }

  /** One pass of the deposit loop: traversal `i` adds its share to the road, read from the roads as they are then. */
  lemma DepositedNext(roads: seq<Road>, path: seq<nat>, perUnit: real, i: nat)
    requires PathOk(roads, path) && i < |path|
    ensures PathOk(roads, path[..i]) && PathOk(roads, path[..i + 1])
    ensures Deposited(roads, path[..i + 1], perUnit) ==
            AddPending(Deposited(roads, path[..i], perUnit), path[i], Share(perUnit, roads[path[i]]))
    ensures Share(perUnit, Deposited(roads, path[..i], perUnit)[path[i]]) == Share(perUnit, roads[path[i]])
  {
    var prefix := path[..i + 1];
    assert prefix[..|prefix| - 1] == path[..i];
  }

  lemma Distribute(k: real, x: real, y: real)
    ensures k * (x + y) == k * x + k * y
  {
  }

  /** When the rate is `available / D` for a walk of length `D > 0`, exactly `available` is deposited. */
  lemma DepositConserves(roads: seq<Road>, path: seq<nat>, available: real)
    requires PathOk(roads, path) && SumDist(roads, path) > 0.0
    ensures SumPending(Deposited(roads, path, available / SumDist(roads, path))) == SumPending(roads) + available
    ensures SumPheromone(Deposited(roads, path, available / SumDist(roads, path))) == SumPheromone(roads)
  {
    var length := SumDist(roads, path);
    var rate := available / length;
    DepositedTotals(roads, path, rate);
    DepositAmountIsRateTimesLength(roads, path, rate);
    RateTimesLength(available, length);
  }

  /** Spreading `available` at `available / length` per unit over `length` gives back `available`. */
  lemma RateTimesLength(available: real, length: real)
    requires length > 0.0
    ensures available / length * length == available
  {
  }

  /** A non-negative amount spread over a positive length gives a non-negative rate. */
  lemma RateNonNegative(available: real, length: real)
    requires available >= 0.0 && length > 0.0
    ensures available / length >= 0.0
  {
    RateTimesLength(available, length);
  }

  /** A deposit at a non-negative rate keeps the map well formed. */
  lemma DepositedWellFormed(cities: seq<City>, roads: seq<Road>, path: seq<nat>, perUnit: real)
    requires WellFormed(cities, roads) && PathOk(roads, path) && perUnit >= 0.0
    ensures WellFormed(cities, Deposited(roads, path, perUnit))
  {
  }

  /**
   * A map in a consistent state: well formed, every road listed by both of
   * its cities, and the two kept totals equal to the sums over the roads.
   */
  ghost predicate Consistent(cities: seq<City>, roads: seq<Road>, active: real, pending: real)
  {
    WellFormed(cities, roads) && Listed(cities, roads) &&
    active == SumPheromone(roads) && pending == SumPending(roads)
  }

  /** A decay pass keeps the map consistent, with the totals it recomputes. */
  lemma DecayedConsistent(cities: seq<City>, roads: seq<Road>, active: real, pending: real)
    requires Consistent(cities, roads, active, pending)
    ensures Consistent(cities, Decayed(roads), active / 2.0 + pending, 0.0)
  {
    DecayedTotals(roads);
    DecayedWellFormed(cities, roads);
    ListedKeepsEnds(cities, roads, Decayed(roads));
  }

  /** A deposit of `available` along a walk of positive length keeps the map consistent once `available` is added to the pending total. */
  lemma DepositedConsistent(cities: seq<City>, roads: seq<Road>, active: real, pending: real,
                            path: seq<nat>, available: real)
    requires Consistent(cities, roads, active, pending)
    requires PathOk(roads, path) && SumDist(roads, path) > 0.0 && available >= 0.0
    ensures Consistent(cities, Deposited(roads, path, available / SumDist(roads, path)), active, pending + available)
  {
    var perUnit := available / SumDist(roads, path);
    RateNonNegative(available, SumDist(roads, path));
    DepositConserves(roads, path, available);
    DepositedWellFormed(cities, roads, path, perUnit);
    ListedKeepsEnds(cities, roads, Deposited(roads, path, perUnit));
  }

  /**
   * The decay loop: each road in turn is halved, gets its pending pheromone
   * added, and has it cleared, while both totals are summed up afresh.
   */
  method DecayRoads(original: seq<Road>) returns (roads: seq<Road>, totalPheromones: real, totalPending: real)
    ensures roads == Decayed(original)
    ensures totalPheromones == SumPheromone(roads) && totalPending == SumPending(roads)
  {
    totalPheromones := 0.0;
    totalPending := 0.0;
    roads := original;
    for i := 0 to |roads|
      invariant |roads| == |original|
      invariant forall j :: 0 <= j < i ==> roads[j] == Flushed(original[j])
      invariant forall j :: i <= j < |roads| ==> roads[j] == original[j]
      invariant totalPheromones == SumPheromone(roads[..i])
      invariant totalPending == SumPending(roads[..i])
    {
      ghost var previous := roads;
      var r := roads[i];
      r := r.(pheromone := r.pheromone / 2.0);
      r := r.(pheromone := r.pheromone + r.pheromonePending);
      r := r.(pheromonePending := 0.0);
      roads := roads[i := r];
      assert roads[..i + 1][..i] == roads[..i] == previous[..i];
      totalPheromones := totalPheromones + r.pheromone;
      totalPending := totalPending + r.pheromonePending;
    }
    assert roads == Decayed(original);
    assert roads[..|roads|] == roads;
  }

  /** The deposit loop: each traversal on `path` adds `perUnit` times the road's length to its pending pheromone. */
  method DepositAlong(original: seq<Road>, path: seq<nat>, perUnit: real) returns (roads: seq<Road>)
    requires PathOk(original, path)
    ensures roads == Deposited(original, path, perUnit)
  {
    roads := original;
    for i := 0 to |path|
      invariant PathOk(original, path[..i])
      invariant roads == Deposited(original, path[..i], perUnit)
    {
      var r := path[i];
      var road := roads[r];
      DepositedNext(original, path, perUnit, i);
      roads := roads[r := road.(pheromonePending := road.pheromonePending + Share(perUnit, road))];
    }
    assert path[..|path|] == path;
  }

  /** A new city, with no roads, leaves every road listed by its cities. */
  lemma ListedAddCity(cities: seq<City>, roads: seq<Road>, city: City)
    requires WellFormed(cities, roads) && Listed(cities, roads) && city.roads == []
    ensures WellFormed(cities + [city], roads) && Listed(cities + [city], roads)
  {
    var after := cities + [city];
    assert forall c :: 0 <= c < |cities| ==> after[c] == cities[c];
    forall i | 0 <= i < |roads|
      ensures ListedAt(after, roads, i)
    {
      assert ListedAt(cities, roads, i);
      assert after[roads[i].a] == cities[roads[i].a] && after[roads[i].b] == cities[roads[i].b];
    }
  }

  /**
   * A new road between two distinct cities, appended to both of their road
   * lists and to the map's, leaves every road listed by both of its cities.
   */
  lemma ListedConnect(cities: seq<City>, roads: seq<Road>, road: Road)
    requires WellFormed(cities, roads) && Listed(cities, roads)
    requires road.a < |cities| && road.b < |cities| && road.a != road.b
    ensures var id := |roads|;
            var once := cities[road.a := cities[road.a].(roads := cities[road.a].roads + [id])];
            var twice := once[road.b := once[road.b].(roads := once[road.b].roads + [id])];
            Listed(twice, roads + [road])
  {
    var id := |roads|;
    var once := cities[road.a := cities[road.a].(roads := cities[road.a].roads + [id])];
    var twice := once[road.b := once[road.b].(roads := once[road.b].roads + [id])];
    var after := roads + [road];
    assert forall c :: 0 <= c < |cities| ==> cities[c].roads <= twice[c].roads;
    forall i | 0 <= i < |after|
      ensures ListedAt(twice, after, i)
    {
      if i < id {
        assert ListedAt(cities, roads, i);
        assert after[i] == roads[i];
      } else {
        assert twice[road.a].roads == cities[road.a].roads + [id];
        assert twice[road.b].roads == cities[road.b].roads + [id];
      }
    }
  }

  // ---------------------------------------------------------------------------

  /**
   * The map: its cities, its roads, and the two totals it keeps of the
   * roads' pheromone.  The totals always equal the true sums.
   */
  class CityMap {
    var cities: seq<City>
    var roads: seq<Road>
    var totalPheromones: real
    var totalPheromonesPending: real

    ghost predicate Valid()
      reads this
    {
      Consistent(cities, roads, totalPheromones, totalPheromonesPending)
    }

    constructor ()
      ensures Valid()
      ensures cities == [] && roads == []
      ensures totalPheromones == 0.0 && totalPheromonesPending == 0.0
    {
      cities := [];
      roads := [];
      totalPheromones := 0.0;
      totalPheromonesPending := 0.0;
    }

    /** Appends a city with no roads and returns its index. */
    method AddCity(x: real, y: real, name: string) returns (index: nat)
      requires Valid()
      modifies this
      ensures Valid()
      ensures index == |old(cities)|
      ensures cities == old(cities) + [City(x, y, name, [])]
      ensures roads == old(roads)
      ensures totalPheromones == old(totalPheromones)
      ensures totalPheromonesPending == old(totalPheromonesPending)
    {
      ListedAddCity(cities, roads, City(x, y, name, []));
      index := |cities|;
      cities := cities + [City(x, y, name, [])];
    }

    /**
     * Creates a road between cities `a` and `b`, as long as the straight line
     * between them, and appends it to the road list of `a`, of `b` and of the map.
     */
    method ConnectCities(a: nat, b: nat, root: real -> real)
      requires Valid()
      requires a < |cities| && b < |cities| && a != b && Distance(root, cities[a], cities[b]) > 0.0
      modifies this
      ensures Valid()
      ensures roads == old(roads) + [Road(a, b, Distance(root, old(cities[a]), old(cities[b])), 0.0, 0.0)]
      ensures |cities| == |old(cities)|
      ensures cities[a] == old(cities[a]).(roads := old(cities[a].roads) + [|old(roads)|])
      ensures cities[b] == old(cities[b]).(roads := old(cities[b].roads) + [|old(roads)|])
      ensures forall c :: 0 <= c < |cities| && c != a && c != b ==> cities[c] == old(cities[c])
      ensures totalPheromones == old(totalPheromones)
      ensures totalPheromonesPending == old(totalPheromonesPending)
    {
      var newRoad := Road(a, b, Distance(root, cities[a], cities[b]), 0.0, 0.0);
      var id := |roads|;
      ListedConnect(cities, roads, newRoad);
      cities := cities[a := cities[a].(roads := cities[a].roads + [id])];
      cities := cities[b := cities[b].(roads := cities[b].roads + [id])];
      roads := roads + [newRoad];
      assert roads[..id] == old(roads);
    }

    /** The length of all roads together. */
    method SumRoadDistances() returns (sum: real)
      ensures sum == SumDistances(roads)
    {
      sum := 0.0;
      for i := 0 to |roads|
        invariant sum == SumDistances(roads[..i])
      {
        assert roads[..i + 1][..i] == roads[..i];
        sum := sum + roads[i].distance;
      }
      assert roads[..|roads|] == roads;
    }
  }
}
