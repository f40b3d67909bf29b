/**
 * The colony: one iteration at a time, it lets pheromone decay every
 * `PheromonesHalfLife` iterations, sends out one ant, and either discards
 * the walk or deposits pheromone along it and keeps the shortest tour found.
 */
module Colony {
  import opened Wrappers
  import opened Graph
  import opened Heuristic
  import opened AntWalk

  /** Pheromone is halved (and pending pheromone made active) once every this many iterations. */
  const PheromonesHalfLife: nat := 1000
  /** Share of the map's pheromone given as a bonus to a tour shorter than the best so far. */
  const BestDistanceFactor: real := 0.66

  /**
   * The pheromone a closed walk deposits: one unit per city, divided by the
   * number of moves beyond one per city, plus a bonus of `BestDistanceFactor`
   * of the map's pheromone when the walk beats the best distance so far.
   */
  function Available(cityCount: nat, moves: nat, distance: real, minDistance: real, mapPheromones: real): (available: real)
    ensures cityCount > 0 && mapPheromones >= 0.0 ==> available > 0.0
  {
    var available := cityCount as real;
    var available := if moves > cityCount then available / ((moves - cityCount) as real) else available;
    if distance < minDistance then available + mapPheromones * BestDistanceFactor else available
  }

  /** Before any tour has closed (`minDistance` is -1) there is no bonus: the first tour gets only its base share. */
  lemma NoBonusWithoutIncumbent(cityCount: nat, moves: nat, distance: real, minDistance: real, mapPheromones: real)
    requires minDistance < 0.0 && distance >= 0.0
    ensures Available(cityCount, moves, distance, minDistance, mapPheromones) ==
            if moves > cityCount then (cityCount as real) / ((moves - cityCount) as real) else cityCount as real
  {
  }

  /** Dividing a non-negative amount by a larger positive number leaves no more of it. */
  lemma DivideByMore(n: real, a: real, b: real)
    requires n >= 0.0 && 0.0 < a <= b
    ensures n / b <= n / a
  {
    var p := n / a;
    var q := n / b;
    assert p * a == n && q * b == n;
    assert q >= 0.0;
    assert q * a <= q * b;
  }

  /** A walk that needs more moves deposits no more pheromone: extra moves dilute the deposit. */
  lemma ExtraMovesDilute(cityCount: nat, fewer: nat, more: nat, distance: real, minDistance: real, mapPheromones: real)
    requires fewer <= more
    ensures Available(cityCount, more, distance, minDistance, mapPheromones) <=
            Available(cityCount, fewer, distance, minDistance, mapPheromones)
  {
    var n := cityCount as real;
    if fewer > cityCount {
      DivideByMore(n, (fewer - cityCount) as real, (more - cityCount) as real);
    } else if more > cityCount {
      DivideByMore(n, 1.0, (more - cityCount) as real);
    }
  }

  /** Whether a closed walk of length `distance` replaces the best tour: when there is none yet, or it is strictly shorter. */
  predicate Improves(minDistance: real, distance: real)
  {
    minDistance < 0.0 || distance < minDistance
  }

  /** Once a best tour exists, a replacement is strictly shorter, and a tie keeps the earlier tour. */
  lemma ImprovesOnlyWhenShorter(minDistance: real, distance: real)
    requires minDistance >= 0.0
    ensures Improves(minDistance, distance) <==> distance < minDistance
    ensures distance == minDistance ==> !Improves(minDistance, distance)
  {
  }

  /** The roads after the decay step of iteration number `iteration`. */
  function AfterDecayStep(roads: seq<Road>, iteration: nat): seq<Road>
  {
    if iteration % PheromonesHalfLife == 0 then Decayed(roads) else roads
  }

  /** What the ants of one iteration see of `roads`: the active pheromone total and the average road length. */
  ghost function SceneOf(cities: seq<City>, roads: seq<Road>): (scene: Scene)
    ensures scene.cities == cities && scene.roads == roads
    ensures WellFormed(cities, roads) ==> SceneOk(scene)
  {
    var scene := Scene(cities, roads, SumPheromone(roads),
                       if |roads| > 0 then SumDistances(roads) / (|roads| as real) else 0.0);
    if WellFormed(cities, roads) then (SumDistancesPositive(roads); scene) else scene
  }

  /**
   * How an iteration ended.  The source's method returns nothing; this names
   * its outcome: a closed tour, a walk that was discarded, or the dead end
   * where the source dereferences a null road and throws.
   */
  datatype Iteration =
    | Completed(ant: Ant, moves: nat, distance: real, available: real)
    | Ignored(ant: Ant, moves: nat)
    | Crashed

  /** The simulation: the map, the iteration counters and the best tour found so far. */
  class Tsp {
    const cityMap: CityMap
    var iterations: nat
    var ignored: nat
    /** Length of the best tour, or -1 while there is none. */
    var minDistance: real
    var minDistanceIteration: nat
    var bestRoadsSet: Option<set<nat>>

    ghost predicate Valid()
      reads this, cityMap
    {
      cityMap.Valid() && ignored <= iterations &&
      (minDistance < 0.0 ==> minDistance == -1.0 && bestRoadsSet == None && minDistanceIteration == 0) &&
      (minDistance >= 0.0 ==> minDistance > 0.0 && bestRoadsSet.Some? && 0 < minDistanceIteration <= iterations)
    }

    constructor (cityMap: CityMap)
      requires cityMap.Valid()
      ensures Valid() && this.cityMap == cityMap
      ensures iterations == 0 && ignored == 0
      ensures minDistance == -1.0 && minDistanceIteration == 0 && bestRoadsSet == None
    {
      this.cityMap := cityMap;
      iterations := 0;
      ignored := 0;
      minDistance := -1.0;
      minDistanceIteration := 0;
      bestRoadsSet := None;
    }

    /**
     * The decay pass: each road's pheromone is halved, its pending pheromone
     * added and then cleared, and both map totals recomputed from the roads.
     */
    method DecayPheromones()
      requires cityMap.Valid()
      modifies cityMap
      ensures cityMap.Valid()
      ensures cityMap.cities == old(cityMap.cities)
      ensures cityMap.roads == Decayed(old(cityMap.roads))
      ensures cityMap.totalPheromones == old(cityMap.totalPheromones) / 2.0 + old(cityMap.totalPheromonesPending)
      ensures cityMap.totalPheromonesPending == 0.0
    {
      var roads, totalPheromones, totalPending := DecayRoads(cityMap.roads);
      DecayedConsistent(cityMap.cities, cityMap.roads, cityMap.totalPheromones, cityMap.totalPheromonesPending);
      cityMap.roads := roads;
      cityMap.totalPheromones := totalPheromones;
      cityMap.totalPheromonesPending := totalPending;
    }

    /**
     * The deposit after a closed walk: every traversal of a road adds
     * `available / tourDistance` times its length to its pending pheromone,
     * and `available` is added to the pending total.
     */
    method DepositPheromones(path: seq<nat>, available: real, tourDistance: real)
      requires cityMap.Valid() && PathOk(cityMap.roads, path)
      requires tourDistance == SumDist(cityMap.roads, path) && tourDistance > 0.0 && available >= 0.0
      modifies cityMap
      ensures cityMap.Valid()
      ensures cityMap.cities == old(cityMap.cities)
      ensures cityMap.roads == Deposited(old(cityMap.roads), path, available / tourDistance)
      ensures cityMap.totalPheromones == old(cityMap.totalPheromones)
      ensures cityMap.totalPheromonesPending == old(cityMap.totalPheromonesPending) + available
    {
      var roads := DepositAlong(cityMap.roads, path, available / tourDistance);
      DepositedConsistent(cityMap.cities, cityMap.roads, cityMap.totalPheromones, cityMap.totalPheromonesPending, path, available);
      cityMap.roads := roads;
      cityMap.totalPheromonesPending := cityMap.totalPheromonesPending + available;
    }

    /**
     * The start of an iteration: count it, let pheromone decay when the
     * count is a multiple of `PheromonesHalfLife`, and take the average road
     * length the ratings are relative to.
     */
    method BeginIteration() returns (scene: Scene)
      requires Valid()
      modifies this, cityMap
      ensures Valid()
      ensures iterations == old(iterations) + 1 && ignored == old(ignored)
      ensures minDistance == old(minDistance) && bestRoadsSet == old(bestRoadsSet) &&
              minDistanceIteration == old(minDistanceIteration)
      ensures cityMap.cities == old(cityMap.cities)
      ensures cityMap.roads == AfterDecayStep(old(cityMap.roads), iterations)
      ensures scene == SceneOf(cityMap.cities, cityMap.roads)
    {
      iterations := iterations + 1;
      if iterations % PheromonesHalfLife == 0 {
        DecayPheromones();
      }
      var totalRoadsDistance := cityMap.SumRoadDistances();
      var avgDistance := if |cityMap.roads| > 0 then totalRoadsDistance / (|cityMap.roads| as real) else 0.0;
      scene := Scene(cityMap.cities, cityMap.roads, cityMap.totalPheromones, avgDistance);
    }

    /** A walk that did not close is discarded and counted. */
    method CountIgnored()
      requires Valid() && ignored < iterations
      modifies this
      ensures Valid()
      ensures ignored == old(ignored) + 1
      ensures iterations == old(iterations) && minDistance == old(minDistance) &&
              bestRoadsSet == old(bestRoadsSet) && minDistanceIteration == old(minDistanceIteration)
    {
      ignored := ignored + 1;
    }

    /**
     * The reward for a closed walk: the pheromone it makes available is
     * deposited along it, and it becomes the best tour when there is none
     * yet or it is strictly shorter.
     */
    method RecordTour(ant: Ant, moves: nat, distance: real, ghost before: seq<Road>, ghost best: real)
      returns (available: real)
      requires Valid() && |cityMap.cities| > 0 && iterations > 0
      requires before == cityMap.roads && best == minDistance
      requires PathOk(cityMap.roads, ant.roadsList)
      requires distance == SumDist(cityMap.roads, ant.roadsList) && distance > 0.0
      modifies this, cityMap
      ensures Valid()
      ensures cityMap.cities == old(cityMap.cities)
      ensures iterations == old(iterations) && ignored == old(ignored)
      ensures available == Available(|cityMap.cities|, moves, distance, best, SumPheromone(before) + SumPending(before))
      ensures cityMap.roads == Deposited(before, ant.roadsList, available / distance)
      ensures cityMap.totalPheromonesPending == SumPending(before) + available
      ensures Improves(best, distance) ==>
        minDistance == distance && bestRoadsSet == Some(ant.roadsSet) && minDistanceIteration == iterations
      ensures !Improves(best, distance) ==>
        minDistance == old(minDistance) && bestRoadsSet == old(bestRoadsSet) &&
        minDistanceIteration == old(minDistanceIteration)
    {
      available := Available(|cityMap.cities|, moves, distance, minDistance,
                             cityMap.totalPheromones + cityMap.totalPheromonesPending);
      DepositPheromones(ant.roadsList, available, distance);
      if minDistance < 0.0 || distance < minDistance {
        minDistance := distance;
        bestRoadsSet := Some(ant.roadsSet);
        minDistanceIteration := iterations;
      }
    }

    /**
     * One iteration: count it, decay every `PheromonesHalfLife` iterations,
     * walk one ant from `startIndex`, then discard the walk if it did not
     * close, or deposit pheromone along it and update the best tour.
     * `root` stands for the square root, `random` for the draws of the
     * ratings (by move and by position among the candidate roads).
     */
    method RunOneIteration(startIndex: nat, root: real -> real, random: (nat, nat) -> Draw)
      returns (result: Iteration, ghost decayed: seq<Road>, ghost scene: Scene)
      requires Valid() && startIndex < |cityMap.cities|
      modifies this, cityMap
      ensures Valid()
      ensures iterations == old(iterations) + 1
      ensures cityMap.cities == old(cityMap.cities)
      ensures decayed == AfterDecayStep(old(cityMap.roads), iterations)
      ensures !result.Completed? ==>
        cityMap.roads == decayed &&
        minDistance == old(minDistance) && bestRoadsSet == old(bestRoadsSet) &&
        minDistanceIteration == old(minDistanceIteration)
      ensures scene == SceneOf(cityMap.cities, decayed) && SceneOk(scene) && startIndex < |scene.cities|
      ensures result.Crashed? ==>
        ignored == old(ignored) && WalkFrom(scene, root, random, startIndex).stuck
      ensures result.Ignored? ==>
        ignored == old(ignored) + 1 && !Closed(|cityMap.cities|, startIndex, result.ant) &&
        var w := WalkFrom(scene, root, random, startIndex);
        !w.stuck && w.ant == result.ant && w.moves == result.moves
      ensures result.Completed? ==>
        ignored == old(ignored) &&
        WalkFrom(scene, root, random, startIndex) ==
          Walked(result.ant, result.moves, result.distance, false)
      ensures result.Completed? ==>
        Closed(|cityMap.cities|, startIndex, result.ant) && PathOk(decayed, result.ant.roadsList) &&
        result.moves == |result.ant.roadsList| <= MaxMoves(|cityMap.cities|) &&
        result.distance == SumDist(decayed, result.ant.roadsList) && result.distance > 0.0
      ensures result.Completed? ==>
        result.available == Available(|cityMap.cities|, result.moves, result.distance, old(minDistance),
                                      SumPheromone(decayed) + SumPending(decayed))
      ensures result.Completed? ==>
        cityMap.roads == Deposited(decayed, result.ant.roadsList, result.available / result.distance) &&
        cityMap.totalPheromonesPending == SumPending(decayed) + result.available
      ensures result.Completed? && Improves(old(minDistance), result.distance) ==>
        minDistance == result.distance && bestRoadsSet == Some(result.ant.roadsSet) &&
        minDistanceIteration == iterations
      ensures result.Completed? && !Improves(old(minDistance), result.distance) ==>
        minDistance == old(minDistance) && bestRoadsSet == old(bestRoadsSet) &&
        minDistanceIteration == old(minDistanceIteration)
      ensures old(minDistance) >= 0.0 ==> 0.0 < minDistance <= old(minDistance)
    {
      var view := BeginIteration();
      scene := view;
      decayed := cityMap.roads;
      var startCity := startIndex;
      var ant, moves, distance, stuck := Walk(view, root, random, startCity);
      WalkEnds(view, root, random, startCity);
      if stuck {
        result := Crashed;
        return;
      }
      if |ant.visited| < |cityMap.cities| || ant.current != startCity {
        CountIgnored();
        result := Ignored(ant, moves);
        return;
      }

      var available := RecordTour(ant, moves, distance, decayed, old(minDistance));
      result := Completed(ant, moves, distance, available);
    }
  }
}
