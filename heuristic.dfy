/**
 * How an ant rates the roads leaving its city, and which road it takes:
 * the first road with the highest rating, provided that rating beats the
 * floor of -10000.
 */
module Heuristic {
  import opened Wrappers
  import opened Graph

  /** Weight of the road-length term (negative: long roads are penalised). */
  const DistanceFactor: real := -1.0
  /** Weight of the pheromone term. */
  const PheromoneFactor: real := 1.0
  /** Added when the road leads to a city already visited on this walk. */
  const VisitedPenalisation: real := -2.0
  /** Added when the road was already travelled on this walk. */
  const VisitedRoadPenalisation: real := -1.0
  /** Added on top when the road is the one just travelled (going straight back). */
  const ReturnSameWayPenalisation: real := -1.0
  /** Chance that a rating gets a random perturbation. */
  const RandomProbability: real := 0.01
  /** Size of the random perturbation. */
  const RandomFactor: real := 100.0
  /** The rating a road has to beat to be taken at all. */
  const RatingFloor: real := -10000.0

  /**
   * The two uniform draws from [0, 1) the source makes for one rating: the
   * first decides whether noise is added, the second is its size.
   */
  datatype Draw = Draw(chance: real, spread: real)

  /** The random term of a rating: zero unless the first draw falls below `RandomProbability`. */
  function Noise(draw: Draw): (noise: real)
    ensures 0.0 <= draw.spread < 1.0 ==> -RandomFactor / 2.0 <= noise < RandomFactor / 2.0
    ensures RandomProbability <= draw.chance ==> noise == 0.0
  {
    if draw.chance < RandomProbability then RandomFactor * (draw.spread - 0.5) else 0.0
  }

  /**
   * What the rating reads from the map: its cities and roads, the active
   * pheromone total, and the average road length.
   */
  datatype Scene = Scene(cities: seq<City>, roads: seq<Road>, totalPheromones: real, avgDistance: real)

  /**
   * The state of an ant in the middle of a walk: the city it stands in, the
   * cities it has entered, and the roads it has travelled, as a set and in order.
   */
  datatype Ant = Ant(current: nat, visited: set<nat>, roadsSet: set<nat>, roadsList: seq<nat>)

  /**
   * The rating of road `r` for an ant standing in `ant.current`: a length
   * penalty (through `root`, the square root), a pheromone bonus when the map
   * holds active pheromone, the penalties for revisiting and for reusing a
   * road, and the noise.  `root` stands for the square root the source takes.
   */
  function Rating(s: Scene, root: real -> real, ant: Ant, r: nat, draw: Draw): real
    requires r < |s.roads| && s.roads[r].distance > 0.0 && s.avgDistance > 0.0
    requires r in ant.roadsSet ==> ant.roadsList != []
  {
    var road := s.roads[r];
    var opposite := Opposite(road, ant.current);
    var relative := road.distance / s.avgDistance;
    var rating := DistanceFactor * root(relative);
    var rating := if s.totalPheromones > 0.0
      then rating + PheromoneFactor * (road.pheromone / s.totalPheromones * (|s.cities| as real) / relative)
      else rating;
    var rating := if opposite in ant.visited then rating + VisitedPenalisation else rating;
    var rating := if r in ant.roadsSet
      then rating + VisitedRoadPenalisation +
           (if r == ant.roadsList[|ant.roadsList| - 1] then ReturnSameWayPenalisation else 0.0)
      else rating;
    rating + Noise(draw)
  }

  /** The same ant, before it had entered any city or travelled any road. */
  function Fresh(ant: Ant): Ant
  {
    Ant(ant.current, {}, {}, [])
  }

  /**
   * The penalties are added exactly: -2 when the far city was visited, -1
   * when the road was travelled, and a further -1 when it is the road just
   * travelled.  Everything else in the rating does not depend on the walk so far.
   */
  lemma RatingPenalties(s: Scene, root: real -> real, ant: Ant, r: nat, draw: Draw)
    requires r < |s.roads| && s.roads[r].distance > 0.0 && s.avgDistance > 0.0
    requires r in ant.roadsSet ==> ant.roadsList != []
    ensures Rating(s, root, ant, r, draw) == Rating(s, root, Fresh(ant), r, draw)
      + (if Opposite(s.roads[r], ant.current) in ant.visited then -2.0 else 0.0)
      + (if r in ant.roadsSet then -1.0 else 0.0)
      + (if r in ant.roadsSet && r == ant.roadsList[|ant.roadsList| - 1] then -1.0 else 0.0)
  {
  }

  /** Without active pheromone on the map, a road's pheromone does not enter its rating. */
  lemma NoPheromoneNoBonus(s: Scene, root: real -> real, ant: Ant, r: nat, draw: Draw, level: real)
    requires r < |s.roads| && s.roads[r].distance > 0.0 && s.avgDistance > 0.0
    requires r in ant.roadsSet ==> ant.roadsList != []
    requires s.totalPheromones <= 0.0
    ensures Rating(s, root, ant, r, draw) ==
            Rating(s.(roads := s.roads[r := s.roads[r].(pheromone := level)]), root, ant, r, draw)
  {
  }

  // ---------------------------------------------------------------------------
  // Road selection: one pass over the ratings, keeping a candidate and the best
  // rating so far, replacing them only on a strictly greater rating.

  /** The candidate position and best rating after the pass has read `ratings`. */
  function Scan(ratings: seq<real>): (scan: (Option<nat>, real))
    ensures scan.0.Some? ==> scan.0.value < |ratings|
  {
    if ratings == [] then (None, RatingFloor)
    else
      var (selected, maxRating) := Scan(ratings[..|ratings| - 1]);
      var rating := ratings[|ratings| - 1];
      if rating > maxRating then (Some(|ratings| - 1), rating) else (selected, maxRating)
  }

  /** The position the pass selects, or `None` (the source's `null`). */
  function Pick(ratings: seq<real>): (k: Option<nat>)
    ensures k.Some? ==> k.value < |ratings|
  {
    Scan(ratings).0
  }

  /**
   * Position `k` holds a rating above the floor that no rating beats, and
   * every earlier rating is strictly smaller: `k` is the first maximum.
   */
  ghost predicate IsFirstMax(ratings: seq<real>, k: nat)
  {
    k < |ratings| && ratings[k] > RatingFloor &&
    (forall j :: 0 <= j < |ratings| ==> ratings[j] <= ratings[k]) &&
    (forall j :: 0 <= j < k ==> ratings[j] < ratings[k])
  }

  /** What the pass keeps after each prefix: the best so far, and the first position holding it. */
  lemma {:induction false} ScanKeepsFirstMax(ratings: seq<real>)
    ensures Scan(ratings).1 >= RatingFloor
    ensures forall j :: 0 <= j < |ratings| ==> ratings[j] <= Scan(ratings).1
    ensures Scan(ratings).0.None? ==> Scan(ratings).1 == RatingFloor
    ensures Scan(ratings).0.Some? ==>
      IsFirstMax(ratings, Scan(ratings).0.value) && ratings[Scan(ratings).0.value] == Scan(ratings).1
  {
    if ratings != [] {
      var init := ratings[..|ratings| - 1];
      ScanKeepsFirstMax(init);
      assert forall j :: 0 <= j < |init| ==> ratings[j] == init[j];
    }
  }

  /**
   * The selection rule: nothing is selected exactly when no rating beats the
   * floor (an empty list included); otherwise the first maximum is selected.
   */
  lemma PickIsFirstMax(ratings: seq<real>)
    ensures Pick(ratings).None? <==> forall j :: 0 <= j < |ratings| ==> ratings[j] <= RatingFloor
    ensures Pick(ratings).Some? ==> IsFirstMax(ratings, Pick(ratings).value)
  {
    ScanKeepsFirstMax(ratings);
  }

  /** There is only one first maximum. */
  lemma FirstMaxUnique(ratings: seq<real>, k: nat, m: nat)
    requires IsFirstMax(ratings, k) && IsFirstMax(ratings, m)
    ensures k == m
  {
  }

  /** Ties go to the earlier road: a later road rated the same as an earlier one is never selected. */
  lemma TieKeepsEarlier(ratings: seq<real>, i: nat, j: nat)
    requires i < j < |ratings| && ratings[i] == ratings[j]
    ensures Pick(ratings) != Some(j)
  {
    PickIsFirstMax(ratings);
  }
}
