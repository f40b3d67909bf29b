/**
 * One ant's walk: from a start city it repeatedly takes the best-rated road
 * out of its current city, until it has entered every city and stands in the
 * start city again, or until its budget of moves runs out.
 */
module AntWalk {
  import opened Wrappers
  import opened Graph
  import opened Heuristic

  /** The move budget is this many moves per city. */
  const MaxMovesFactor: nat := 8

  function MaxMoves(cityCount: nat): nat
  {
    cityCount * MaxMovesFactor
  }

  /** The map is well formed, and the average road length is positive whenever there are roads. */
  ghost predicate SceneOk(s: Scene)
  {
    WellFormed(s.cities, s.roads) && (|s.roads| > 0 ==> s.avgDistance > 0.0)
  }

  /** The city an ant reaches from `start` by following `path`, each road to its opposite end. */
  function EndOf(s: Scene, start: nat, path: seq<nat>): (city: nat)
    requires WellFormed(s.cities, s.roads) && start < |s.cities| && PathOk(s.roads, path)
    ensures city < |s.cities|
  {
    if path == [] then start
    else Opposite(s.roads[path[|path| - 1]], EndOf(s, start, path[..|path| - 1]))
  }

  /** The cities entered along `path`: the start city counts only once the ant comes back to it. */
  function VisitedAlong(s: Scene, start: nat, path: seq<nat>): (visited: set<nat>)
    requires WellFormed(s.cities, s.roads) && start < |s.cities| && PathOk(s.roads, path)
    ensures forall c :: c in visited ==> c < |s.cities|
  {
    if path == [] then {}
    else VisitedAlong(s, start, path[..|path| - 1]) + {EndOf(s, start, path)}
  }

  /**
   * The roads on `path`, i.e. `set r | r in path`, built one road at a time
   * the way the walk adds them, which keeps the proofs about the walk cheap.
   */
  function Elems(path: seq<nat>): set<nat>
  {
    if path == [] then {} else Elems(path[..|path| - 1]) + {path[|path| - 1]}
  }

  /** The state of an ant that has walked `path` from `start`. */
  function AntAfter(s: Scene, start: nat, path: seq<nat>): (ant: Ant)
    requires WellFormed(s.cities, s.roads) && start < |s.cities| && PathOk(s.roads, path)
    ensures ant.current < |s.cities| && ant.roadsList == path
    ensures ant.roadsSet != {} ==> ant.roadsList != []
  {
    Ant(EndOf(s, start, path), VisitedAlong(s, start, path), Elems(path), path)
  }

  /** An ant that has not walked yet stands in its start city and has entered no city. */
  lemma AntAfterNothing(s: Scene, start: nat)
    requires WellFormed(s.cities, s.roads) && start < |s.cities|
    ensures AntAfter(s, start, []) == Ant(start, {}, {}, [])
  {
  }

  /** One more road moves the ant to its opposite end, which it then has entered. */
  lemma AntAfterStep(s: Scene, start: nat, path: seq<nat>, r: nat)
    requires WellFormed(s.cities, s.roads) && start < |s.cities| && PathOk(s.roads, path) && r < |s.roads|
    ensures PathOk(s.roads, path + [r])
    ensures var before := AntAfter(s, start, path);
            var next := Opposite(s.roads[r], before.current);
            AntAfter(s, start, path + [r]) ==
              Ant(next, before.visited + {next}, before.roadsSet + {r}, before.roadsList + [r])
    ensures SumDist(s.roads, path + [r]) == SumDist(s.roads, path) + s.roads[r].distance
  {
    assert (path + [r])[..|path|] == path;
  }

  /** Whether the walk loop stops: every city entered and the ant back at its start. */
  predicate Closed(cityCount: nat, start: nat, ant: Ant)
  {
    !(|ant.visited| < cityCount || ant.current != start)
  }

  /** The ratings of the first `n` roads out of the ant's city, in the order the city lists them. */
  function RatingsUpTo(s: Scene, root: real -> real, random: (nat, nat) -> Draw, move: nat, ant: Ant, n: nat): (ratings: seq<real>)
    requires SceneOk(s) && ant.current < |s.cities|
    requires ant.roadsSet != {} ==> ant.roadsList != []
    requires n <= |s.cities[ant.current].roads|
    ensures |ratings| == n
  {
    if n == 0 then []
    else
      var r := s.cities[ant.current].roads[n - 1];
      RatingsUpTo(s, root, random, move, ant, n - 1) + [Rating(s, root, ant, r, random(move, n - 1))]
  }

  /** The ratings of all the roads out of the ant's city; the `k`-th rating uses the draws for (move, k). */
  function Ratings(s: Scene, root: real -> real, random: (nat, nat) -> Draw, move: nat, ant: Ant): (ratings: seq<real>)
    requires SceneOk(s) && ant.current < |s.cities|
    requires ant.roadsSet != {} ==> ant.roadsList != []
    ensures |ratings| == |s.cities[ant.current].roads|
  {
    RatingsUpTo(s, root, random, move, ant, |s.cities[ant.current].roads|)
  }

  /**
   * The pass over the first `n` roads out of the ant's city: the position
   * of the road selected so far and the best rating so far.  This is
   * `Scan` with each rating computed as the pass reaches it, so that the
   * walk's specification does not build the whole sequence of ratings;
   * `BestIsScan` proves the two agree.
   */
  function Best(s: Scene, root: real -> real, random: (nat, nat) -> Draw, move: nat, ant: Ant, n: nat): (best: (Option<nat>, real))
    requires SceneOk(s) && ant.current < |s.cities|
    requires ant.roadsSet != {} ==> ant.roadsList != []
    requires n <= |s.cities[ant.current].roads|
    ensures best.0.Some? ==> best.0.value < n
  {
    if n == 0 then (None, RatingFloor)
    else
      var (selected, maxRating) := Best(s, root, random, move, ant, n - 1);
      var rating := Rating(s, root, ant, s.cities[ant.current].roads[n - 1], random(move, n - 1));
      if rating > maxRating then (Some(n - 1), rating) else (selected, maxRating)
  }

  /** The pass over the roads is the selection rule `Scan` applied to their ratings. */
  lemma {:induction false} BestIsScan(s: Scene, root: real -> real, random: (nat, nat) -> Draw, move: nat, ant: Ant, n: nat)
    requires SceneOk(s) && ant.current < |s.cities|
    requires ant.roadsSet != {} ==> ant.roadsList != []
    requires n <= |s.cities[ant.current].roads|
    ensures Best(s, root, random, move, ant, n) == Scan(RatingsUpTo(s, root, random, move, ant, n))
  {
    if n > 0 {
      BestIsScan(s, root, random, move, ant, n - 1);
      var ratings := RatingsUpTo(s, root, random, move, ant, n);
      var before := RatingsUpTo(s, root, random, move, ant, n - 1);
      var rating := Rating(s, root, ant, s.cities[ant.current].roads[n - 1], random(move, n - 1));
      assert ratings == before + [rating];
      assert ratings[..n - 1] == before && ratings[n - 1] == rating;
    }
  }

  /** The road the ant takes on move number `move`, or `None` when no road is rated above the floor. */
  function Choice(s: Scene, root: real -> real, random: (nat, nat) -> Draw, move: nat, ant: Ant): (road: Option<nat>)
    requires SceneOk(s) && ant.current < |s.cities|
    requires ant.roadsSet != {} ==> ant.roadsList != []
    ensures road.Some? ==> road.value in s.cities[ant.current].roads && road.value < |s.roads|
  {
    var possibleRoads := s.cities[ant.current].roads;
    match Best(s, root, random, move, ant, |possibleRoads|).0
    case None => None
    case Some(k) => Some(possibleRoads[k])
  }

  /** A set of cities of the map has at most as many members as the map has cities, and as many only when it is all of them. */
  lemma {:induction false} CitiesBound(cities: set<nat>, cityCount: nat)
    requires forall c :: c in cities ==> c < cityCount
    ensures |cities| <= cityCount
    ensures |cities| == cityCount ==> forall c: nat :: c < cityCount ==> c in cities
  {
    if cityCount > 0 {
      var last := cityCount - 1;
      var rest := cities - {last};
      CitiesBound(rest, last);
      if |cities| == cityCount {
        assert last in cities;
      }
    } else {
      assert cities == {};
    }
  }

  /**
   * A closed walk has entered every city of the map and no other, and,
   * since it starts having entered none, it made at least one move and has
   * a positive length.
   */
  lemma ClosedWalk(s: Scene, start: nat, path: seq<nat>)
    requires SceneOk(s) && start < |s.cities| && PathOk(s.roads, path)
    requires Closed(|s.cities|, start, AntAfter(s, start, path))
    ensures forall c: nat :: c in AntAfter(s, start, path).visited <==> c < |s.cities|
    ensures path != [] && SumDist(s.roads, path) > 0.0
  {
    CitiesBound(AntAfter(s, start, path).visited, |s.cities|);
    SumDistPositive(s.roads, path);
  }

  /**
   * The road the ant takes out of its city: the rating of each road in turn,
   * replacing the candidate whenever a rating beats both the floor and the
   * best rating so far, which leaves the first road with the highest rating.
   */
  method SelectRoad(s: Scene, root: real -> real, random: (nat, nat) -> Draw, move: nat, ant: Ant)
    returns (selectedRoad: Option<nat>)
    requires SceneOk(s) && ant.current < |s.cities|
    requires ant.roadsSet != {} ==> ant.roadsList != []
    ensures selectedRoad == Choice(s, root, random, move, ant)
  {
    var possibleRoads := s.cities[ant.current].roads;
    ghost var selected: Option<nat> := None;
    selectedRoad := None;
    var maxRating := RatingFloor;
    for k := 0 to |possibleRoads|
      invariant (selected, maxRating) == Best(s, root, random, move, ant, k)
      invariant selected.None? ==> selectedRoad.None?
      invariant selected.Some? ==> selected.value < k && selectedRoad == Some(possibleRoads[selected.value])
    {
      var rating := Rating(s, root, ant, possibleRoads[k], random(move, k));
      if rating > maxRating {
        selectedRoad := Some(possibleRoads[k]);
        selected := Some(k);
        maxRating := rating;
      }
    }
  }

  /** The choice rule, in terms of the ratings: no road exactly when none beats the floor, otherwise the first best road. */
  lemma ChoiceIsFirstBest(s: Scene, root: real -> real, random: (nat, nat) -> Draw, move: nat, ant: Ant)
    requires SceneOk(s) && ant.current < |s.cities|
    requires ant.roadsSet != {} ==> ant.roadsList != []
    ensures var ratings := Ratings(s, root, random, move, ant);
            Choice(s, root, random, move, ant).None? <==> forall k :: 0 <= k < |ratings| ==> ratings[k] <= RatingFloor
    ensures var ratings := Ratings(s, root, random, move, ant);
            Choice(s, root, random, move, ant).Some? ==>
              exists k: nat :: IsFirstMax(ratings, k) && Choice(s, root, random, move, ant) == Some(s.cities[ant.current].roads[k])
  {
    var ratings := Ratings(s, root, random, move, ant);
    BestIsScan(s, root, random, move, ant, |ratings|);
    PickIsFirstMax(ratings);
    if Pick(ratings).Some? {
      var k := Pick(ratings).value;
      assert IsFirstMax(ratings, k);
    }
  }

  /** The ant after taking road `r`: it stands in, and has entered, the road's far city. */
  function Step(s: Scene, ant: Ant, r: nat): (next: Ant)
    requires WellFormed(s.cities, s.roads) && r < |s.roads| && ant.current < |s.cities|
    ensures next.current < |s.cities| && next.roadsList == ant.roadsList + [r] && next.roadsSet != {}
  {
    var city := Opposite(s.roads[r], ant.current);
    Ant(city, ant.visited + {city}, ant.roadsSet + {r}, ant.roadsList + [r])
  }

  /** Where a walk ends: the ant, the move counter, the distance, and whether it met a dead end. */
  datatype Walked = Walked(ant: Ant, moves: nat, distance: real, stuck: bool)

  /**
   * The walk loop run on from an ant that has made `moves` checks and
   * walked `distance`: it stops when the walk is closed, or when the budget
   * check fails (counting that check); otherwise the ant makes a move.
   */
  function Continue(s: Scene, root: real -> real, random: (nat, nat) -> Draw, start: nat,
                    ant: Ant, moves: nat, distance: real): (w: Walked)
    requires SceneOk(s) && ant.current < |s.cities|
    requires ant.roadsSet != {} ==> ant.roadsList != []
    decreases MaxMoves(|s.cities|) - moves, 1
  {
    if Closed(|s.cities|, start, ant) then Walked(ant, moves, distance, false)
    else if moves >= MaxMoves(|s.cities|) then Walked(ant, moves + 1, distance, false)
    else Advance(s, root, random, start, ant, moves, distance)
  }

  /**
   * One move of the walk loop: at a dead end the walk stops (counting the
   * move); otherwise the ant takes the road it chooses and the loop goes on.
   */
  function Advance(s: Scene, root: real -> real, random: (nat, nat) -> Draw, start: nat,
                   ant: Ant, moves: nat, distance: real): (w: Walked)
    requires SceneOk(s) && ant.current < |s.cities|
    requires ant.roadsSet != {} ==> ant.roadsList != []
    requires moves < MaxMoves(|s.cities|)
    decreases MaxMoves(|s.cities|) - moves, 0
  {
    match Choice(s, root, random, moves, ant)
    case None => Walked(ant, moves + 1, distance, true)
    case Some(r) => Continue(s, root, random, start, Step(s, ant, r), moves + 1, distance + s.roads[r].distance)
  }

  /** A whole walk from `start`: an ant that has entered no city, no move made, no distance walked. */
  function WalkFrom(s: Scene, root: real -> real, random: (nat, nat) -> Draw, start: nat): Walked
    requires SceneOk(s) && start < |s.cities|
  {
    Continue(s, root, random, start, Ant(start, {}, {}, []), 0, 0.0)
  }

  /**
   * The state the walk loop keeps: the ant's cities and position are those
   * its roads lead through, the distance is their total length, and one move
   * was counted per road.
   */
  ghost predicate OnTrack(s: Scene, start: nat, ant: Ant, moves: nat, distance: real)
    requires SceneOk(s) && start < |s.cities|
  {
    PathOk(s.roads, ant.roadsList) && ant == AntAfter(s, start, ant.roadsList) &&
    distance == SumDist(s.roads, ant.roadsList) &&
    moves == |ant.roadsList| <= MaxMoves(|s.cities|)
  }

  /**
   * How a walk ends: its ant and distance follow from its roads, and it is
   * either closed within the budget, out of budget after exactly `MaxMoves`
   * roads (the failed check counted as one more move), or at a dead end where
   * no road beats the floor (the move that found it counted).
   */
  ghost predicate Ends(s: Scene, root: real -> real, random: (nat, nat) -> Draw, start: nat, w: Walked)
    requires SceneOk(s) && start < |s.cities|
  {
    var list := w.ant.roadsList;
    PathOk(s.roads, list) && w.ant == AntAfter(s, start, list) &&
    w.distance == SumDist(s.roads, list) &&
    (w.stuck ==> !Closed(|s.cities|, start, w.ant) && w.moves == |list| + 1 <= MaxMoves(|s.cities|) &&
                 Choice(s, root, random, |list|, w.ant) == None) &&
    (!w.stuck && Closed(|s.cities|, start, w.ant) ==> w.moves == |list| <= MaxMoves(|s.cities|)) &&
    (!w.stuck && !Closed(|s.cities|, start, w.ant) ==>
       |list| == MaxMoves(|s.cities|) && w.moves == MaxMoves(|s.cities|) + 1)
  }

  /** One iteration of the loop: taking the chosen road leaves the walk where the loop continues from. */
  lemma ContinueStep(s: Scene, root: real -> real, random: (nat, nat) -> Draw, start: nat,
                     ant: Ant, moves: nat, distance: real, r: nat)
    requires SceneOk(s) && ant.current < |s.cities|
    requires ant.roadsSet != {} ==> ant.roadsList != []
    requires !Closed(|s.cities|, start, ant) && moves < MaxMoves(|s.cities|)
    requires Choice(s, root, random, moves, ant) == Some(r)
    ensures Continue(s, root, random, start, ant, moves, distance) ==
            Continue(s, root, random, start, Step(s, ant, r), moves + 1, distance + s.roads[r].distance)
  {
    assert Continue(s, root, random, start, ant, moves, distance) == Advance(s, root, random, start, ant, moves, distance);
  }

  /** Where the loop stops: closed, out of budget, or at a dead end. */
  lemma ContinueStops(s: Scene, root: real -> real, random: (nat, nat) -> Draw, start: nat,
                      ant: Ant, moves: nat, distance: real)
    requires SceneOk(s) && ant.current < |s.cities|
    requires ant.roadsSet != {} ==> ant.roadsList != []
    ensures Closed(|s.cities|, start, ant) ==>
              Continue(s, root, random, start, ant, moves, distance) == Walked(ant, moves, distance, false)
    ensures !Closed(|s.cities|, start, ant) && moves >= MaxMoves(|s.cities|) ==>
              Continue(s, root, random, start, ant, moves, distance) == Walked(ant, moves + 1, distance, false)
  {
  }

  /** At a dead end the loop stops, counting the move. */
  lemma ContinueStuck(s: Scene, root: real -> real, random: (nat, nat) -> Draw, start: nat,
                      ant: Ant, moves: nat, distance: real)
    requires SceneOk(s) && ant.current < |s.cities|
    requires ant.roadsSet != {} ==> ant.roadsList != []
    requires !Closed(|s.cities|, start, ant) && moves < MaxMoves(|s.cities|)
    requires Choice(s, root, random, moves, ant) == None
    ensures Continue(s, root, random, start, ant, moves, distance) == Walked(ant, moves + 1, distance, true)
  {
    assert Continue(s, root, random, start, ant, moves, distance) == Advance(s, root, random, start, ant, moves, distance);
  }

  /** Taking the chosen road keeps the walk on track. */
  lemma OnTrackStep(s: Scene, root: real -> real, random: (nat, nat) -> Draw, start: nat,
                    ant: Ant, moves: nat, distance: real, r: nat)
    requires SceneOk(s) && start < |s.cities|
    requires OnTrack(s, start, ant, moves, distance) && moves < MaxMoves(|s.cities|)
    requires Choice(s, root, random, moves, ant) == Some(r)
    ensures OnTrack(s, start, Step(s, ant, r), moves + 1, distance + s.roads[r].distance)
  {
    AntAfterStep(s, start, ant.roadsList, r);
  }

  /** A walk on track that stops here ends as `Ends` says. */
  lemma OnTrackStops(s: Scene, root: real -> real, random: (nat, nat) -> Draw, start: nat,
                     ant: Ant, moves: nat, distance: real)
    requires SceneOk(s) && start < |s.cities|
    requires OnTrack(s, start, ant, moves, distance)
    ensures Closed(|s.cities|, start, ant) ==> Ends(s, root, random, start, Walked(ant, moves, distance, false))
    ensures !Closed(|s.cities|, start, ant) && moves >= MaxMoves(|s.cities|) ==>
              Ends(s, root, random, start, Walked(ant, moves + 1, distance, false))
    ensures !Closed(|s.cities|, start, ant) && moves < MaxMoves(|s.cities|) && Choice(s, root, random, moves, ant) == None ==>
              Ends(s, root, random, start, Walked(ant, moves + 1, distance, true))
  {
  }

  /** A walk on track, run on to its end, ends as `Ends` says. */
  lemma {:induction false} ContinueEnds(s: Scene, root: real -> real, random: (nat, nat) -> Draw, start: nat,
                                        ant: Ant, moves: nat, distance: real)
    requires SceneOk(s) && start < |s.cities|
    requires OnTrack(s, start, ant, moves, distance)
    ensures Ends(s, root, random, start, Continue(s, root, random, start, ant, moves, distance))
    decreases MaxMoves(|s.cities|) - moves
  {
    if Closed(|s.cities|, start, ant) || moves >= MaxMoves(|s.cities|) {
      ContinueStops(s, root, random, start, ant, moves, distance);
      OnTrackStops(s, root, random, start, ant, moves, distance);
    } else {
      match Choice(s, root, random, moves, ant)
      case None =>
        ContinueStuck(s, root, random, start, ant, moves, distance);
        OnTrackStops(s, root, random, start, ant, moves, distance);
      case Some(r) =>
        OnTrackStep(s, root, random, start, ant, moves, distance, r);
        ContinueStep(s, root, random, start, ant, moves, distance, r);
        ContinueEnds(s, root, random, start, Step(s, ant, r), moves + 1, distance + s.roads[r].distance);
    }
  }

  /**
   * What a whole walk is: a path of roads leading the ant where it stands;
   * its distance is their total length; and it ends closed, out of budget,
   * or at a dead end.  A closed walk has entered every city, made at least
   * one move, and has a positive length.
   */
  lemma WalkEnds(s: Scene, root: real -> real, random: (nat, nat) -> Draw, start: nat)
    requires SceneOk(s) && start < |s.cities|
    ensures Ends(s, root, random, start, WalkFrom(s, root, random, start))
    ensures var w := WalkFrom(s, root, random, start);
            Closed(|s.cities|, start, w.ant) ==>
              (forall c: nat :: c in w.ant.visited <==> c < |s.cities|) &&
              w.ant.roadsList != [] && w.distance > 0.0
  {
    AntAfterNothing(s, start);
    ContinueEnds(s, root, random, start, Ant(start, {}, {}, []), 0, 0.0);
    var w := WalkFrom(s, root, random, start);
    if Closed(|s.cities|, start, w.ant) {
      ClosedWalk(s, start, w.ant.roadsList);
    }
  }

  /**
   * The body of the walk loop, once the walk is not closed and the budget
   * check passed: select a road; with none, the ant is stuck; otherwise it
   * crosses the road and adds its length to the distance.
   */
  method Move(s: Scene, root: real -> real, random: (nat, nat) -> Draw, start: nat,
              ant: Ant, moves: nat, distance: real)
    returns (stuck: bool, next: Ant, walked: real)
    requires SceneOk(s) && ant.current < |s.cities|
    requires ant.roadsSet != {} ==> ant.roadsList != []
    requires !Closed(|s.cities|, start, ant) && moves < MaxMoves(|s.cities|)
    ensures next.current < |s.cities| && (next.roadsSet != {} ==> next.roadsList != [])
    ensures Continue(s, root, random, start, ant, moves, distance) ==
            if stuck then Walked(ant, moves + 1, distance, true)
            else Continue(s, root, random, start, next, moves + 1, walked)
  {
    var selectedRoad := SelectRoad(s, root, random, moves, ant);
    if selectedRoad.None? {
      ContinueStuck(s, root, random, start, ant, moves, distance);
      return true, ant, distance;
    }
    var r := selectedRoad.value;
    ContinueStep(s, root, random, start, ant, moves, distance, r);
    stuck, next, walked := false, Step(s, ant, r), distance + s.roads[r].distance;
  }

  /**
   * One ant's walk from `start`.  The loop runs while the walk is not closed
   * and, checked only then, `moves` (counted up on every check) was below the
   * budget.  `stuck` reports that no road out of the current city was rated
   * above the floor, where the source dereferences a null road and throws.
   */
  method Walk(s: Scene, root: real -> real, random: (nat, nat) -> Draw, start: nat)
    returns (ant: Ant, moves: nat, distance: real, stuck: bool)
    requires SceneOk(s) && start < |s.cities|
    ensures Walked(ant, moves, distance, stuck) == WalkFrom(s, root, random, start)
  {
    var cityCount := |s.cities|;
    var maxMoves := MaxMoves(cityCount);
    ant := Ant(start, {}, {}, []);
    moves := 0;
    distance := 0.0;
    stuck := false;
    while true
      invariant ant.current < cityCount && (ant.roadsSet != {} ==> ant.roadsList != [])
      invariant moves <= maxMoves && !stuck
      invariant Continue(s, root, random, start, ant, moves, distance) == WalkFrom(s, root, random, start)
      decreases maxMoves - moves
    {
      if !(|ant.visited| < cityCount || ant.current != start) {
        ContinueStops(s, root, random, start, ant, moves, distance);
        break;
      }
      var withinBudget := moves < maxMoves;
      moves := moves + 1;
      if !withinBudget {
        ContinueStops(s, root, random, start, ant, moves - 1, distance);
        break;
      }
      var next, walked;
      stuck, next, walked := Move(s, root, random, start, ant, moves - 1, distance);
      if stuck {
        break;
      }
      ant, distance := next, walked;
    }
  }
}
