# Ant colony for the travelling salesman: one iteration

This project models the core of a small ant-colony heuristic for the
travelling salesman problem. The map has cities joined by roads. Each road
carries two amounts of pheromone: *active* pheromone, which steers the ants,
and *pending* pheromone, which has been deposited but does not steer them
yet. The simulation runs one iteration at a time, and each iteration does
four things:

1. **Count and decay.** It counts itself. Every 1000th iteration, each road's
   active pheromone is halved, its pending pheromone is added to it and then
   cleared, and the map's two pheromone totals are recomputed.
2. **Walk.** One ant starts at a random city. On each move it rates every
   road out of its current city and takes the first road with the highest
   rating, provided that rating beats -10000. A rating has five parts:
   - a length penalty: the square root of the road's length relative to the
     average road length;
   - a pheromone bonus;
   - a penalty for entering a city the ant has already visited;
   - a penalty for reusing a road, and a further one for going straight back;
   - occasional random noise.

   The walk stops in one of three ways:
   - it has entered every city and is back at its start;
   - the budget of 8 moves per city runs out;
   - no road beats the floor. The source then dereferences a null road and
     throws.
3. **Discard.** A walk that did not close is counted as ignored.
4. **Reward.** A closed walk makes some pheromone available:
   - the base amount is one unit per city;
   - it is divided by the number of moves beyond one per city, when there
     are any;
   - it gets a bonus when the walk beats the best tour so far.

   This pheromone is spread over the walk's roads in proportion to their
   length, as pending pheromone. The walk becomes the best tour if there is
   none yet or if it is strictly shorter.

Modules:
- `Wrappers` holds `Option`, which stands in for the source's `null`.
- `Graph` holds the map:
  - the datatypes `City` and `Road`;
  - the class `CityMap`, whose lists of cities and roads refer to each other
    by index;
  - the sum, decay and deposit functions, and lemmas about the totals.
- `Heuristic` holds the rating of a road and the selection rule (first strict
  maximum above the floor).
- `AntWalk` holds the walk:
  - `Continue`/`Advance` are the specification of the loop;
  - `Walk` and `SelectRoad` are the loops themselves, and `Move` is the body
    of the walk loop;
  - `WalkEnds` says how every walk ends.
- `Colony` holds the class `Tsp`: the counters, the best tour, and
  `RunOneIteration`.

The source's calls to the outside world become parameters:
- `startIndex` is the random start city.
- `random(move, k)` gives the two uniform draws for the `k`-th road rated on
  move `move`.
- `root` stands for the square root.

`float` and `double` arithmetic is modelled with exact `real` numbers.

At a city where no road beats the floor (for example a city with no roads),
the code does not count the walk as ignored: it dereferences the null
`selectedRoad` at `TSP.java:200` and throws. The model records this outcome
as `Crashed`: `iterations` has been counted, `ignored` is unchanged, and no
pheromone is deposited.

## Model

| member | source | states |
|---|---|---|
| Graph.Distance | TSP/src/net/martinmajer/bio/tsp/TSP.java:391-393 | the square root (`root`) of the sum of the squared coordinate differences, as `City.distance` and the `Road` constructor compute it; symmetric by `DistanceSymmetric` |
| Graph.DistanceSymmetric | TSP/src/net/martinmajer/bio/tsp/TSP.java:391-393 | the straight-line distance between two cities does not depend on their order |
| Graph.Opposite | TSP/src/net/martinmajer/bio/tsp/TSP.java:415-417 | the end `b` when seen from `a`, and `a` from anywhere else; on a road between distinct cities it swaps the two ends, by `OppositeSwapsEnds` |
| Graph.OppositeSwapsEnds | TSP/src/net/martinmajer/bio/tsp/TSP.java:415-417 | seen from either end of a road between distinct cities, the opposite city is the other end, and taking the opposite twice returns to the start |
| Graph.SumPheromone | TSP/src/net/martinmajer/bio/tsp/TSP.java:130-135 | the active pheromone total is non-negative when every road's active pheromone is |
| Graph.SumPending | TSP/src/net/martinmajer/bio/tsp/TSP.java:130-136 | the pending pheromone total is non-negative when every road's pending pheromone is |
| Graph.SumDistances | TSP/src/net/martinmajer/bio/tsp/TSP.java:449-453 | the total length of the map's roads, the value `sumRoadDistances` returns (`CityMap.SumRoadDistances` is proved equal to it); positive on a map with roads by `SumDistancesPositive` |
| Graph.SumDist | TSP/src/net/martinmajer/bio/tsp/TSP.java:200 | the distance `totalDistanceTravelled` reaches over the travelled list, each traversal counted; positive once a road is taken by `SumDistPositive`, and the deposit rate times it is the amount deposited by `DepositAmountIsRateTimesLength` |
| Graph.SumDistancesPositive | TSP/src/net/martinmajer/bio/tsp/TSP.java:142-143 | a map with at least one road, every road of positive length, has a positive total road length, so the average length the ratings divide by is positive |
| Graph.SumDistPositive | TSP/src/net/martinmajer/bio/tsp/TSP.java:198-200 | the distance travelled over at least one road is positive, and never negative |
| Graph.Flushed | TSP/src/net/martinmajer/bio/tsp/TSP.java:127-129 | one road after decay: active pheromone halved plus the pending pheromone, pending cleared, ends and length untouched |
| Graph.Decayed | TSP/src/net/martinmajer/bio/tsp/TSP.java:126-133 | every road flushed in place, in order; its totals are given by `DecayedTotals`, and it keeps the map well formed by `DecayedWellFormed` |
| Graph.DecayedTotals | TSP/src/net/martinmajer/bio/tsp/TSP.java:122-137 | after decay nothing is pending, and the active total is half the old active total plus the old pending total |
| Graph.DecayedWellFormed | TSP/src/net/martinmajer/bio/tsp/TSP.java:126-128 | decay keeps every road's ends and length, and keeps its pheromone non-negative |
| Graph.AddPending | TSP/src/net/martinmajer/bio/tsp/TSP.java:237 | one traversal's in-place `pheromonePending +=` on road `r`, every other road untouched; the totals move by exactly the amount by `PendingChangedAt`, and each pass of the deposit loop is one `AddPending` by `DepositedNext` (spelled out road by road in `DepositedStep`) |
| Graph.PendingChangedAt | TSP/src/net/martinmajer/bio/tsp/TSP.java:237-239 | raising one road's pending pheromone by an amount raises the pending total by that amount and leaves the active total alone |
| Graph.Deposited | TSP/src/net/martinmajer/bio/tsp/TSP.java:236-238 | the deposit changes only pending pheromone, and at a non-negative rate it never decreases any road's pending pheromone |
| Graph.DepositedPerRoad | TSP/src/net/martinmajer/bio/tsp/TSP.java:236-238 | each road gains rate times its length once for every time it occurs in the travelled list, and nothing if it does not occur |
| Graph.DepositedLast | TSP/src/net/martinmajer/bio/tsp/TSP.java:236-238 | the last traversal in the list adds one share to its own road and nothing to any other road |
| Graph.Share | TSP/src/net/martinmajer/bio/tsp/TSP.java:237 | what one traversal of a road deposits, the rate times the road's length; the shares add up to the rate times the distance travelled by `DepositAmountIsRateTimesLength` |
| Graph.DepositAmountIsRateTimesLength | TSP/src/net/martinmajer/bio/tsp/TSP.java:233-238 | the per-traversal shares add up to the rate times the distance travelled |
| Graph.DepositedTotals | TSP/src/net/martinmajer/bio/tsp/TSP.java:236-239 | the deposit raises the pending total by exactly the sum of the shares and leaves the active total alone |
| Graph.DepositedStep | TSP/src/net/martinmajer/bio/tsp/TSP.java:236-238 | the deposit over a list is the deposit over all but its last road, plus one share on that road |
| Graph.DepositedNext | TSP/src/net/martinmajer/bio/tsp/TSP.java:236-238 | one pass of the deposit loop adds the share of road `i` to what earlier passes left, and the share does not depend on those passes |
| Graph.DepositConserves | TSP/src/net/martinmajer/bio/tsp/TSP.java:233-239 | at rate `available / distance`, the roads together gain exactly `available` pending pheromone, which is what the pending total is increased by |
| Graph.DepositedWellFormed | TSP/src/net/martinmajer/bio/tsp/TSP.java:236-238 | a deposit at a non-negative rate keeps the map well formed |
| Graph.DecayRoads | TSP/src/net/martinmajer/bio/tsp/TSP.java:123-134 | the decay loop leaves exactly the decayed roads and returns the two totals summed over them |
| Graph.DepositAlong | TSP/src/net/martinmajer/bio/tsp/TSP.java:236-238 | the deposit loop, updating roads in place one traversal at a time, leaves exactly the deposited roads |
| Graph.ListedKeepsEnds | TSP/src/net/martinmajer/bio/tsp/TSP.java:400-401 | roads whose ends do not change (the ends are final in the source) stay listed by both of their cities |
| Graph.DecayedConsistent | TSP/src/net/martinmajer/bio/tsp/TSP.java:122-137 | decay with the totals it recomputes keeps the map consistent: well formed, every road listed by both its cities, the totals equal to the sums |
| Graph.DepositedConsistent | TSP/src/net/martinmajer/bio/tsp/TSP.java:233-239 | a deposit of `available` along a walk of positive length, with `available` added to the pending total, keeps the map consistent |
| Graph.ListedAddCity | TSP/src/net/martinmajer/bio/tsp/TSP.java:436-440 | adding a city with no roads keeps the map well formed and every road listed by both its cities |
| Graph.ListedConnect | TSP/src/net/martinmajer/bio/tsp/TSP.java:442-447 | appending a new road's index to both of its cities' lists keeps every road, old and new, listed by both its cities |
| Graph.CityMap.constructor | TSP/src/net/martinmajer/bio/tsp/TSP.java:421-429 | a new map has no cities, no roads and zero totals, and is consistent (well formed, every road listed by both its cities, totals equal to the sums) |
| Graph.CityMap.AddCity | TSP/src/net/martinmajer/bio/tsp/TSP.java:436-440 | appends a city with no roads, returns its index, and changes nothing else |
| Graph.CityMap.ConnectCities | TSP/src/net/martinmajer/bio/tsp/TSP.java:442-447 | appends a road as long as the straight line between the two cities, with no pheromone, and appends its index to both cities' road lists; other cities and the totals are unchanged, and the map stays consistent |
| Graph.CityMap.SumRoadDistances | TSP/src/net/martinmajer/bio/tsp/TSP.java:449-453 | returns the total length of all roads |
| Heuristic.Rating | TSP/src/net/martinmajer/bio/tsp/TSP.java:167-189 | the five terms of lines 172-189: minus the root of the road's relative length, the pheromone bonus only while the map's active total is positive, the revisit and reuse penalties, and the noise; the penalties are exact by `RatingPenalties`, the pheromone term is skipped at zero total by `NoPheromoneNoBonus`, the noise is bounded by `Noise` |
| Heuristic.Noise | TSP/src/net/martinmajer/bio/tsp/TSP.java:189 | the random term is zero unless the first draw falls below 0.01, and it always lies in [-50, 50) |
| Heuristic.RatingPenalties | TSP/src/net/martinmajer/bio/tsp/TSP.java:167-189 | a rating is the rating of a fresh ant plus exactly -2 for a visited far city, -1 for a road already travelled, and a further -1 for the road just travelled |
| Heuristic.NoPheromoneNoBonus | TSP/src/net/martinmajer/bio/tsp/TSP.java:175-177 | when the map holds no active pheromone, a road's pheromone does not affect its rating |
| Heuristic.Scan | TSP/src/net/martinmajer/bio/tsp/TSP.java:163-196 | the candidate the selection pass keeps is always a position of the ratings it has read |
| Heuristic.Pick | TSP/src/net/martinmajer/bio/tsp/TSP.java:163-196 | the selected position, if any, is a position of the ratings |
| Heuristic.ScanKeepsFirstMax | TSP/src/net/martinmajer/bio/tsp/TSP.java:163-196 | after every prefix the pass holds the best rating so far (at least the floor) and the first position that holds it |
| Heuristic.PickIsFirstMax | TSP/src/net/martinmajer/bio/tsp/TSP.java:163-196 | nothing is selected if and only if no rating beats -10000; otherwise the selection is the first maximal rating |
| Heuristic.FirstMaxUnique | TSP/src/net/martinmajer/bio/tsp/TSP.java:192-195 | a list of ratings has only one first maximum |
| Heuristic.TieKeepsEarlier | TSP/src/net/martinmajer/bio/tsp/TSP.java:192-195 | of two roads with equal ratings the later one is never selected, because the comparison is strict |
| AntWalk.EndOf | TSP/src/net/martinmajer/bio/tsp/TSP.java:201-202 | following the travelled roads, each to its opposite end, always leads to a city of the map |
| AntWalk.Elems | TSP/src/net/martinmajer/bio/tsp/TSP.java:199 | the set `roadsTravelledSet`, empty where line 150 creates it and grown by the road taken on each move; it is the ant's road set by `AntAfter` and grows by exactly that road by `AntAfterStep` |
| AntWalk.VisitedAlong | TSP/src/net/martinmajer/bio/tsp/TSP.java:203 | the visited set holds only cities of the map |
| AntWalk.AntAfter | TSP/src/net/martinmajer/bio/tsp/TSP.java:198-203 | an ant's state is determined by its list of travelled roads: its current city is in the map and its road list is that list |
| AntWalk.AntAfterNothing | TSP/src/net/martinmajer/bio/tsp/TSP.java:146-157 | before moving, the ant stands in its start city with no city visited and no road travelled; the start city is not in the visited set |
| AntWalk.AntAfterStep | TSP/src/net/martinmajer/bio/tsp/TSP.java:198-203 | taking one more road appends it to the list, adds it to the set, moves the ant to its far city, marks that city visited, and adds its length to the distance |
| AntWalk.RatingsUpTo | TSP/src/net/martinmajer/bio/tsp/TSP.java:167-189 | there is one rating per road read so far |
| AntWalk.Ratings | TSP/src/net/martinmajer/bio/tsp/TSP.java:161-189 | there is one rating per road out of the ant's city |
| AntWalk.Best | TSP/src/net/martinmajer/bio/tsp/TSP.java:163-196 | the candidate kept after reading `n` roads is one of those `n` roads |
| AntWalk.BestIsScan | TSP/src/net/martinmajer/bio/tsp/TSP.java:163-196 | the pass over the city's roads is the selection rule applied to their ratings |
| AntWalk.Choice | TSP/src/net/martinmajer/bio/tsp/TSP.java:161-196 | the chosen road, if any, is a road of the map that leaves the ant's current city |
| AntWalk.ChoiceIsFirstBest | TSP/src/net/martinmajer/bio/tsp/TSP.java:163-196 | no road is chosen if and only if every rating is at most -10000; otherwise the chosen road is the first road with the highest rating |
| AntWalk.SelectRoad | TSP/src/net/martinmajer/bio/tsp/TSP.java:161-196 | the loop over the candidate roads returns exactly the choice rule's road, or none |
| AntWalk.CitiesBound | TSP/src/net/martinmajer/bio/tsp/TSP.java:160 | a set of the map's cities has at most as many members as the map has cities, and as many only when it holds every city |
| AntWalk.ClosedWalk | TSP/src/net/martinmajer/bio/tsp/TSP.java:210 | a walk that passes the completeness test has entered exactly the cities of the map, travelled at least one road, and has a positive length |
| AntWalk.Step | TSP/src/net/martinmajer/bio/tsp/TSP.java:198-203 | after a move the ant stands in a city of the map and the road is appended to its list |
| AntWalk.Closed | TSP/src/net/martinmajer/bio/tsp/TSP.java:160 | the negation of the loop's first test (every city entered and back at the start), the same test line 210 repeats; a closed walk has entered every city by `ClosedWalk` |
| AntWalk.Continue | TSP/src/net/martinmajer/bio/tsp/TSP.java:160-206 | the loop from a given state: stop when closed, stop counting one more move when the budget check fails, otherwise one move by `Advance`; its exits are given by `ContinueStops`, `ContinueStuck` and `ContinueStep`, and how it ends by `ContinueEnds` |
| AntWalk.Advance | TSP/src/net/martinmajer/bio/tsp/TSP.java:161-203 | one pass of the loop body: stop at a dead end counting the move, or take the `Choice` road and continue; `Move` implements it |
| AntWalk.WalkFrom | TSP/src/net/martinmajer/bio/tsp/TSP.java:146-206 | the whole walk from the start city with nothing visited, no move and no distance; `Walk` ends exactly there, and `WalkEnds` says how it ends |
| AntWalk.ContinueStep | TSP/src/net/martinmajer/bio/tsp/TSP.java:160-203 | while the walk is open and within budget, and a road is chosen, the loop goes on from the ant after that road, one move later and that road's length further |
| AntWalk.ContinueStops | TSP/src/net/martinmajer/bio/tsp/TSP.java:160 | a closed walk stops without counting a move; an open walk out of budget stops and counts the failed check as a move |
| AntWalk.ContinueStuck | TSP/src/net/martinmajer/bio/tsp/TSP.java:196-200 | an open walk within budget with no road above the floor stops at the dead end, counting the move |
| AntWalk.OnTrackStep | TSP/src/net/martinmajer/bio/tsp/TSP.java:198-203 | a move keeps the loop invariant: the ant, the distance and the move count all follow from the list of travelled roads |
| AntWalk.OnTrackStops | TSP/src/net/martinmajer/bio/tsp/TSP.java:160 | a walk satisfying the loop invariant that stops, whether closed, out of budget or stuck, ends as described below |
| AntWalk.MaxMoves | TSP/src/net/martinmajer/bio/tsp/TSP.java:154 | the move budget, `MAX_MOVES_FACTOR` (8) moves per city; an open walk that exhausts it stops after exactly that many roads with one more move counted, by `ContinueEnds` |
| AntWalk.ContinueEnds | TSP/src/net/martinmajer/bio/tsp/TSP.java:160-206 | run to the end from any state satisfying the loop invariant, a walk ends closed within budget, out of budget after exactly `8 * cities` roads with `8 * cities + 1` moves counted, or stuck with no road above the floor |
| AntWalk.WalkEnds | TSP/src/net/martinmajer/bio/tsp/TSP.java:146-206 | a whole walk ends as above; if it is closed it has entered every city, travelled at least one road, and has a positive length |
| AntWalk.Move | TSP/src/net/martinmajer/bio/tsp/TSP.java:161-203 | one pass of the loop body either finds the dead end or takes the chosen road, and the loop continues exactly as its specification does |
| AntWalk.Walk | TSP/src/net/martinmajer/bio/tsp/TSP.java:146-206 | the walk loop ends exactly where its specification does: the same ant, move count, distance and dead-end flag |
| Colony.Available | TSP/src/net/martinmajer/bio/tsp/TSP.java:219-229 | a closed walk on a non-empty map makes a positive amount of pheromone available |
| Colony.NoBonusWithoutIncumbent | TSP/src/net/martinmajer/bio/tsp/TSP.java:227-229 | while there is no best tour (`minDistance` is -1) a closed walk gets no bonus, only the number of cities divided by the extra moves |
| Colony.ExtraMovesDilute | TSP/src/net/martinmajer/bio/tsp/TSP.java:221-224 | a walk that needs more moves never makes more pheromone available |
| Colony.Improves | TSP/src/net/martinmajer/bio/tsp/TSP.java:242 | the incumbent test: no best tour yet, or a strictly shorter one; `ImprovesOnlyWhenShorter` shows a tie never replaces it |
| Colony.ImprovesOnlyWhenShorter | TSP/src/net/martinmajer/bio/tsp/TSP.java:242-246 | once a best tour exists, it is replaced only by a strictly shorter one, and a tie keeps the earlier tour |
| Colony.AfterDecayStep | TSP/src/net/martinmajer/bio/tsp/TSP.java:122 | the roads decayed exactly when the iteration number is a multiple of 1000, and untouched otherwise; `Colony.Tsp.BeginIteration` performs it |
| Colony.SceneOf | TSP/src/net/martinmajer/bio/tsp/TSP.java:142-143 | the view the ratings use has the map's cities and roads and, on a well-formed map, a positive average road length whenever there are roads |
| Colony.Tsp.constructor | TSP/src/net/martinmajer/bio/tsp/TSP.java:69-85 | no iterations and none ignored, no best tour (`minDistance` is -1, no road set) |
| Colony.Tsp.DecayPheromones | TSP/src/net/martinmajer/bio/tsp/TSP.java:122-137 | each road is halved and gets its pending pheromone added, which is then cleared; the new active total is half the old one plus the old pending total, and the pending total is zero |
| Colony.Tsp.DepositPheromones | TSP/src/net/martinmajer/bio/tsp/TSP.java:233-239 | each traversal adds `available / distance` times the road's length as pending pheromone; the pending total grows by exactly `available` and stays equal to the sum over the roads |
| Colony.Tsp.BeginIteration | TSP/src/net/martinmajer/bio/tsp/TSP.java:119-143 | counts the iteration, decays exactly when the new count is a multiple of 1000, and takes the average road length of the (possibly decayed) map |
| Colony.Tsp.CountIgnored | TSP/src/net/martinmajer/bio/tsp/TSP.java:210-215 | a walk that did not close increments `ignored` and changes nothing else |
| Colony.Tsp.RecordTour | TSP/src/net/martinmajer/bio/tsp/TSP.java:219-246 | computes the available pheromone from the totals before the deposit, deposits it along the walk, and makes the walk the best tour exactly when there is none yet or it is strictly shorter |
| Colony.Tsp.RunOneIteration | TSP/src/net/martinmajer/bio/tsp/TSP.java:118-249 | one iteration: counted and maybe decayed; the walk is the specified one; a crash or a discarded walk leaves the pheromone and the best tour alone (a discarded walk is counted as ignored); a closed walk deposits exactly the pheromone available along its roads and updates the best tour when it is shorter; the best distance never grows |

## Left out

- The window, the drawing of the map and the pheromone levels, `main` and the iteration driver `runSimulation`: these are presentation and control, not the algorithm.
- The random map generator `initRandomData` and its constants: the model takes any map built with `AddCity` and `ConnectCities`.
- `Math.random()` becomes parameters: `startIndex` stands for the random start city, and `random(move, k)` gives the two draws for each rating.
- `Math.sqrt` becomes the parameter `root`. Its properties (non-negative, monotone) are not assumed.
- Rounding: `float` and `double` arithmetic and the casts between them are modelled as exact reals.
- Counter overflow: `iterations`, `ignored` and `moves` are unbounded naturals; 32-bit wrap-around is not modelled.
- The debug printing behind `DEBUG_PRINT`: the flag is `false`, and printing has no effect on the state.
- The overload `addCity(City)`: it appends a City object made elsewhere. In the index-based model cities are made only by `AddCity`.
- Graph.CityMap.ConnectCities requires two distinct cities at a positive distance. A road from a city to itself, or between two cities at the same place, has length zero and would make the rating divide by zero. The source's map generator keeps cities at least 50 apart.
- Colony.Tsp.RunOneIteration requires `startIndex` to be a city of the map. An empty map makes the source throw when it picks the start city; the model does not represent that throw.
- Colony.SceneOf: for a map without roads the source divides zero by zero and gets NaN for the average length. The model uses 0. No rating is ever computed then, because no city has a road.
- Colony.Tsp.RunOneIteration states the best tour's road set, not the list. `bestRoadsSet` shares the set object with the walk in the source; aliasing is not modelled because the set is never changed afterwards.
- Colony.Tsp.RunOneIteration states that the walk is closed and refers to `AntWalk.WalkEnds` for "every city entered". It does not repeat that fact in its own contract.
