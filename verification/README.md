# AapdaSync decision engine, verified

A Dafny model of the part of AapdaSync that runs on every tick: live evacuation
routing, the recompute scheduler, the capacity-reserving evacuation plan, the spatial
search structures, the priority ranking, and two bounded buffers at the edge of the
service. Run `dafny verify dfyconfig.toml` in this directory to check all of it.

## What is modelled

| files | component |
|---|---|
| Paths, Search, BestFirst, Overlay, Prices, Optimality, RoadGraph, Detour | road graph with a live overlay and what it does to the price of a road; Dijkstra with lazy deletion, targets and cutoff; A* with a closed set and no reopening, how dear its routes can be and when they are cheapest; route reconstruction; greedy road-disjoint routes |
| BusModel, BusHistory, BusWindow, BusClock, RecomputeBus | the recompute bus as a state machine over the steps between awaits, what its entries tell of the requests submitted, how soon they are covered, that none is handed over early and how long they wait, and the class whose methods are those steps |
| Capacity, Places, Shelters, Worth, Books, Journal, Excuses, Overlooked, Evacuation, Totals, Evaluation | shelter capacity and what limits it, shelter ranking and what each factor is worth in it, the evacuation plan with its books, its record zone by zone and the reasons of its reports, and its reported figures |
| KdTree, Quadtree, Pruning, Hotspots | the k-d tree against brute force; the pruned quadtree sweep against everything it sampled, exactly which regions it prunes and which hot areas it cannot overlook |
| Sorting, MergeSort, MergeCost, Scores, Urgency, Rankings | stable sorting, the traced merge sort and its comparisons, fixed-point score arithmetic, what each factor is worth in it, the priority key and ranking |
| Limiter, RateLimiter | the sliding-window rate limiter, as a step function over runs and over shared deques |
| Outbox, Hub | a client's bounded outbox under every interleaving of fan-out and pump, and the fan-out over all clients |

The searches are written over any network with non-negative edge costs and any
potential; one group of invariants holds for every potential, another for consistent
ones. The live graph supplies the costs. Classes stand where the program updates
objects in place (graph, bus, plan, sort report, sweep counters, deques, clients);
their methods are proved equal to steps or functions about which the theorems speak.

Conventions. Times, distances, risks and weights are reals. Great-circle distance is a
parameter, assumed a metric where the heuristic needs it. A heap is a multiset from
which a least entry is taken, a dictionary's iteration order is left open, and clocks
are parameters. The k-d tree compares squared distances and the quadtree compares
variance with the squared tolerance. Scores, weights and contributions are whole
millionths; rounding is any function that is monotone and at most half a unit off.

## Where the code and its documentation disagree

- The default A* heuristic is documented as consistent and A* as optimal. A node
  without coordinates has estimate nought; consistency then holds exactly under the
  condition of `Overlay.HeuristicConsistency`, and so does optimality, whatever lies off
  the map: `Optimality.CheapestExactly`. `Detour.AStarCanMissTheCheapest` shows a route
  missed, and `Optimality.FoundWithinDrops` by how much any can be.
- A hotspot one leaf wide is documented as always found. `Hotspots.LeafWideHotspotCanBeMissed`
  shows one that is not, and `Hotspots.LeafWideHotspotsAreFound` exactly when the promise holds.
- A missing sample is documented as "keep subdividing"; a region whose samples are all missing
  is a leaf: `Hotspots.ReportedDespiteGapsExactly`.
- A zone is reported as having no feasible shelter when only the twelve nearest, useless ones
  included, were looked at: `Overlooked.RoomIsOverlooked`, where those are cut off, and exactly
  when in `Overlooked.InfeasibleExactlyWhenHidden` and `Overlooked.InfeasibleAmongFew`.
- A shelter without room left is ranked, and reported, as not operational instead of full:
  `Excuses.ReportGivesFirstFlaw`.
- The limiter lets one request more than the limit through exactly when a sweep detaches
  the caller's empty deque: `Limiters.OneTooMany`, `Limiters.RateBound`.
- `independent_routes` is documented as counting the routes to safety; from a source
  that is itself safe it counts none: `RoadGraphs.RoadGraph.IndependentRoutes`.
- The "unconstrained lower bound" of a plan can exceed its total: `Evaluation.BoundCanExceedTotal`;
  `Evaluation.BoundIsLowerExactly` for when, and `Evaluation.BoundHolds` for by how much.
- The merge sort is documented to make at least n log2 n - n + 1 comparisons. That holds of all
  inputs exactly for n up to two, `MergeCost.DocumentedLeastExactly`, and of no sorted input from
  three elements on, `MergeCost.SortedFallsShort`. For n a power of two that many are the most it
  makes: `MergeCost.DocumentedLeastIsTheMost`.
- Messages discarded while a gap notice is being sent are never announced:
  `Outboxes.NoticeForgets`.

## Model

| member | source | states |
|---|---|---|
| Overlay.EdgeHazard | backend/app/routing/graph.py:150-155 | the hazard of an edge lies in [0, 1] whatever the risks of its cells |
| Overlay.CostAtLeastBase | backend/app/routing/graph.py:157-167 | no road costs less than driving it freely: penalty, hazard and congestion only add |
| Overlay.ViewIsSearchable | backend/app/routing/graph.py:115-125 | under the class invariant every usable edge costs at least nothing and ends at a known node |
| Overlay.BaseTimeAtLeastStraight | backend/app/routing/graph.py:237-246 | driving an edge between located nodes takes at least the straight line at the network's top speed |
| Overlay.HeuristicConsistency | backend/app/routing/graph.py:237-246 | the default heuristic is consistent if and only if no usable road from a located node to an unlocated one costs less than the estimate it drops |
| Overlay.HeuristicIsAdmissible | backend/app/routing/graph.py:237-246 | with coordinates missing the default heuristic still never exceeds the cost of any path, if the missing nodes could be placed so that no road is shorter than the straight line |
| Prices.FreePrice | backend/app/routing/graph.py:65-67 | a road with nothing reported, at risk or on it takes its length at the free-flow speed, which is never taken for less than a kilometre per hour |
| Prices.StateMultiplies | backend/app/routing/graph.py:159-162 | a blocked, flooded or buried road cannot be used; slow, partly blocked and unverified ones multiply the price of an empty road by 2.2, 3.5 and 1.4, and any other state leaves it as it is |
| Prices.RiskAddsUp | backend/app/routing/graph.py:152-155 | the risk along a road is the sum over its cells, each as often as it is crossed, unknown ones counting as none |
| Prices.HazardIsMeanRisk | backend/app/routing/graph.py:152-155 | the hazard is the mean of those risks in hundredths, kept between none and all |
| Prices.RiskIsCharged | backend/app/routing/graph.py:157-164 | with a mean risk of r, a road costs alpha times r hundredths more of what it would cost empty and calm, whoever is on it |
| Prices.RiskMultiplies | backend/app/routing/graph.py:11-19 | so an empty road costs 1 + alpha times its hazard as much as without the risk, by default four times as much through a critical cell |
| Prices.MoreRiskIsDearer | backend/app/routing/graph.py:163 | more risk is strictly dearer on any passable road of positive length, up to the end of the scale |
| Prices.LoadIsCharged | backend/app/routing/graph.py:164-167 | the people on a road add beta times their share of its capacity of the free time, whatever its state and risk |
| Prices.CheapestTakesTheSafer | backend/app/routing/graph.py:14-19 | between two empty roads every cheapest route takes the one whose time with alpha times its risk on top is less |
| Prices.AStarTakesTheSafer | backend/app/routing/graph.py:206-235 | and so does every route that A* finds with the default heuristic where it cannot be misled: the longer way round exactly when it is quicker by that law |
| Prices.ExposureIsWeightedMean | backend/app/routing/graph.py:249-275 | the exposure of a route is the mean of the risks along it, weighted by the time spent at each |
| Prices.RoutesAddUp | backend/app/routing/graph.py:249-275 | distance, time and road list of a route are those of its parts, and of its roads one by one |
| Prices.HeuristicIsTight | backend/app/routing/graph.py:237-246 | the estimate cannot be made larger: a straight, empty road at the top speed takes just as long |
| Paths.TreePathIsSimple | backend/app/routing/graph.py:249-267 | the links spell out a route on which no node is left twice |
| Paths.TreePathIsPath | backend/app/routing/graph.py:249-267 | the links spell out a path of passable roads from the source |
| Search.FrontierReached | backend/app/routing/graph.py:184-202 | any path out of the settled region crosses a reached node that is not settled |
| Search.FrontierBounds | backend/app/routing/graph.py:184-202 | under a consistent potential some reached, unsettled node's key is a lower bound for the cost of any path that leaves the settled region |
| Search.PopFinal | backend/app/routing/graph.py:215-222 | under a consistent potential the least entry settles its node at the cost of a cheapest path |
| Search.PopIsCurrent | backend/app/routing/graph.py:184-188 | with lazy deletion, a popped entry of an unsettled node still carries that node's present cost |
| Search.RelaxSound | backend/app/routing/graph.py:194-202 | relaxing an edge keeps every link usable and paid for, and every open node in the heap |
| Search.RelaxExact | backend/app/routing/graph.py:223-230 | under a consistent potential relaxing never changes the cost or link of a settled node |
| Search.RelaxTree | backend/app/routing/graph.py:199-202 | one relaxation keeps the links acyclic and rooted at the source, whatever the heuristic |
| Search.Rehang | backend/app/routing/graph.py:199-202 | a node can be hung under another whenever it is not above it, and ranks that prove the links acyclic can be found anew |
| Search.TreePathCost | backend/app/routing/graph.py:249-267 | what the links spell out costs no more than the search believes, and exactly that under a consistent potential |
| BestFirst.Expand | backend/app/routing/graph.py:194-202 | the inner loop relaxes every edge of the settled node in turn and leaves the search at rest again |
| BestFirst.CutoffIsComplete | backend/app/routing/graph.py:192-193 | when a node beyond the cutoff comes up, every path within the cutoff already ends in a settled node |
| BestFirst.SettledInOrder | backend/app/routing/graph.py:184-188 | a node is settled at its true distance, and no node settled before lies farther |
| BestFirst.Dijkstra | backend/app/routing/graph.py:170-203 | whatever stops the search: settled nodes are at their true distances, every `dist` entry is the cost of the real path its links spell out, every wanted node within the cutoff is settled, nothing is settled beyond the farthest target once all are, at most one node is settled beyond the cutoff, and no `dist` entry exceeds the cutoff by more than its last road |
| BestFirst.Nearest | backend/app/routing/graph.py:302-305 | the closest safe node reached, or none exactly when none is reached |
| BestFirst.AStar | backend/app/routing/graph.py:206-235 | A* finds a route exactly when one exists, whatever the heuristic; with a consistent one every node closes at its true distance; the route is the one its deterministic run arrives at |
| BestFirst.ArrivalIsDetermined | backend/app/routing/graph.py:214-222 | A* comes to its target once, in one state: the order of the heap leaves no choice that can be observed |
| Optimality.FoundWithinPadding | backend/app/routing/graph.py:206-235 | whatever the heuristic, the route of A* is a path and costs no more than any other path would if each of its roads cost at least what the heuristic drops along it |
| Optimality.FoundIsCheapest | backend/app/routing/graph.py:206-235 | so every route that A* can find with a consistent heuristic is a cheapest one |
| Optimality.FoundWithinDrops | backend/app/routing/graph.py:237-246 | with the default heuristic the route is dearer than any other path by no more than the roads on that one that leave the map for less than the estimate they drop; so it is a cheapest one whenever some cheapest path has no such road |
| Optimality.CheapestExactly | backend/app/routing/graph.py:237-246 | the documented guarantee, from every source and with any further roads out of nodes without coordinates, holds if and only if no usable road leaves the map for less than the estimate it drops |
| Detour.AStarCanMissTheCheapest | backend/app/routing/graph.py:237-246 | the documented guarantee fails: on a map of four nodes with one coordinate missing, A* with the default heuristic takes 24 seconds where 21 would do, though every other assumption holds |
| Detour.MapIsStraight | backend/app/routing/graph.py:237-246 | on that map no road is shorter than the straight line, even with the missing node put on it |
| RoadGraphs.RoadGraph.constructor | backend/app/routing/graph.py:100-108 | an empty graph, which meets the invariant of the searches when neither coefficient is negative |
| RoadGraphs.RoadGraph.AddNode | backend/app/routing/graph.py:111-113 | locates a node and keeps the roads it had |
| RoadGraphs.RoadGraph.AddRoad | backend/app/routing/graph.py:115-125 | both ends become nodes, the adjacency grows by exactly the new edges, and the top speed goes on bounding every road; the invariant is kept when neither length nor capacity is negative |
| RoadGraphs.RoadGraph.SetRoadState | backend/app/routing/graph.py:136-137 | reports one road's state and leaves the others |
| RoadGraphs.RoadGraph.SetCellRisk | backend/app/routing/graph.py:139-140 | replaces the risk of every cell |
| RoadGraphs.RoadGraph.ResetLoad | backend/app/routing/graph.py:146-147 | takes every load off |
| RoadGraphs.RoadGraph.AssignLoad | backend/app/routing/graph.py:142-144 | each road's load grows by the people times its occurrences in the route |
| RoadGraphs.OccurrencesCount | backend/app/routing/graph.py:142-144 | and a road that the route takes more than once counts each time |
| RoadGraphs.RoadGraph.Reconstruct | backend/app/routing/graph.py:249-275 | following the links back ends; a reached node gets the route they spell out, hop by hop, with its length, and its time and exposure at the prices of now, a road closed since the search counting as nought; no node comes twice; an unreached one is infeasible |
| RoadGraphs.RoadGraph.PathFromDijkstra | backend/app/routing/graph.py:277-283 | feasible exactly for reached nodes, and then the route of the links priced under the present overlay, whatever overlay the search saw |
| RoadGraphs.ExposureIsProportion | backend/app/routing/graph.py:249-275 | hazard exposure lies in [0, 1] and travel time is not negative |
| RoadGraphs.RoadGraph.Dijkstra | backend/app/routing/graph.py:170-203 | the search promises all of this about the roads as they are now |
| RoadGraphs.RoadGraph.AStar | backend/app/routing/graph.py:206-246 | feasible exactly when a passable path exists; the reported route is real and simple; its time exceeds that of another path by no more than the heuristic drops too steeply along that one, and is the least possible with any consistent heuristic, hence with the default one whenever no cheap drop exists |
| RoadGraphs.ClosingBlocks | backend/app/routing/graph.py:157-167 | blocking roads removes exactly their edges and leaves every other price alone |
| RoadGraphs.PathSurvives | backend/app/routing/graph.py:308-310 | a path avoiding the blocked roads survives their blocking, and only such a path does |
| RoadGraphs.RoutesBoundCuts | backend/app/routing/graph.py:286-293 | never more redundancy than exists: road-disjoint routes to safety are at most as many as the roads of any cut |
| RoadGraphs.OneMoreRoute | backend/app/routing/graph.py:306-310 | a route found with the earlier ones blocked shares no road with them |
| RoadGraphs.RoadGraph.NextRoute | backend/app/routing/graph.py:300-307 | one round finds a real route to a safe node, or an unsafe source is cut off from safety |
| RoadGraphs.RoadGraph.Round | backend/app/routing/graph.py:300-310 | one round adds a route disjoint from the earlier ones and blocks its roads, or an unsafe source is cut off |
| RoadGraphs.RoadGraph.Rounds | backend/app/routing/graph.py:298-310 | the rounds exhibit as many disjoint routes as they count, with exactly their roads blocked |
| RoadGraphs.RoadGraph.IndependentRoutes | backend/app/routing/graph.py:286-313 | the count is exhibited by that many road-disjoint passable routes to safety; if it stays below the maximum, blocking them cuts an unsafe source off; a safe source counts none where every road costs something; every road state is restored |
| RoadGraphs.LoadKeepsPaths | backend/app/routing/graph.py:142-167 | load changes prices only: every path stays a path |
| BusModel.StepInv | backend/app/realtime.py:111-207 | every step of the bus keeps the whole invariant |
| BusModel.RunInv | backend/app/realtime.py:111-207 | so does every legal run, of any length and interleaving |
| BusModel.NoneUnstarted | backend/app/realtime.py:151-188 | when the loop resumes, no spawned run is still waiting for its first step: the ready queue is first in, first out |
| BusModel.DirtyIsInFlight | backend/app/realtime.py:174-184 | dirty keys are in flight, so the drain of dirty keys at the end of the loop body never fires |
| BusModel.EveryRunIsSafe | backend/app/realtime.py:128-207 | in every reachable state: one run per key, at most `max_concurrent` runners, no request lost, the headline trigger of each entry is one of maximal severity among those merged, and both counting identities hold |
| BusModel.DueIsHandedOver | backend/app/realtime.py:168-179 | a drain hands over every due entry: its key is running or dirty afterwards |
| BusModel.BurstNeverPostpones | backend/app/realtime.py:131-142 | merged requests never move `first_seen`, so a continuing burst cannot postpone the drain of its entry |
| BusWindow.NothingIsEarly | backend/app/realtime.py:169-171 | in every run of the bus, whatever a drain hands over was first requested a full debounce ago or more |
| BusWindow.WhatIsLeftIsYoung | backend/app/realtime.py:169-171 | and whatever it leaves behind was first requested less than a debounce ago |
| BusWindow.OneEntryPerWindow | backend/app/realtime.py:123-142 | all requests under a key within a debounce of the first since its last hand-over go into one entry, which sums them up, and the key is not handed over meanwhile |
| BusWindow.RunsCarryTheirEntries | backend/app/realtime.py:172-180 | a hand-over with no run in flight starts a run that carries the number, the triggers and the headline of the requests since the last one |
| BusWindow.RunKeepsItsEntry | backend/app/realtime.py:186-194 | a run keeps what it was started with until it ends, and only its own end removes it |
| BusWindow.Headlines | backend/app/realtime.py:132-135 | an official alert leads its entry whatever else comes in, then a pushed event, then the state of a road or shelter, then reports and requests; a scheduled pass leads only alone |
| BusWindow.RunsAtOnceExactly | backend/app/realtime.py:186-190 | a run that begins is at work at once exactly if fewer are than may be and none waits, and waits otherwise |
| BusWindow.AdmittedExactly | backend/app/realtime.py:186-190 | a waiting run can be admitted exactly while fewer are at work than may be |
| BusHistory.EntriesTellTheirHistory | backend/app/realtime.py:128-143 | in every reachable state a key is pending exactly if it was requested since it was last handed over, and its entry sums up those requests: how many, which triggers, the first one's time, and as headline the first of the most severe |
| BusHistory.RequestsBeginUncovered | backend/app/realtime.py:123-142 | in every reachable state a new request is the latest of its key and covered by no run yet |
| BusHistory.DueIsCoveredOrDirty | backend/app/realtime.py:168-179 | a drain covers every request of a due key, or, if a run under it is in flight, marks it dirty |
| BusHistory.EndReopens | backend/app/realtime.py:193-207 | however a run ends, no run under its key is left, and a dirty key is pending again |
| BusHistory.PendingIsCovered | backend/app/realtime.py:168-192 | with no run under its key about, an entry stays pending through any run of events and the drain that hands it over covers every request made by then |
| BusHistory.DirtyIsCoveredOneRunLater | backend/app/realtime.py:168-207 | a dirty key is covered one run later, by the first drain that hands it over after the run in its way has ended |
| RecomputeBuses.RecomputeBus.Request | backend/app/realtime.py:128-143 | the imperative request is the model's step and keeps the invariant |
| RecomputeBuses.RecomputeBus.Start | backend/app/realtime.py:111-113 | the loop becomes a task in the ready queue |
| RecomputeBuses.RecomputeBus.Stop | backend/app/realtime.py:116-125 | the loop ends, runs go on, and the invariant is kept |
| RecomputeBuses.RecomputeBus.Expire | backend/app/realtime.py:162-165 | the loop's wait runs into its timeout |
| RecomputeBuses.RecomputeBus.NextWait | backend/app/realtime.py:152-161 | the loop over the pending entries finds the earliest one, and with it how long to wait |
| BusClock.NothingIsOverdue | backend/app/realtime.py:151-179 | on the clock: while the loop runs, no entry stays pending past its debounce window by more than the least wait of 5 ms, however many requests arrive meanwhile |
| BusClock.NoIdlePass | backend/app/realtime.py:153-167 | nor does the loop wake for nothing: when a wait that no request cuts short is over an entry is due, unless none was pending, when it waits for a second |
| BusClock.SomethingCanBePending | backend/app/realtime.py:111-142 | such runs there are: a loop is started and a request becomes pending |
| RecomputeBuses.RecomputeBus.HandOver | backend/app/realtime.py:171-179 | one due entry is marked dirty if its key is in flight, and spawned as a run otherwise |
| RecomputeBuses.RecomputeBus.HandOverAll | backend/app/realtime.py:171-179 | the pass over the due entries, in whatever order the dictionary yields them, is the model's |
| RecomputeBuses.RecomputeBus.DrainOnce | backend/app/realtime.py:166-184 | one pass of the loop body is the model's drain; the last branch of the body is dead |
| RecomputeBuses.RecomputeBus.BeginRun | backend/app/realtime.py:186-192 | the first step of a run, up to the semaphore |
| RecomputeBuses.RecomputeBus.Admit | backend/app/realtime.py:190-192 | the semaphore admits a waiting run |
| RecomputeBuses.RecomputeBus.EndRun | backend/app/realtime.py:193-207 | a run ends, by success, failure or cancellation, and a dirty key is requested again |
| KdTree.BuildHoldsAll | backend/app/spatial/nearest.py:71-82 | the tree holds exactly the items, each as often as it was given |
| KdTree.BuildSplits | backend/app/spatial/nearest.py:71-82 | left of a node nothing lies beyond its line, right of it nothing before, ties on either side |
| KdTree.AxesAlternate | backend/app/spatial/nearest.py:71-82 | the axes alternate: a tree is divided by its first coordinate at even depths and by its second at odd ones |
| KdTree.CandidatesExactly | backend/app/spatial/nearest.py:84-101 | what is in range is exactly what lies within the radius by the theorem of Pythagoras, the border included |
| KdTree.BestAbsorbs | backend/app/spatial/nearest.py:90-95 | shortening the list early never changes the first k in the end |
| KdTree.BestPrunes | backend/app/spatial/nearest.py:109-111 | candidates no closer than the k-th best leave the list as it is |
| KdTree.FarSideIsFar | backend/app/spatial/nearest.py:103-111 | nothing across the splitting line is closer than the line itself |
| KdTree.SkipFar | backend/app/spatial/nearest.py:109-111 | skipping the far subtree is as good as searching it |
| KdTree.Consider | backend/app/spatial/nearest.py:90-95 | append, sort and cut keep the best k within the radius |
| KdTree.Search | backend/app/spatial/nearest.py:97-111 | a subtree's search yields the best k of the list and everything in the subtree |
| KdTree.Nearest | backend/app/spatial/nearest.py:84-114 | for any items, k and radius: ascending distances equal to the first k of a brute-force ranking, and the entries are a sub-multiset of the items |
| Shelters.JudgedFeasible | backend/app/spatial/nearest.py:184-205 | a shelter is feasible exactly when it is safe, operational, has room and, if routes are asked for, has one, and then it carries that route's time and exposure; without routes no time is made up |
| Shelters.RankedOrder | backend/app/spatial/nearest.py:207-224 | no candidate is dropped, feasible ones come first, a lower score before a higher |
| Shelters.ScoreFavoursBetter | backend/app/spatial/nearest.py:209-220 | sooner, safer on the way, roomier, with medics and supplies: never the worse score |
| Worth.TimeIsWorth | backend/app/spatial/nearest.py:212-220 | a minute by road is worth one point; the straight line counts, at three a kilometre, exactly when there is no travel time |
| Worth.ExposureIsWorth | backend/app/spatial/nearest.py:215 | full exposure on the way is worth twenty-five minutes, and less in proportion |
| Worth.RoomIsWorth | backend/app/spatial/nearest.py:216-217 | room for the zone is worth six minutes, in proportion up to twice the zone, and nothing beyond |
| Worth.CareIsWorth | backend/app/spatial/nearest.py:218-219 | medics are worth four minutes, two days of both water and food three, and anything less nothing |
| Shelters.RankShelters | backend/app/spatial/nearest.py:151-224 | the k nearest by brute force within the radius, judged by the risk threshold, with or without travel times, and ranked |
| Capacity.BindingIsLeast | backend/app/capacity/engine.py:201-206 | the binding constraint is the least of the five, under its own name |
| Capacity.EffectiveAtMostEach | backend/app/capacity/engine.py:201-218 | the effective capacity exceeds no single constraint, after every reduction |
| Capacity.FillingIsSafe | backend/app/capacity/engine.py:133-218 | filling an operational shelter up to its effective capacity, on top of those inside and under way, keeps it within space, litres, meals, latrines and medics |
| Capacity.SpaceLimitIsShare | backend/app/capacity/engine.py:136-140 | the space limit is at most the safe share of the usable places |
| Places.SpaceLimitExactly | backend/app/capacity/engine.py:134-140 | so many fit the space if and only if they fit the safe share of the beds and, where its area is known, of the places of 3.5 square metres on the floor |
| Capacity.WorseOffersNoMore | backend/app/capacity/engine.py:118-218 | a shelter that is fuller, shorter of any supply, degraded, in more danger or out of touch never offers more places |
| Places.OffersTheMost | backend/app/capacity/engine.py:132-206 | in its best shape a safe shelter offers so many places if and only if filling them breaks none of its reported absolute limits |
| Places.DefectsTakeTheirShare | backend/app/capacity/engine.py:208-218 | standing by leaves half of that, no spare power 95 % and a report over six hours old 80 %, in whole places |
| Places.ClosedOffersNone | backend/app/capacity/engine.py:118-130 | a closed or compromised shelter, or one in the hazard footprint, offers none and is not operational |
| Places.DaysLeaveTheirShare | backend/app/capacity/engine.py:153-175 | a supply of less than two days, of water or of food, leaves its half as a share of the space |
| Places.ReportAddsUp | backend/app/capacity/engine.py:220-236 | the free beds, the utilisation and the supplies of the report agree with the state of the shelter |
| Books.NoOvercommitment | backend/app/evacuation/optimizer.py:225-258 | no shelter is promised to more people than it had room for |
| Books.ReserveOne | backend/app/evacuation/optimizer.py:229-256 | one reservation keeps remaining plus promised equal to capacity |
| Books.RoadOne | backend/app/evacuation/optimizer.py:259-260 | one assignment keeps each road's load equal to people times occurrences over all assigned routes |
| Evacuation.EvacuationOptimizer.RouteTo | backend/app/evacuation/optimizer.py:238-240 | although load changes prices while the plan is drawn up, the rebuilt route is passable and leads from the zone's node to the shelter's; its nodes, roads and length are those of the links, its time and exposure those of now |
| Evacuation.EvacuationOptimizer.Book | backend/app/evacuation/optimizer.py:246-262 | an assignment is booked in all places at once and the books still balance |
| Evacuation.EvacuationOptimizer.Assign | backend/app/evacuation/optimizer.py:238-262 | one assignment carries the candidate's time, exposure and arrival, and the books still balance |
| Evacuation.EvacuationOptimizer.TravelTimes | backend/app/evacuation/optimizer.py:196-204 | exactly the shelters whose node the search has reached have a travel time, which is the search's, with the exposure of a real path of that cost |
| Evacuation.EvacuationOptimizer.SearchFrom | backend/app/evacuation/optimizer.py:187-204 | every shelter within the cutoff has the time of a quickest path, and every time given is that of a real path of which no more than the last road lies beyond the cutoff |
| Excuses.FeasibleHaveRoutes | backend/app/evacuation/optimizer.py:211-215 | every shelter that survives the ranking has a route and room |
| Evacuation.EvacuationOptimizer.Options | backend/app/evacuation/optimizer.py:187-220 | the feasible shelters are all of the twelve nearest that pass the screen on live capacity and have a route, in rank order, and the reason given otherwise is the first one's |
| Journal.EveryoneIsTakenOrLeft | backend/app/evacuation/optimizer.py:225-262 | serving a zone takes or leaves everyone, never fewer than nought and at least one at each shelter used |
| Journal.PlacesAreTaken | backend/app/evacuation/optimizer.py:229-256 | a shelter gives up exactly the places taken there, and none that it has not got |
| Journal.ServeLimit | backend/app/evacuation/optimizer.py:226-228 | no zone uses more shelters than allowed |
| Journal.ServesSomeone | backend/app/evacuation/optimizer.py:225-262 | nobody is placed if and only if no feasible shelter has the room, or none may be used; with splitting off a shelter needs room for the whole zone |
| Journal.LeftForWantOfRoom | backend/app/evacuation/optimizer.py:225-267 | people are left over only if every feasible shelter has run out of room or the number is used up; with splitting off it is all or nothing |
| Journal.BetterAreFull | backend/app/evacuation/optimizer.py:225-233 | with splitting on, a shelter is used only once all the better ones are full |
| Worth.LowerScoreIsTriedFirst | backend/app/evacuation/optimizer.py:224-235 | of two fit shelters among the twelve nearest, the one with the higher score receives people of the zone only if the other has run out of room for it |
| Worth.SoonerIsTriedFirst | backend/app/evacuation/optimizer.py:211-235 | of two fit shelters alike but for travel time, the later one receives nobody while the sooner has room, for one person or, without splitting, for all |
| Evacuation.EvacuationOptimizer.Fill | backend/app/evacuation/optimizer.py:225-262 | the loop over the feasible shelters serves the zone as specified, with one assignment per shelter used, in that order, and the books balanced |
| Evacuation.EvacuationOptimizer.PlaceLocated | backend/app/evacuation/optimizer.py:187-267 | a zone with a road node: its twelve nearest judged on live capacity, the feasible ones serving it in rank order, and exactly one report of whoever is left, with its reason |
| Evacuation.EvacuationOptimizer.ReportAll | backend/app/evacuation/optimizer.py:168-173 | without any operational shelter there is one record per zone, in order, with all its people and that reason |
| Evacuation.RefusedIsEachZone | backend/app/evacuation/optimizer.py:168-173 | that is every zone, with all its people, its rank and the reason |
| Evacuation.EvacuationOptimizer.OpenReservations | backend/app/evacuation/optimizer.py:148-150 | the reservation and lookup dictionaries, a later report replacing an earlier one |
| Evacuation.EvacuationOptimizer.SceneHolds | backend/app/evacuation/optimizer.py:152-167 | payloads and positions of exactly the shelters with capacity and a place on the map, each at its own place and with its own capacity |
| Evacuation.EvacuationOptimizer.PlaceZone | backend/app/evacuation/optimizer.py:178-267 | a zone without people changes nothing, one without a road node is reported whole, any other is placed as far as it can be |
| Evacuation.EvacuationOptimizer.PlaceAll | backend/app/evacuation/optimizer.py:178-267 | each zone in turn begins with the capacity and the road loads that the earlier ones have left, and the plan is the record of all of them |
| Evacuation.EvacuationOptimizer.Plan | backend/app/evacuation/optimizer.py:142-270 | the plan is the record of serving each zone in turn, or one refusal per zone if there is no shelter; remaining plus promised equals the capacity of every operational shelter, shelter and road loads are what the assignments say, every assignment has a real route, every report has a reason that still holds at the end, no travel time exceeds the cutoff by more than a last road, and, when no zone has a negative number of people, each cell's placed plus unplaced people are its people, and so are the totals |
| Evacuation.EvacuationOptimizer.Draft | backend/app/evacuation/optimizer.py:142-267 | the plan itself, zone by zone, before its reasons and totals are drawn |
| Excuses.NobodyPlacedExactly | backend/app/evacuation/optimizer.py:211-262 | nobody of a zone is placed if and only if each of its twelve nearest shelters is unsafe, short of room or unreached, or none may be used |
| Excuses.InfeasibleExactly | backend/app/evacuation/optimizer.py:211-223 | a zone has no feasible shelter if and only if each of its twelve nearest is unsafe, full or unreached |
| Excuses.ReportedForAReason | backend/app/evacuation/optimizer.py:264-267 | whoever is reported was left because the zone used as many shelters as it may, or none of the nearest is fit any more |
| Excuses.ReportGivesFirstFlaw | backend/app/evacuation/optimizer.py:216-223 | a report of no feasible shelter gives the flaw of the first one found: in the footprint, without room (called not operational), or unreached; or that none is in range |
| Excuses.StockOnlyFalls | backend/app/evacuation/optimizer.py:256-256 | no shelter has more room later in the plan |
| Excuses.LoadOnlyGrows | backend/app/evacuation/optimizer.py:259-260 | no road carries less later in the plan |
| Excuses.PathCostGrows | backend/app/routing/graph.py:157-167 | more load makes no path cheaper and closes none |
| Excuses.NobodyIsLeftNeedlessly | backend/app/evacuation/optimizer.py:216-267 | when the plan is complete each report still has its reason: the zone uses as many shelters as it may, or each of its twelve nearest is unsafe, has no room left for it, or lies beyond the cutoff on the roads as loaded in the end |
| Excuses.PlanIsOnTime | backend/app/evacuation/optimizer.py:187-247 | the travel time of every assignment in a plan is that of a real path, on the roads as they were then, of which no more than the last road lies beyond the cutoff; a time of nought is replaced by a guess |
| Overlooked.InfeasibleWhenHidden | backend/app/spatial/nearest.py:166-168 | a zone has no feasible shelter if each useful one in range is behind twelve nearer ones, and only if each is behind twelve that are nearer or as near |
| Overlooked.InfeasibleExactlyWhenHidden | backend/app/spatial/nearest.py:166-168 | with no two shelters equally far, if and only if twelve are nearer than each useful one |
| Overlooked.InfeasibleAmongFew | backend/app/spatial/nearest.py:166-168 | with at most twelve shelters in range, ties or not, if and only if all of them are unsafe, full or unreached |
| Overlooked.TwelveUselessHideTheRest | backend/app/spatial/nearest.py:166-168 | twelve useless shelters nearer by leave a zone without any and it is reported whole, whatever room there is farther off |
| Overlooked.RoomIsOverlooked | backend/app/spatial/nearest.py:166-168 | and it happens: from the capacity engine's results to the finished plan, ten people a minute by road from a safe school with ninety free places, in range and within the cutoff, are turned away by every plan there is, because of twelve nearer schools without a road |
| Totals.EveryoneIsCounted | backend/app/evacuation/optimizer.py:111-117 | people placed plus people unplaced are everyone, because they are so in each cell |
| Evacuation.CapacityAt | backend/app/evacuation/optimizer.py:148-150 | with distinct shelters the reservation of an operational one starts at its effective capacity |
| Evacuation.DemandIsLiving | backend/app/evacuation/optimizer.py:178-180 | passing over zones without people loses nobody when no zone has fewer than none |
| Evacuation.LoadedSheltersAreSafe | backend/app/evacuation/optimizer.py:148-258 | end to end: whatever a plan sends to a shelter, on top of its occupants and those under way, stays within the safe share of its space and its reported limits |
| Evaluation.Measure | backend/app/evacuation/optimizer.py:273-302 | the loops compute person-minutes, the reported bound, its gap, the mean and the longest travel time and the late arrivals |
| Evaluation.Evaluate | backend/app/evacuation/optimizer.py:286-302 | what is displayed are those figures to the nearest tenth of a minute and hundredth of a percent, the counts, and the number of searches handed on |
| Evaluation.BoundHolds | backend/app/evacuation/optimizer.py:276-285 | the reported bound exceeds the actual total by no more than it charges for people not placed |
| Evaluation.BoundIsLowerExactly | backend/app/evacuation/optimizer.py:276-285 | it is a lower bound for every choice of travel times if and only if no cell that is served at all has more people than were placed from it |
| Evaluation.BoundIsLowerIfNobodyIsLeft | backend/app/evacuation/optimizer.py:276-285 | so, in a plan that accounts for everyone, if and only if nobody of a served cell is reported unplaced |
| Evaluation.BoundCanExceedTotal | backend/app/evacuation/optimizer.py:276-285 | a plan with balanced books and a real route places five of ten people and reports a bound twice its total |
| Quadtree.AnalyseSumsUpLeaves | backend/app/spatial/quadtree.py:235-288 | maximum, hotspot, mean times count and count of a region are those of the samples at its leaves |
| Quadtree.SampleReachesLeaf | backend/app/spatial/quadtree.py:81-89 | whatever a region samples, some leaf below it samples again |
| Quadtree.RootSeesEverything | backend/app/spatial/quadtree.py:266-288 | although merging ignores a node's own samples, the root reports the maximum over every sample taken anywhere, at a place that attains it |
| Quadtree.LeavesTile | backend/app/spatial/quadtree.py:112-115 | every point of the box lies in exactly one leaf, and no leaf reaches outside it |
| Quadtree.VisitCounts | backend/app/spatial/quadtree.py:235-253 | visited is four times subdivided plus one, and subdivided plus leaves |
| Quadtree.HotLeavesAreFine | backend/app/spatial/quadtree.py:212-232 | a leaf at or above the escalation threshold is at maximal depth or no larger than the leaf size |
| Pruning.SpreadIsPairwise | backend/app/spatial/quadtree.py:232 | the spread compared is that of all pairs of samples: so many times the sum of squares about the mean is the sum of the squared differences within pairs |
| Pruning.UndividedExactly | backend/app/spatial/quadtree.py:208-253 | a region is left undivided if and only if it is at the depth limit, has no side longer than a leaf, has no reading, or lies deep enough and has two readings at least, all below the threshold, whose squared differences come to no more than the tolerance allows; any other is swept quadrant by quadrant |
| Pruning.PrunedCounts | backend/app/spatial/quadtree.py:242-246 | the counter of pruned regions is the number of leaves marked so |
| Pruning.WorstIsFirst | backend/app/spatial/quadtree.py:258-260 | of equally great readings the first is the one reported |
| Pruning.WorstRegionIsFirst | backend/app/spatial/quadtree.py:280-282 | and of equally bad quadrants the first |
| Pruning.NothingRead | backend/app/spatial/quadtree.py:256-257 | a region where nothing could be read reports -1 for both risks and no place |
| Hotspots.ReportedExactly | backend/app/spatial/quadtree.py:197-253 | over surfaces known everywhere, a hot area is reported whatever the rest is like if and only if it holds a point that a sweep of a calm surface probes |
| Hotspots.TouchingHotspotsAreFound | backend/app/spatial/quadtree.py:179-181 | hot rectangles of given sides are reported wherever they touch the box if and only if all four corners are probed and no side is shorter than that of the cells where a calm sweep stops |
| Hotspots.InsideHotspotsAreFound | backend/app/spatial/quadtree.py:179-181 | for those inside the box: if and only if no side is shorter than a cell's, or, with the centre probed too, half a cell's and one side as long as a whole one |
| Hotspots.LeafWideHotspotsAreFound | backend/app/spatial/quadtree.py:179-181 | the documented promise, for all hot rectangles in the box at least a leaf wide, holds if and only if a leaf is that wide |
| Hotspots.DefaultHotspotsAreFound | backend/app/spatial/quadtree.py:184-186 | with the default settings that means an eighth of the box both ways and a quarter of it one way, however small a leaf is |
| Hotspots.LeafWideHotspotCanBeMissed | backend/app/spatial/quadtree.py:179-181 | so the promise fails by default: in a box of sixteen degrees a hot square twenty-five leaves wide need not be reported |
| Hotspots.ReportedDespiteGapsExactly | backend/app/spatial/quadtree.py:219-221 | where data may be missing the sweep stops instead of subdividing: a hot area is then reported whatever the rest is like if and only if it holds a probe of the whole box |
| Quadtree.DeepestLeaf | backend/app/spatial/quadtree.py:237-237 | the depth counter is that of the deepest leaf, and passes the limit only if the sweep began there |
| Quadtree.SpatialAnalyser.SampleBox | backend/app/spatial/quadtree.py:197-209 | probes the corners and the centre and counts every probe |
| Quadtree.SpatialAnalyser.Sweep | backend/app/spatial/quadtree.py:235-253 | the recursive sweep returns the specified result and all its counters add up |
| MergeSort.MergeRuns | backend/app/priority/mergesort.py:74-85 | the two-index loop is the merge, and its turns are the comparisons counted |
| MergeSort.MergeSorts | backend/app/priority/mergesort.py:74-85 | merging sorted runs gives a sorted run |
| MergeSort.MergeKeepsClasses | backend/app/priority/mergesort.py:42-44 | equal keys of the left run stay ahead of those of the right run |
| MergeSort.SortIsStable | backend/app/priority/mergesort.py:58-71 | sorted, a permutation, equal keys in input order |
| MergeSort.MergeKeepsAll | backend/app/priority/mergesort.py:74-85 | merging drops and repeats nothing |
| Sorting.StableSortUnique | backend/app/priority/mergesort.py:42-44 | a stable order is unique: two stably sorted permutations of one list are the same list |
| MergeSort.SortAgreesWithLibrary | backend/app/priority/mergesort.py:58-71 | hence the same list as any other stable sort |
| MergeSort.MergeSort | backend/app/priority/mergesort.py:58-71 | the recursive sort over slices computes that order |
| MergeSort.TracesAddUp | backend/app/priority/mergesort.py:136-150 | n - 1 merge records, whose comparisons sum to the report |
| MergeCost.RecordsAreMerges | backend/app/priority/mergesort.py:136-150 | every record is of two runs of nearly equal length, no deeper than the recursion, with comparisons between the shorter run and all but one; the last is that of the two halves and shows how the sorted whole begins |
| MergeSort.SortRec | backend/app/priority/mergesort.py:129-151 | the traced recursion returns that order too, and adds exactly its own comparisons, depth and records to the report |
| MergeSort.ComparisonBound | backend/app/priority/mergesort.py:107-110 | 2 to the comparisons is at most n to the n: at most n log2 n of them, for every input and comparison |
| MergeCost.ComparisonsBetween | backend/app/priority/mergesort.py:37-39 | for every input the comparisons lie between those of runs that are exhausted at once and those of runs that are not exhausted before the last element |
| MergeCost.SortedIsCheapest | backend/app/priority/mergesort.py:37-39 | input already in order is left as it is, at the least number of comparisons |
| MergeCost.MergeIsFull | backend/app/priority/mergesort.py:74-85 | a merge of sorted runs compares once for each element but one if and only if neither run ends while the other has more than one element to go |
| MergeCost.MostExactly | backend/app/priority/mergesort.py:37-39 | the most comparisons are made if and only if that is so at every level |
| MergeCost.DocumentedLeastIsTheMost | backend/app/priority/mergesort.py:38-39 | for n a power of two the documented fewest comparisons, n log2 n - n + 1, are reached if and only if the input is shuffled at every level, when they are the most |
| MergeCost.SortedFallsShort | backend/app/priority/mergesort.py:38-39 | every sorted input of three or more elements takes fewer comparisons than the documented n log2 n - n + 1, stated without logarithms as powers |
| MergeCost.DocumentedLeastExactly | backend/app/priority/mergesort.py:38-39 | the documented fewest comparisons are a lower bound for all inputs of length n if and only if n is one or two, whatever the order |
| MergeCost.ShuffledIsAsDocumented | backend/app/priority/mergesort.py:38-39 | inputs shuffled at every level take no fewer than documented, whatever their length |
| MergeSort.LevelsAreLog | backend/app/priority/mergesort.py:129-134 | the recursion depth is log2 n rounded up |
| MergeSort.SortWithTrace | backend/app/priority/mergesort.py:124-153 | stable order, report that adds up, comparison bound and depth, in one call |
| Rankings.ByPriorityIsWeakOrder | backend/app/priority/mergesort.py:159-176 | the key tuples are compared consistently |
| Rankings.SameMeansSameKey | backend/app/priority/mergesort.py:159-176 | two zones tie only on the whole key, cell id included |
| Rankings.Rank | backend/app/priority/engine.py:241-252 | zones are scored, sorted and numbered from one |
| Rankings.RankingIsRight | backend/app/priority/mergesort.py:159-176 | every zone is listed once, and outranks those behind it by the documented chain: score, exposed people, time to impact, cell id |
| Rankings.OrderMattersOnlyForTies | backend/app/priority/mergesort.py:8-13 | the order is the same for every input order if and only if zones that tie on the key are the same zone |
| Rankings.RankingIgnoresInputOrder | backend/app/priority/engine.py:241-246 | with distinct cells the ranking is identical for every order of the inputs |
| Rankings.MoreUrgentRanksAhead | backend/app/priority/engine.py:166-246 | a place in at least the danger of another is never ranked behind it, except by cell id |
| Scores.NormsAreNormed | backend/app/priority/engine.py:110-163 | every normalised term is in [0, 1] and at least one term is live |
| Urgency.HazardTerm | backend/app/priority/engine.py:110-112 | the hazard term rises by a hundredth per point of risk and stops at both ends |
| Urgency.ExposureTerm | backend/app/priority/engine.py:114-118 | exposure is nothing for nobody, all from the reference on, and strictly more for more people in between |
| Urgency.VulnerabilityTerm | backend/app/priority/engine.py:120-124 | vulnerability counts as it is, kept between none and all, and only without it is a term dropped |
| Urgency.TravelTerm | backend/app/priority/engine.py:126-132 | travel counts in proportion up to an hour and a half, all beyond, and half if unknown |
| Urgency.ImpactTerm | backend/app/priority/engine.py:134-148 | a hazard that is there counts in full, one to come strictly the less the later, and an unknown one 0.4 |
| Urgency.AccessTerm | backend/app/priority/engine.py:150-163 | no usable route counts in full, and one, two and three or more strictly less |
| Urgency.NotesAreTrue | backend/app/priority/engine.py:110-163 | what each note says of the input is so, case by case |
| Urgency.ZoneShows | backend/app/priority/engine.py:206-239 | a scored zone shows its inputs as they are and every normalised term to four places, or that it is missing |
| Urgency.AvailableExactly | backend/app/priority/engine.py:183-184 | what is available are the weights of the terms that are there, each its own |
| Urgency.AvailableIfAnyWeighs | backend/app/priority/engine.py:183-184 | and that is more than nothing exactly if one of them has any weight |
| Urgency.DisplayedIsShare | backend/app/priority/engine.py:190-195 | every weight on the screen is its share of what is available to half a millionth, but for one that takes the rest |
| Urgency.TermsThatCount | backend/app/priority/engine.py:177-189 | all six terms count, or five where vulnerability is missing, which sets the margin of the score |
| Urgency.RiseIsWorth | backend/app/priority/engine.py:206-220 | a rise of one term raises the score by so much of its weight on the screen, to the millionth |
| Urgency.RiseIsWorthItsShare | backend/app/priority/engine.py:183-220 | and by so much of its true share of the available weights, to within twice the margin of a score |
| Urgency.RiskierRanksAhead | backend/app/priority/engine.py:241-246 | of two places alike but for predicted risk the riskier scores higher by a hundredth of the weight of hazard per point, to the millionth, and ranks ahead as soon as that is more than one |
| Scores.WeightsClose | backend/app/priority/engine.py:190-199 | the displayed live weights sum to exactly one |
| Scores.DisplayedNonNegative | backend/app/priority/engine.py:190-199 | taking the residue back never turns a displayed weight negative |
| Scores.ContributionsBounded | backend/app/priority/engine.py:210-212 | a contribution lies between nothing and its weight |
| Scores.ScoreInUnit | backend/app/priority/engine.py:201-214 | the score lies in [0, 1] |
| Scores.WeightsIgnoreValues | backend/app/priority/engine.py:180-199 | displayed weights depend only on which terms are live |
| Scores.ScoreMonotone | backend/app/priority/engine.py:187-214 | for a fixed set of live terms the score never falls when a term rises |
| Scores.MoreUrgentNeverScoresLower | backend/app/priority/engine.py:110-214 | more risk, people, vulnerability or travel time, less time to impact or fewer routes never lower the score |
| Scores.ScoreIsAccurate | backend/app/priority/engine.py:187-214 | with n live terms the score is within n - 1/2 millionths of the true weighted mean, so within 5.5 |
| Scores.ScaleFree | backend/app/priority/engine.py:187-195 | only the proportions of the weights matter |
| Scores.RegisteringKeepsScores | backend/app/priority/engine.py:105-107 | renormalising the weight set in the constructor changes no score |
| Scores.RegisteredSumsToOne | backend/app/priority/engine.py:105-107 | the registered weights are left alone if they sum to one within a billionth and sum to one exactly otherwise; only noughts cannot be registered |
| Scores.BandsFollowScores | backend/app/priority/engine.py:216-216 | every score has a band, and a higher score never a milder one |
| Scores.BandSpelled | backend/app/priority/engine.py:46-47 | the band is critical from 0.75, high from 0.55, medium from 0.32, and low below |
| Scores.ScoresHaveReasons | backend/app/priority/engine.py:218-222 | a score above nought has a reason, the first of them a largest contribution; a score of nought has none |
| Scores.WeightsOnScreen | backend/app/priority/engine.py:194-199 | after rounding, the residue goes to the heaviest live term: what is shown sums to exactly one, no weight is negative, a term without input has none, and all but one lie within half a millionth of the true share |
| Scores.AddUp | backend/app/priority/engine.py:201-214 | the loop over the terms adds up the rounded contributions |
| Scores.CarrierIsReason | backend/app/priority/engine.py:218-222 | a term that carries at least 15 % of the score is a reason, unless four others that are no smaller are |
| Scores.ReasonsExactly | backend/app/priority/engine.py:218-222 | in whole numbers: reasons carry at least 15 % of a score above nought, and a term that does is one unless four no smaller fill the list |
| Scores.ReasonsTellAll | backend/app/priority/engine.py:218-232 | a score above nought leads with the note on a largest contribution; missing inputs are owned up to exactly when vulnerability is missing, low confidence exactly when it is below 0.6; at most six reasons |
| Scores.ReadingsMatchNorms | backend/app/priority/engine.py:110-163 | a term is dropped exactly if its note says that it has no input, and one kept without a raw value has a neutral one |
| Scores.Score | backend/app/priority/engine.py:166-238 | the zone with its raw values, displayed terms, notes and reasons: weights sum to one, contributions to the score, the score has its band |
| Scores.VerifyIsExact | backend/app/priority/engine.py:256-269 | the audit never raises on a scored zone, and raises exactly when the shown score is off by more than a millionth |
| Limiters.LimitOf | backend/app/core/hardening.py:92-99 | every limit allows a request, and its window is positive and no longer than the gap between sweeps |
| Limiters.StepOwnHits | backend/app/core/hardening.py:131-149 | a request is accepted exactly when fewer live hits than the limit are on record; its hit is lost exactly when a due sweep finds no live hit of its key |
| Limiters.StepHits | backend/app/core/hardening.py:131-167 | a check of another key at most prunes expired hits |
| Limiters.RunInv | backend/app/core/hardening.py:131-167 | in every run the deque is the tail of what was recorded, with all that was dropped older than a window |
| Limiters.RateBound | backend/app/core/hardening.py:131-167 | any closed window holds at most the limit of recorded hits and at most one unrecorded acceptance, so at most one request more than the limit |
| Limiters.PassesExactly | backend/app/core/hardening.py:131-149 | from any state, of any number of requests at one instant exactly as many are accepted as there is room for: the limit less the live hits, or one more than the limit when a due sweep finds no live hit |
| Limiters.OneTooMany | backend/app/core/hardening.py:141-149 | after any run, one request more than the limit is accepted at a single instant if and only if a sweep is due and the client has no live hit on record |
| Limiters.NewcomersPassOneMore | backend/app/core/hardening.py:141-149 | and it happens: to every new client once the first sweep is due, in every bucket |
| Limiters.OthersOnlyPrune | backend/app/core/hardening.py:151-167 | checks of other keys never drop a live hit |
| Limiters.WaitingIsEnough | backend/app/core/hardening.py:144-146 | a refused client that waits `retry_after` and sends nothing else is accepted, whatever others send |
| Limiters.ShorterIsRefused | backend/app/core/hardening.py:144-146 | and `retry_after` is the least in whole seconds: after a second less it is refused again |
| Limiters.RemainingIsExact | backend/app/core/hardening.py:148-149 | the number reported as remaining is exactly how many more get through at that instant, one less if the sweep has just lost the record |
| Limiters.BucketsAreBounded | backend/app/core/hardening.py:92-99 | bucket by bucket, no client gets more than one over the registered limit through in any window of the registered length |
| Limiters.NewcomersPassTheLimit | backend/app/core/hardening.py:92-99 | and a new client gets exactly the registered limit through at once, as long as no sweep is due |
| RateLimiters.Deque.Expire | backend/app/core/hardening.py:137-139 | the pop-left loop removes exactly the leading expired times |
| RateLimiters.SlidingWindowLimiter.Sweep | backend/app/core/hardening.py:151-167 | every entry is pruned to its own window, empty ones leave the table, and their deques live on |
| RateLimiters.SlidingWindowLimiter.Check | backend/app/core/hardening.py:131-149 | the check on shared deques is the model's step, a deque detached by the sweep included |
| Outboxes.RunInv | backend/app/ws/hub.py:142-169 | every interleaving of fan-out and pump keeps the invariant |
| Outboxes.EveryRunDelivers | backend/app/ws/hub.py:142-169 | messages sent are an in-order subsequence of those wanted; the outbox is the newest of them, at most 256; sent, in hand, queued and discarded make up wanted |
| Outboxes.EveryRunAnnounces | backend/app/ws/hub.py:147-169 | finished gap notices plus the counter never exceed the discards, and equal them exactly when none was counted during a notice; a client that has caught up is owed no notice |
| Outboxes.NoticesTellOfGaps | backend/app/ws/hub.py:161-169 | a gap notice is sent exactly when the outbox is empty after a send and something was discarded, tells of one discard at least, and none is owed when it is done |
| Outboxes.NoDiscardWithoutFull | backend/app/ws/hub.py:147-149 | nothing is discarded unless an outbox is full when a message arrives |
| Outboxes.BurstDiscards | backend/app/ws/hub.py:142-151 | a burst discards exactly what does not fit |
| Outboxes.NoticeForgets | backend/app/ws/hub.py:162-169 | of a burst during a gap notice, what does not fit is never announced |
| Hubs.Client.Append | backend/app/ws/hub.py:147-149 | the bounded deque discards its oldest message and counts it |
| Hubs.Client.PumpNext | backend/app/ws/hub.py:157-160 | the pump takes the oldest message, or sleeps |
| Hubs.Client.PumpSent | backend/app/ws/hub.py:161-168 | after a send, a gap notice is due exactly when the outbox is empty and something was dropped |
| Hubs.Client.PumpTold | backend/app/ws/hub.py:163-169 | the counter is cleared when the notice is done |
| Hubs.Client.PumpFailed | backend/app/ws/hub.py:172-174 | a failed send ends the pump; the message in hand stays accounted for |
| Hubs.StemIsPrefix | backend/app/ws/hub.py:51-55 | what is cut off a pattern is its trailing stars, all of them and nothing else |
| Hubs.MatchesExactly | backend/app/ws/hub.py:51-55 | a pattern matches exactly the topics that begin with what stands before some of its trailing stars |
| Hubs.WantsExactly | backend/app/ws/hub.py:51-55 | a client wants a topic exactly if it named none, named this one, or named a pattern that matches it |
| Hubs.Fanout | backend/app/ws/hub.py:142-151 | exactly the clients that want the topic are offered the message, and they are counted |

## Left out

- Database, HTTP routes, authentication, Redis and WebSocket transport, model training, threshold tables, configuration, the assistant and the frontend: external engines, data or plumbing.
- Floating-point error, NaN and infinities: arithmetic is over reals; the searches assume edge lengths, capacities, coefficients and loads that are not negative, as the data are.
- Trigonometry: `haversine_m` and `_project` are parameters; that the planar distance of the k-d tree approximates the great circle is not part of this model.
- BestFirst.Dijkstra: a `dist` entry that was not settled before the search stopped is the cost of a real path but may exceed the optimum, and the cutoff by its last road.
- BusModel.EveryRunIsSafe: a task cancelled before its first step, which only happens at shutdown, is not modelled; a runner is a step that may end at any time by success, failure or cancellation.
- BusClock.NothingIsOverdue: steps take no time, so delays of the event loop itself come on top.
- BusModel.StepInv: the semaphore may admit any waiting run; the order among waiting runs is not modelled.
- Evacuation.EvacuationOptimizer.Plan: a tree payload is known by its shelter id instead of being a shared dictionary, and the travel-time closure is a map computed once per zone before anything is assigned to it; reasons are stored without their numbers.
- Capacity.FillingIsSafe: shelters reporting water or food in days only are limited by a share of their space, as in the code; no promise about days is made. Warnings and the constraint breakdown are not modelled.
- Shelters.RankShelters: reasons are stored without their numbers; `k_candidates` is at least one, as the source's own search needs it to be.
- Quadtree.SpatialAnalyser.Sweep: `_is_base_case` compares variance with the squared tolerance.
- Hotspots.InsideHotspotsAreFound: boxes of no width or no height are left aside.
- Scores.Score: the wording of notes and reasons; log and exp are monotone curves given as parameters.
- MergeCost.DocumentedLeastIsTheMost: for n a power of two only; for other n the documented number can be below the most (63 of 64 for n = 19), and inputs that are not shuffled at every level may reach it. What holds for every n is in `MergeCost.DocumentedLeastExactly`, `MergeCost.SortedFallsShort` and `MergeCost.ShuffledIsAsDocumented`.
- Rankings.Rank: zones are values, so that writing a rank replaces the entry of the list instead of a field of a shared object.
- RateLimiters.SlidingWindowLimiter.Check: the limits are the registered table; requests are taken one at a time, as the event loop does.
- Outboxes.EveryRunAnnounces: a gap notice counts as announced when its send returns, even if that send failed silently, which the code cannot tell either.
- Hubs.Fanout: it runs over the snapshot of the client set; connecting and disconnecting are not modelled.
- Login guard, step-up, circuit breaker, polling plan, `hotspots`, `prune_rate`, `district_summary`, `snapshot`: they would only add easy members.
