# ACO K-shortest-path search on a metro grid: a Dafny model

The program searches, for each origin–destination (OD) pair of a small
metro network, for the K shortest routes. It uses an ant colony that walks
a grid map of the network. It then splits the OD demand over the routes it
found, edge by edge. This project models the four parts of
`ant_k_path.py` that carry the logic:

- **network.dfy** (`Network`) holds the four metro lines, the interchange
  stations and their penalty tables, and the edge-time table. It models
  `change_route_cost` as the penalty of passing through a station, and
  `search_route_line` as the inertia search along the line shared by the
  previous and the current station. `RouteCost` is the time of a route:
  edge times plus interchange penalties.
- **world.dfy** (`Grid`) models the `World` grid of optional `Square`s
  (token `"1"` is an obstacle). `World` is a class whose `squares` field is
  rewritten in place by `SetNest`, `SetFood` (first label in row-major
  order) and `UpdatePheromone` (evaporation by the factor `1 - RHO`).
- **ant.dfy** (`Colony`) models one ant of `Ant`, in two layers:
  - a pure layer:
    - the candidate filter over the eight neighbours;
    - the three rules `find_food_nest_rule`, `move_rule` and
      `avoid_obstacle_rule`, and their order;
    - `Step`, the whole of `go_next_square` as a function of the grid, the
      ant's walking state and an oracle for the random draws;
  - the class `Ant`, whose methods update the ant's state, its dead flag
    and the world's grid in place. `GoNextSquare` is proved to produce
    exactly the outcome `Step` specifies.
- **kpaths.dfy** (`KPaths`) models the K-path ledger that
  `Init_ACO_K_ShortRoute` keeps for one OD pair:
  - `CollectKPaths` is the admission loop over the stream of reports;
  - `FinalPaths` is the finalisation that keeps the 10-minute window.
  - Both are proved against the specification functions `Collect` and
    `WithinWindow`.
- **flow.dfy** (`Flow`) models the flow split (`Pk` and the `ALL_TWO`
  updates) as the function `SplitOd` and the class `EdgeFlows`, whose
  methods add the demand onto the edge-flow map in place.

Costs, times, pheromone and flows are `real`. The random draws
(`random.random`, `random.choice`, `random.randint`) are the fields of an
`Oracle` value passed to each step. Every possible draw is covered
because each lemma quantifies over all oracles.

Notes on what the code does, each of which the model follows:

- The reported leg cost is the sum of the edge times plus the interchange
  penalties. The counter starts at 1 and 1 is subtracted at the end.
- The transfer cap counts occurrences of the labels d, f, j, n, e and k,
  endpoints included, not distinct stations. The first entry, put into the
  empty list, is exempt from the cap.
- A new K-path goes before the first entry whose cost is greater than or
  equal to its own. Among equal costs, the later report is therefore
  listed first (`KPaths.EqualCostsLaterFirst`).
- The flow share of path k is `C_k / Σ_j C_j`, where the C are the path
  costs and the sum includes k. A costlier path therefore gets a larger
  share (`Flow.ShareGrowsWithCost`). `Sx` is computed but never used.
- `avoid_obstacle_rule` uses the same visited filter (`food_route` /
  `nest_route`) as the other rules.

## Model

| member | source | states |
|---|---|---|
| Network.ChangeRouteCost | ant_k_path.py:737-807 | The interchange penalty is never negative, and is 0 at every station that is not d, f, j, n, e or k |
| Network.ChangeRouteCostIsTableLookup | ant_k_path.py:737-807 | The branch chain equals a first-match lookup in the station's table: the first (previous line, next line) entry holding the previous and the next station gives the penalty, and 0 when none matches |
| Network.IndexOf | ant_k_path.py:926-969 | The index found is the first position of the station on the line |
| Network.CommonLineFrom | ant_k_path.py:926-969 | The line chosen is the first, in line order, that holds both the previous and the current station; -1 when no line holds both |
| Network.NextStationIndex | ant_k_path.py:926-969 | With equal indices there is no next station; otherwise the next index lies on the line |
| Network.NextStationContinues | ant_k_path.py:926-969 | Inertia keeps the direction of travel, and each line is read as a loop: a forward arrival continues forward and a backward arrival continues backward, wrapping at both ends |
| Network.InertiaTarget | ant_k_path.py:926-969 | The inertia station lies on a line shared with the current station |
| Network.InertiaAroundLineTwo | ant_k_path.py:926-969 | On line 2 the move n→d continues to i and the move d→n continues to f, across the line's ends |
| Network.FirstIndexOf | ant_k_path.py:966-969 | The index is the first candidate with the label, or -1 exactly when no candidate has it |
| Network.SearchRouteLine | ant_k_path.py:926-969 | The result is a candidate index exactly when the inertia target exists and is among the candidates, and it is then the first candidate carrying that label |
| Network.TableEdgeOnLine | ant_k_path.py:78-131 | Every edge of the time table joins two different stations that lie on a common line |
| Network.InertiaOnCommonLine | ant_k_path.py:926-964 | For two different stations of a common line, the line search and the next-station branches always yield an inertia target |
| Network.InertiaAlongEdge | ant_k_path.py:926-964 | After a move along any edge of the time table, the inertia target exists, so the line search never falls through |
| Network.SourceTimesPositive | ant_k_path.py:78-131 | Every travel time in the program's own edge-time table is positive, so the premise of the ant proofs holds for it |
| Network.RouteCost | ant_k_path.py:875-884 | With positive edge times a route costs at least 0, and more than 0 once it has a hop |
| Network.RouteCostSnoc | ant_k_path.py:875-884 | Extending a route by one station adds that hop's edge time and, when the old last station has a predecessor, its interchange penalty |
| Network.RouteCostWithoutInterchanges | ant_k_path.py:834-843 | A route that passes through no interchange station costs exactly the sum of its edge times |
| Grid.SameLayoutAt | ant_k_path.py:1175-1182 | Two grids with the same layout have obstacles in the same places and squares that differ only in pheromone |
| Grid.SameLayoutKeeps | ant_k_path.py:1185-1201 | A pheromone-only change keeps the grid rectangular, each square at its own coordinates, and the border free of stations |
| Grid.ReplaceAt | ant_k_path.py:1203-1228 | Replacing one cell changes that cell and no other |
| Grid.ReplaceKeepsLayout | ant_k_path.py:1203-1228 | Replacing a cell by the same square with other pheromone keeps the layout |
| Grid.EvaporationShrinks | ant_k_path.py:1230-1241 | Evaporation keeps the layout and keeps pheromone non-negative; every positive pheromone component strictly decreases and no component grows |
| Grid.Evaporated | ant_k_path.py:1230-1241 | Evaporation keeps the number of rows, the width of every row, and the obstacle cells |
| Grid.World.GetWorldMapSquares | ant_k_path.py:1191-1201 | The grid has the map's height and the first row's width; a cell is empty exactly when its token is "1"; every other cell is a square named by its token, with neither food nor nest and zero pheromone; squares sit at their own coordinates and pheromone is non-negative |
| Grid.World.constructor | ant_k_path.py:1186-1201 | Each cell is the square its token describes ("1" is an obstacle); all pheromone starts at 0; neither food nor nest is set |
| Grid.World.Locate | ant_k_path.py:1203-1214 | Returns the first cell in row-major order with the label, or None when no cell has it |
| Grid.World.SetNest | ant_k_path.py:1203-1214 | Marks exactly the first cell with the label as the nest, and changes no other cell; nothing changes when the label is absent |
| Grid.World.SetFood | ant_k_path.py:1216-1228 | Marks exactly the first cell with the label as food, and changes no other cell; nothing changes when the label is absent |
| Grid.World.UpdatePheromone | ant_k_path.py:1230-1241 | The grid becomes its evaporated form, and the food and nest positions are unchanged |
| Colony.OppositeReverses | ant_k_path.py:737-745 | The direction (d+4) mod 8 has the negated offset of d, so the previous station is the scope cell opposite the last move |
| Colony.LookBack | ant_k_path.py:714-729 | Stepping in direction d and then in its opposite returns to the start |
| Colony.NeighbourInjective | ant_k_path.py:714-729 | Distinct directions lead to distinct neighbour cells |
| Colony.CandidatesUpTo | ant_k_path.py:1027-1036 | Every candidate listed from the first n directions lies in one of them, is admissible, and carries the square its scope cell holds |
| Colony.Candidates | ant_k_path.py:1027-1036 | There are at most eight candidates, each admissible in its own direction and carrying the square its scope cell holds |
| Colony.CandidateIff | ant_k_path.py:1027-1036 | A neighbour is a candidate exactly when it is not an obstacle, is not on the current leg's visited list, and is joined to the current station by an edge of the time table |
| Colony.ListedSquare | ant_k_path.py:988-994 | A scope square is among the candidate squares exactly when it is listed in its own direction |
| Colony.CandidatesNonNegative | ant_k_path.py:1027-1036 | With non-negative pheromone on the grid, every candidate carries non-negative pheromone |
| Colony.ScentIsTrail | ant_k_path.py:1009-1019 | The pheromone an ant follows is the food trail while it seeks food and the nest trail while it seeks the nest |
| Colony.FirstTarget | ant_k_path.py:1041-1053 | The marker scan returns the first candidate holding the target (food while seeking food, nest while seeking the nest), or -1 when none does |
| Colony.ArgMaxIsFirstMaximum | ant_k_path.py:1058-1070 | The strongest-trail scan returns -1 exactly when no trail is positive; otherwise a positive maximum with every earlier value strictly smaller, so the first maximum wins |
| Colony.SkipCoversOthers | ant_k_path.py:1072-1080 | Every candidate other than the strongest can be reached by the mistake draw |
| Colony.SkipHits | ant_k_path.py:1072-1080 | For every index j other than the strongest k, the draw that counts the indices before j, k left out, is below n-1 and lands on j |
| Colony.FindFoodNest | ant_k_path.py:1001-1082 | With no candidate there is no square. The rule finds the target exactly when a candidate holds it, and then returns the first such candidate. With no target and no trail among the candidates it returns no square, handing over to the move rule. Otherwise any square it returns is a candidate in its own direction. The line is the edge from the current station to the square |
| Colony.MoveChoice | ant_k_path.py:914-999 | The move rule never reports the target. With no candidate there is no square; otherwise any square it returns is a candidate, and the line is the edge to it |
| Colony.Avoid | ant_k_path.py:1084-1106 | The obstacle rule never reports the target. It returns a square exactly when there is a candidate, and that square is a candidate in its own direction, joined by the edge named in the line |
| Colony.Decide | ant_k_path.py:812-873 | The rule cascade finds a square exactly when there is a candidate. It finds the target exactly when a candidate holds it, and then takes the first such candidate. The line is the edge to the square found |
| Colony.DecideRuleOrder | ant_k_path.py:812-873 | The rules apply in order: a target, or a trail on a grid without negative levels, decides the step through the pheromone rule; with neither, the move rule decides when it yields a square, and the obstacle rule otherwise |
| Colony.Deposited | ant_k_path.py:1108-1121 | A deposit keeps the grid's layout: the same obstacles, and squares that differ only in pheromone |
| Colony.DecideMovesToCandidate | ant_k_path.py:809-873 | A step finds a square exactly when there are candidates; it completes a leg exactly when a candidate holds the target, and then takes the first such candidate; otherwise it moves to a candidate in its own direction, along the edge joining the two stations |
| Colony.TrailLeadsToStrongest | ant_k_path.py:1055-1080 | With a positive trail and no target, the pheromone rule always yields a square, and without a mistake it is the first candidate with the strongest trail |
| Colony.MistakeSkipsStrongest | ant_k_path.py:1002-1080 | With no target, a trail, two or more candidates and a mistake, the pheromone rule takes the candidate the draw selects among all but the strongest, and never the strongest itself |
| Colony.PerturbationAlwaysApplies | ant_k_path.py:983-994 | With the perturbation rate 1.0, the move rule always takes the random direction, and returns a square exactly when the scope cell in that direction is a candidate, and then that cell |
| Colony.InertiaWithoutPerturbation | ant_k_path.py:926-987 | Without the perturbation, after a move the rule returns a square exactly when search_route_line finds a candidate, and then that candidate, whose label is the station continuing the ant's line; at the start of a leg it takes the drawn candidate |
| Colony.DepositRaisesOneLevel | ant_k_path.py:1108-1121 | A deposit changes only the ant's square, keeps the layout, raises by the amount the food trail when the ant heads for the nest and the nest trail when it seeks food, and keeps pheromone non-negative |
| Colony.MarkerScan | ant_k_path.py:1041-1056 | The marker loop finds the first target candidate and, when there is none, reports whether any candidate carries a positive trail |
| Colony.StrongestScan | ant_k_path.py:1058-1070 | The argmax loop returns the index ArgMax specifies |
| Colony.DistinctIff | ant_k_path.py:899-908 | A leg is repetition-free exactly when no two of its positions are equal |
| Colony.SpellsIff | ant_k_path.py:905-910 | A leg spells its route exactly when both have the same length and each position holds the label at the same index |
| Colony.LayoutKeepsLabels | ant_k_path.py:1108-1121 | Pheromone changes keep the labels a leg spells |
| Colony.PlacedFits | ant_k_path.py:714-729 | A walking ant stands inside the border, its square's label ends its route, and after a move the scope cell behind it holds the previous label of the route |
| Colony.MoveTimePositive | ant_k_path.py:875-884 | With positive edge times every move takes positive time |
| Colony.LegOkStart | ant_k_path.py:679-693 | A fresh ant's leg (one square, one label, counter 1, no previous direction) satisfies the leg invariant |
| Colony.MoveTimeExtendsRoute | ant_k_path.py:875-884 | The time added by a move is exactly the growth of the route's cost: edge time plus the interchange penalty at the station left |
| Colony.LegOkAdvance | ant_k_path.py:886-912 | A move to a candidate goes to the neighbour in that direction, off the visited leg, and keeps the leg invariant with the counter equal to 1 + the route's cost |
| Colony.WalkingFits | ant_k_path.py:714-729 | A walking ant's view fits the grid; its square's label ends its route; its counter is at least 1 |
| Colony.WalkingAdvance | ant_k_path.py:886-912 | Moving to a candidate appends the new square to the current leg, never revisits a square, and keeps the ant walking |
| Colony.WalkingTurn | ant_k_path.py:813-864 | Reaching the target keeps the ant walking on a new one-square leg, and the reported time is the full route's cost |
| Colony.WalkingLayout | ant_k_path.py:1108-1121 | Pheromone changes keep an ant walking |
| Colony.LayKeeps | ant_k_path.py:1108-1121 | Laying PHEROMONE/total keeps the layout, the bordered grid and non-negative pheromone, and keeps the ant walking |
| Colony.StepFound | ant_k_path.py:813-867 | When a target is found, the step reports the route extended by the target's label at its cost, turns the ant around and lays pheromone on the target square |
| Colony.StepMoved | ant_k_path.py:868-912 | Otherwise a step that finds a square moves the ant there at the move's time, reports no route with cost 10000, and lays pheromone |
| Colony.StepMovedTo | ant_k_path.py:868-912 | A move to the picked square in direction d goes to a candidate along a table edge, and the outcome is no report at cost 10000, the moved state, and pheromone laid on the new square |
| Colony.StepDiesIff | ant_k_path.py:809-873 | A live ant dies exactly when it has no candidate, and a dying ant keeps its state |
| Colony.Step | ant_k_path.py:732-912 | A step without a report costs 10000. The ant dies exactly when it was dead or has no candidate, and a dead ant keeps its state and the grid. Every step keeps the grid's layout |
| Colony.StepKeepsWalking | ant_k_path.py:732-912 | Every step, dead or alive, keeps the ant's walking invariant |
| Colony.StepReports | ant_k_path.py:813-867 | A reported route extends the ant's route by one label and has no missing hop; its cost is the route's cost of edges plus penalties; the ant restarts from the new square with the opposite behaviour, and that square holds the target |
| Colony.StepMoves | ant_k_path.py:868-912 | A move without a report costs 10000, keeps the behaviour, adds a new square to the leg and one label to the route, and increases the counter |
| Colony.Ant.ValidFits | ant_k_path.py:714-729 | A valid ant's view fits the grid, and its position and route agree |
| Colony.Ant.constructor | ant_k_path.py:679-693 | A new ant stands on the given station square, seeks food, has no previous direction, has counter 1, and has that square as its leg and its label as its route |
| Colony.Ant.ScanCandidates | ant_k_path.py:1027-1036 | The scan returns exactly the candidate list |
| Colony.Ant.FindFoodNestRule | ant_k_path.py:1001-1082 | The pheromone rule's result is the one FindFoodNest specifies |
| Colony.Ant.MoveRule | ant_k_path.py:914-999 | The move rule's result is the one MoveChoice specifies |
| Colony.Ant.AvoidObstacleRule | ant_k_path.py:1084-1106 | The obstacle rule's result is the one Avoid specifies, and it marks the ant dead exactly when there is no candidate |
| Colony.Ant.SpreadPheromoneRule | ant_k_path.py:1108-1121 | The world's grid becomes the grid with PHEROMONE/total deposited on the given square; food and nest positions are unchanged |
| Colony.Ant.FinishLeg | ant_k_path.py:813-864 | Completing a leg returns the old route plus the target's label, at that route's cost, and resets the ant onto the target square |
| Colony.Ant.Advance | ant_k_path.py:874-910 | A move sets the ant's state to the moved state at the move's edge-and-penalty time |
| Colony.Ant.Deposit | ant_k_path.py:865 | Deposits on the ant's own square, keeps the ant valid, and leaves the food and nest positions unchanged |
| Colony.Ant.ReachTarget | ant_k_path.py:813-867 | The found branch produces the outcome Step specifies, and leaves the food and nest positions unchanged |
| Colony.Ant.MoveOn | ant_k_path.py:874-912 | The move branch produces the outcome Step specifies, and leaves the food and nest positions unchanged |
| Colony.Ant.Choose | ant_k_path.py:812-873 | The rule cascade returns the pick Decide specifies, and the ant is dead afterwards exactly when it was before or no square was found |
| Colony.Ant.Live | ant_k_path.py:812-912 | A live ant's step produces the outcome Step specifies, and leaves the food and nest positions unchanged |
| Colony.Ant.GoNextSquare | ant_k_path.py:732-912 | The report, the cost, the new state, the dead flag and the new grid are exactly Step's outcome; a dead ant returns no route with cost 10000; the food and nest positions are unchanged |
| KPaths.OccurrencesOfSnoc | ant_k_path.py:1283-1290 | Appending a label adds one occurrence exactly when it is an interchange label |
| KPaths.OccurrencesOfIsTransferCount | ant_k_path.py:1283-1290 | The nested station-by-label loop counts the interchange labels on the route |
| KPaths.CountTransfers | ant_k_path.py:1283-1290 | The loop returns the route's transfer count |
| KPaths.TransferCount | ant_k_path.py:1283-1290 | The transfer count is at most the route's length, and is 0 exactly when the route passes no interchange station |
| KPaths.InsertByCost | ant_k_path.py:1292-1298 | The new entry goes in at the first entry costing at least as much, or at the end, with the entries before and after it unchanged |
| KPaths.InsertionPoint | ant_k_path.py:1292-1298 | The insertion point is the first entry costing at least the new cost, or the end of the list |
| KPaths.InsertByCostAt | ant_k_path.py:1292-1298 | Insertion puts the new entry at the insertion point and shifts the rest by one |
| KPaths.InsertByCostMultiset | ant_k_path.py:1292-1298 | Insertion adds exactly the new entry and loses none |
| KPaths.SortedSplice | ant_k_path.py:1292-1298 | An entry between a sorted front and a sorted back keeps the list sorted |
| KPaths.InsertByCostSorted | ant_k_path.py:1292-1298 | Insertion keeps the list sorted non-decreasing by cost |
| KPaths.Admit | ant_k_path.py:1266-1298 | A report with no route, from another origin, or more than 10 over the shortest leaves the ledger unchanged. An admitted report lowers the shortest and sets the best route when strictly cheaper. It starts an empty list, is skipped when already listed or above the transfer cap, and is otherwise inserted by cost. Sortedness, distinct routes, the origin and the cap are kept |
| KPaths.InsertNewRouteKeepsDistinct | ant_k_path.py:1280-1298 | Inserting a route not yet listed keeps the routes distinct |
| KPaths.InsertWithinCapKeepsAtMostOne | ant_k_path.py:1283-1298 | Inserting a route within the cap keeps at most one entry over the cap |
| KPaths.InsertedEntryKeepsInvariants | ant_k_path.py:1276-1298 | An insertion keeps all four ledger invariants and adds no entry but the new one |
| KPaths.InsertedEntryMembers | ant_k_path.py:1292-1298 | After insertion every entry was listed before or is the new one, and all still start at the origin |
| KPaths.Collect | ant_k_path.py:1250-1298 | After any stream of reports, the list is sorted by cost, has distinct routes, starts every route at the origin, and has at most one entry (the first) over the transfer cap |
| KPaths.OverCapIsFirstEntry | ant_k_path.py:1276-1290 | An entry over the transfer cap is the route and cost of the report that put the first entry into the still empty list |
| KPaths.CollectShortest | ant_k_path.py:1252-1274 | The shortest never rises above 10000, is at most the cost of every report from the origin, and the best route is empty exactly when the shortest is still 10000 |
| KPaths.CollectBestWitness | ant_k_path.py:1269-1274 | A non-empty best route is the route of a report that set the current shortest |
| KPaths.CollectEntriesWereReported | ant_k_path.py:1250-1298 | Every listed entry is one of the reports |
| KPaths.CollectSingle | ant_k_path.py:1276-1278 | A single report from the origin within the window is the only entry |
| KPaths.EqualCostsLaterFirst | ant_k_path.py:1292-1298 | Of two reports with equal cost, the later is listed first |
| KPaths.InsertEntry | ant_k_path.py:1292-1298 | The scan-and-insert loop yields the list with the entry inserted by cost; on an empty list it inserts nothing |
| KPaths.CollectKPaths | ant_k_path.py:1250-1298 | The admission loop yields exactly Collect's shortest, best route and list |
| KPaths.WithinWindowNone | ant_k_path.py:1307-1309 | When every entry is more than 10 over the shortest, the window keeps nothing |
| KPaths.WindowPrefixIsFilter | ant_k_path.py:1307-1309 | On a sorted list, the longest prefix within the window equals filtering every entry by the window |
| KPaths.FinalPaths | ant_k_path.py:1303-1322 | With no best route the final list is empty; otherwise it is the longest prefix within 10 of the shortest |
| KPaths.FinalListProperties | ant_k_path.py:1250-1322 | The final list is sorted, has distinct routes from the origin, obeys the cap, and equals the window filter of the ledger |
| Flow.Pk | ant_k_path.py:1347-1348 | Pk times the sum of the other entries gives the first entry; with a non-negative first entry and a positive sum, Pk is non-negative |
| Flow.PkIsShare | ant_k_path.py:1347-1348 | Pk of k_two is the path's cost over the sum of all costs |
| Flow.SharesSumToOne | ant_k_path.py:1332-1339 | The shares of all paths sum to 1 |
| Flow.ShareGrowsWithCost | ant_k_path.py:1332-1339 | With positive costs, a costlier path receives a strictly larger share |
| Flow.AddAlong | ant_k_path.py:1328-1331 | Adding along a route keeps the set of edges |
| Flow.AddAlongAt | ant_k_path.py:1328-1331 | Each edge gains the amount once per hop of the route over it |
| Flow.AddEachAt | ant_k_path.py:1332-1339 | After several paths each edge has gained the sum of those paths' contributions |
| Flow.AmountIsShare | ant_k_path.py:1332-1339 | Path k carries the demand times its share |
| Flow.AmountsAreScaledShares | ant_k_path.py:1332-1339 | The amounts are the shares scaled by the demand |
| Flow.SplitOd | ant_k_path.py:1324-1339 | The split keeps the set of edges |
| Flow.SplitOdNoPaths | ant_k_path.py:1324-1339 | With no final path the flows are unchanged |
| Flow.SplitOdSinglePath | ant_k_path.py:1326-1331 | With one final path, each edge on it gains the demand once per hop over it |
| Flow.SplitOdOffPath | ant_k_path.py:1324-1339 | An edge on no final path keeps its flow |
| Flow.SplitOdEdgeOfOnePath | ant_k_path.py:1332-1339 | With two or more paths, an edge crossed once by a single path gains the demand times that path's share |
| Flow.GainEveryPathIsDemand | ant_k_path.py:1332-1339 | An edge crossed once by every path gains the demand in total |
| Flow.SplitOdEdgeOfEveryPath | ant_k_path.py:1324-1339 | An edge crossed once by every final path gains exactly the demand |
| Flow.EdgeFlows.constructor | ant_k_path.py:1324-1339 | The edge flows start as the given map |
| Flow.EdgeFlows.AddRoute | ant_k_path.py:1328-1331 | The in-place loop adds the amount along the route |
| Flow.EdgeFlows.AssignOd | ant_k_path.py:1324-1339 | The in-place update makes the flows SplitOd of the old flows |

## Left out

- Reading `map.txt` and all printing are I/O. The grid is a given sequence of token rows, and the finalisation returns the final list instead of printing it.
- `Sx` uses `math.exp`, and its value never reaches the flow computation.
- The probability distributions of the random draws are not modelled. An `Oracle` value supplies every draw, and the lemmas hold for every oracle.
- Floating-point rounding in the deposit (`PHEROMONE / total_route_len`), in evaporation (`1 - RHO`), in costs and in flows is not modelled: all are `real`.
- The outer loops over the OD pairs, `MAX_NC` iterations and `ANTS_NUM` ants are not modelled. The ledger takes the stream of reports one OD pair produces, and `Ant` models one ant's step.
- `pos_memory`, `total_food`, `ant_id`, the `Food`, `Nest` and `Pheromone` accessor classes, and the `get_`/`set_` extensions are not modelled: no decision reads them.
- The literal `O_D` and `ALL_TWO` tables are not modelled. The flow split takes the demand and the edge-flow map as parameters.
- The edge-time table is a parameter of the ant (`routeTime`), and the proofs require its times to be positive. `Network.STATIONS_ROUTE_TIME` holds the source's values.
- `Network.SearchRouteLine`: when no line holds both stations, or the two stations have the same index, the source indexes a line list with `None` and raises `TypeError`. The model returns -1, meaning no inertia pick, instead of that error. The case does not arise after a move along the time table: every edge joins two different stations of a common line (`Network.TableEdgeOnLine`), and for such stations the inertia target exists (`Network.InertiaAlongEdge`).
- `Grid.World.GetWorldMapSquares`: requires a non-empty map whose rows are all at least as wide as the first. The source raises `IndexError` on an empty map or a shorter row (ant_k_path.py:1191-1201).
- `Flow.Pk`, `Flow.SplitOd`, `Flow.EdgeFlows.AssignOd`: require the sum of the path costs to be non-zero when it is divided by. The source raises `ZeroDivisionError` then (ant_k_path.py:1339, 1348).
- Every station cell must lie strictly inside the grid border (`Grid.Bordered`). At the edge the source's `get_scope` would wrap around with index -1 or fail past the last row or column.
- Squares are identified by their grid position. The source compares `Square` objects by identity, and the world builds exactly one object per cell, so the two coincide.
- The ant's walking attributes (square, behaviour, previous direction, counter, the two visited lists and the route) are one `AntState` record that each step replaces. The scope list is recomputed from the position rather than stored.
- `Colony.Ant.ScanCandidates`, `FindFoodNestRule`, `MoveRule` and `AvoidObstacleRule` require only that the ant's view fits the grid, not the full leg invariant.
- `Colony.Ant.GoNextSquare` requires the ant to start from a square on the grid, as every ant the driver builds does.
