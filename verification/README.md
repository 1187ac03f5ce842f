# Rail wagon routing: network generators and the adaptive horizon solver

This project models, in Dafny, the core of a small rail-logistics toolkit.

- **`solve_adaptive.py`** loads a network and an origin-destination (OD) table of wagons. It re-indexes the stations densely and builds a time-expanded flow model for horizons T = 8, 9, ..., 49. The first horizon that CP-SAT solves wins, and its plan of shipments is read out.
- **`generate_network.py`** builds a random connected network: a random-attachment spanning tree plus sampled extra edges. It also builds a random OD table and checks connectivity by breadth-first search.
- **`generate_network_50.py`** builds a fixed 50-station network. It copies a 10-station base graph into 5 blocks, joins the blocks by 3 random links per block pair, and copies the base demand into every block with a block shift.

The modules are:

- `PyDict`: Python dict semantics as an insertion-ordered association list.
- `Sums`: finite sums.
- `Reindex`: loading and re-indexing.
- `FlowModel`: the CP-SAT model, stated as predicates over a solver answer.
- `AnswerCheck`: one checking method per constraint family.
- `Extraction`: reading the plan out of an answer.
- `HorizonSearch`: the search over horizons.
- `GenerateNetwork`, `GenerateOd` and `Connectivity`: `generate_network.py`.
- `GenerateNetwork50`: `generate_network_50.py`.

Loops of the source are methods. Each method is proved equal to a specification function, and the properties are lemmas about those functions.

Random draws become parameters. Each draw is required to lie in the range the corresponding `random` call could return. The solver and the clock also become parameters.

The mass-balance lemmas assume duplicate-free neighbour lists (`SimpleRows`). The reason: `outbound` sums a variable once per occurrence of `j` in `edges_idx[i]`, but `inbound` counts each `k` once. generate_network.py never repeats a neighbour. generate_network_50.py repeats one when two of the three draws for one block pair coincide (lines 66-67 and 78-79); `RepeatedPickRepeatsLink` and `LinkTwice` show it. Such a network lies outside these lemmas.

## Model

| member | source | states |
|---|---|---|
| `PyDict.Lookup` | solve_adaptive.py:36 | `d[k]` is defined exactly on the keys, and a value found is one stored under `k` |
| `PyDict.GetFrom` | solve_adaptive.py:86 | `d.get(k, default)` is the default or a value stored under `k` |
| `PyDict.Put` | solve_adaptive.py:36 | `d[k] = v`: the key set gains `k`, `k` reads `v`, every other key reads as before, keys stay distinct, and the table grows by one entry exactly when `k` is new |
| `PyDict.PutAll` | generate_network_50.py:19-30 | a dict display or a run of assignments keeps keys distinct |
| `PyDict.PutAllKeys` | generate_network_50.py:19-30 | the keys after a run of assignments are the old keys plus every assigned key |
| `PyDict.PutAllFresh` | generate_network_50.py:101 | when the old keys and the assigned keys are all distinct, the assignments only append, in order |
| `PyDict.PutAllAppend` | generate_network_50.py:101 | one more assignment is one more `Put` after the others |
| `Reindex.MinOf` | solve_adaptive.py:26 | the least station id is a station and below every other |
| `Reindex.SortedStations` | solve_adaptive.py:26 | `sorted(edges.keys())` is strictly increasing, with exactly the keys, one entry per key |
| `Reindex.StationToIdx` | solve_adaptive.py:28 | `station_to_idx` maps exactly the stations, each to its position in the sorted list |
| `Reindex.IdxToStation` | solve_adaptive.py:29 | the inverse table maps each index back to the station that has it, and has no other keys |
| `Reindex.IndexingIsBijection` | solve_adaptive.py:26-29 | the tables are mutually inverse between the stations and `0..N-1` |
| `Reindex.TablesAreInverse` | solve_adaptive.py:26-29 | indexing preserves the order of station ids, and `idx_to_station` has keys exactly `0..N-1` and maps `i` to the `i`-th sorted station |
| `Reindex.IngestOd` | solve_adaptive.py:32-36 | the loop builds exactly the table `KeptOd` describes |
| `Reindex.KeptOdSpec` | solve_adaptive.py:32-36 | a dense key is kept iff some entry with two known stations maps to it; it holds the count of the last such entry; keys are distinct |
| `Reindex.KeptOdInRange` | solve_adaptive.py:36 | every kept key is a pair of indices in `0..N-1` |
| `Reindex.AggregateDemand` | solve_adaptive.py:45-47 | `demand[d]` is the total count of entries bound for `d`, for every `d` |
| `Reindex.DemandSumsToTotal` | solve_adaptive.py:38-47 | the demands add up to `total_wagons` |
| `Reindex.DestTotalIsColumnSum` | solve_adaptive.py:45-47 | the demand of `d` is the column sum of the OD matrix |
| `Reindex.ReindexRow` | solve_adaptive.py:57 | the re-indexed row holds exactly the indices of the known neighbours and is no longer than the row |
| `Reindex.ReindexRowNoDuplicates` | solve_adaptive.py:57 | a duplicate-free row stays duplicate-free |
| `Reindex.ReindexEdges` | solve_adaptive.py:54-57 | row `i` of `edges_idx` is the re-indexed row of the `i`-th station, and every entry is an index in `0..N-1` |
| `Reindex.ReindexKeepsSymmetry` | solve_adaptive.py:54-57 | an undirected input gives an undirected `edges_idx` |
| `Reindex.ReindexKeepsLoopFree` | solve_adaptive.py:57 | a loop-free input gives a loop-free `edges_idx` |
| `Reindex.ReindexKeepsNoDuplicates` | solve_adaptive.py:57 | duplicate-free input rows give duplicate-free `edges_idx` rows |
| `Reindex.LoadInstance` | solve_adaptive.py:25-57 | the loaded instance has the indexing of the station keys, the kept OD table and re-indexed rows, and is well formed (demand is the per-destination total, indices in range) |
| `Reindex.LoadedWellFormed` | solve_adaptive.py:25-57 | the indexing of the keys, the kept table, in-range rows and per-destination demands with their total make a well-formed instance |
| `FlowModel.DeclaresIffDemand` | solve_adaptive.py:73 | the guard creating `x[(t, i, j, d)]` holds exactly when some origin ships to `d` |
| `FlowModel.DemandIsColumnSum` | solve_adaptive.py:45-47 | `demand[d]` is the column sum of the dense OD matrix |
| `FlowModel.OdAtNonNeg` | solve_adaptive.py:36 | non-negative counts give a non-negative OD matrix |
| `FlowModel.HasDemandIffPositive` | solve_adaptive.py:73 | with non-negative counts, variables for `d` exist exactly when `demand[d] > 0` |
| `FlowModel.ColumnPositive` | solve_adaptive.py:73 | a non-negative column has a positive entry iff its sum is positive |
| `FlowModel.DeclareX` | solve_adaptive.py:68-74 | the created `x` keys are exactly the days below `T`, the edges of `edges_idx` and the destinations with demand |
| `FlowModel.DeclareXFrom` | solve_adaptive.py:70-74 | the scan of station `i` adds exactly the keys of its edges on day `t`, so the declared set grows by station `i` |
| `FlowModel.DeclareXTo` | solve_adaptive.py:72-74 | the scan of the edge `(i, j)` adds exactly the destinations the demand guard admits |
| `FlowModel.DeclareW` | solve_adaptive.py:77-81 | the created `w` keys are exactly the days `0..T` and all station pairs |
| `FlowModel.ValuesNonNeg` | solve_adaptive.py:74-81 | in an answer within the variable domains no `x` or `w` value is negative |
| `FlowModel.NothingLeavesItsDestination` | solve_adaptive.py:107-110 | in a valid answer no wagon bound for `d` leaves `d` on any day |
| `FlowModel.ArrivalsAreDepartures` | solve_adaptive.py:92-93 | summed over all stations, what `inbound` counts on day `t` is what `outbound` sent on day `t - 1` |
| `FlowModel.StockStep` | solve_adaptive.py:89-94 | one day of balance keeps the wagons for `d` standing plus in transit unchanged |
| `FlowModel.MassBalance` | solve_adaptive.py:84-94 | on every day up to `T`, the wagons for `d` standing plus in transit equal `demand[d]` |
| `FlowModel.StockNeverExceedsDemand` | solve_adaptive.py:84-94 | no station ever holds more wagons for `d` than `demand[d]` |
| `FlowModel.DeparturesNonNeg` | solve_adaptive.py:93 | `outbound` and the day's total departures are never negative |
| `FlowModel.DeliveryComplete` | solve_adaptive.py:113-114 | at the horizon no wagon for `d` stands away from `d`, none is in transit, and nothing for `d` moves on the last day |
| `AnswerCheck.InRange` | solve_adaptive.py:74-81 | accepts iff every value lies in `0..hi` |
| `AnswerCheck.CheckDomains` | solve_adaptive.py:68-81 | accepts iff `x` and `w` have exactly the declared keys and values in their domains |
| `AnswerCheck.CheckInitial` | solve_adaptive.py:84-86 | accepts iff day-0 stock equals the OD matrix |
| `AnswerCheck.CheckBalanced` | solve_adaptive.py:89-94 | accepts iff every balance equation holds |
| `AnswerCheck.CheckBalancedDay` | solve_adaptive.py:89-94 | accepts iff the balance holds at every station and destination of day `t` |
| `AnswerCheck.CheckBalancedRow` | solve_adaptive.py:90-94 | accepts iff the balance holds for every destination at station `i` on day `t` |
| `AnswerCheck.CheckTrains` | solve_adaptive.py:97-104 | accepts iff every train carries 0 or 5 to 30 wagons |
| `AnswerCheck.CheckAbsorbing` | solve_adaptive.py:107-110 | accepts iff nothing bound for a station leaves it |
| `AnswerCheck.CheckDelivered` | solve_adaptive.py:113-114 | accepts iff every destination holds its demand at the horizon |
| `AnswerCheck.CheckAnswer` | solve_adaptive.py:68-114 | accepts iff the answer satisfies the whole model of horizon `T` |
| `Extraction.ExtractTrain` | solve_adaptive.py:130-137 | returns the records of one train, in destination order |
| `Extraction.ExtractDay` | solve_adaptive.py:128-137 | returns the records of one day, origins in index order, neighbours in row order |
| `Extraction.ExtractStation` | solve_adaptive.py:129-137 | returns the records of one origin, neighbours in row order |
| `Extraction.ExtractPlan` | solve_adaptive.py:126-137 | returns the whole plan, day by day |
| `Extraction.ForDestsMembers` | solve_adaptive.py:130-137 | a train's records are exactly the records of its positive variables |
| `Extraction.ForNeighboursMembers` | solve_adaptive.py:129-137 | the records of an origin are exactly those of its listed neighbours |
| `Extraction.ForStationsMembers` | solve_adaptive.py:128-137 | a day's records are exactly those of its origins |
| `Extraction.PlanMembers` | solve_adaptive.py:127-137 | a shipment is in the plan iff it records a positive variable of a day before `T`, with station ids translated back |
| `Extraction.PlanChronological` | solve_adaptive.py:127 | plan days lie in `0..T-1` and never decrease along the plan |
| `Extraction.DestKeysOrder` | solve_adaptive.py:130-137 | one train's records are those of its positive destinations, in increasing destination order |
| `Extraction.NeighbourKeysOrder` | solve_adaptive.py:129-137 | one origin's records follow the positions of `edges_idx[i]`, and destinations ascend within each position |
| `Extraction.StationKeysOrder` | solve_adaptive.py:128-137 | one day's records follow the origin indices, then the neighbour positions, then the destinations |
| `Extraction.PlanOrder` | solve_adaptive.py:127-137 | plan entry k is the record of a positive variable found at loop position k, and the positions strictly increase by day, then origin, then the neighbour's place in `edges_idx[i]`, then destination |
| `Extraction.PlanOnce` | solve_adaptive.py:127-137 | with duplicate-free neighbour lists no shipment appears twice, so with `PlanMembers` each positive variable is read out exactly once |
| `Extraction.LoadedIsDecodable` | solve_adaptive.py:29 | every index of a loaded instance translates back to a station |
| `Extraction.ValidPlanShipments` | solve_adaptive.py:97-110 | in the plan of a valid answer every shipment moves 1 to 30 wagons and none leaves its own destination |
| `HorizonSearch.Budget` | solve_adaptive.py:118 | the budget is at least one second, and is the time left unless that is at most one second |
| `HorizonSearch.Workers` | solve_adaptive.py:119 | the worker count is the smaller of `MAX_WORKERS` and 8 |
| `HorizonSearch.Search` | solve_adaptive.py:60-138 | the loop returns what the recursive search specification returns |
| `HorizonSearch.SearchFromSpec` | solve_adaptive.py:60-138 | a found horizon is the least one reached in time and solved, and its plan is read from that answer; if nothing is found, no horizon reached in time was solved |
| `HorizonSearch.BudgetWhenTried` | solve_adaptive.py:61-63 | whenever a horizon is tried, the budget is the time left and at least 5 seconds, so the floor of line 118 is never used |
| `HorizonSearch.FoundPlanDelivers` | solve_adaptive.py:124-137 | with a sound solver, a found plan comes from a valid answer: every wagon is at its destination at the horizon, and every shipment moves 1 to 30 wagons and does not leave its destination |
| `GenerateNetwork.TreeShape` | generate_network.py:32-40 | after attaching stations `1..v-1`, rows hold exactly the tree edges among them, without repeats, `v - 1` edges in all |
| `GenerateNetwork.BuildTree` | generate_network.py:32-40 | the attachment loop builds the tree of the drawn parents |
| `GenerateNetwork.AbsentFromSpec` | generate_network.py:50-54 | `all_possible` holds exactly the non-adjacent pairs `i < j` from the given pair on, in lexicographic order |
| `GenerateNetwork.ListAbsentRow` | generate_network.py:52-54 | one pass of the inner loop produces the pairs of row `i` |
| `GenerateNetwork.ListAbsent` | generate_network.py:50-54 | the loop builds exactly `all_possible` |
| `GenerateNetwork.AddPairsShape` | generate_network.py:58-60 | adding fresh pairs joins exactly those pairs both ways, keeps rows duplicate-free and adds two edge ends per pair |
| `GenerateNetwork.AddExtraEdges` | generate_network.py:58-60 | the loop adds the sampled pairs |
| `GenerateNetwork.Insert` | generate_network.py:63 | insertion adds exactly one element and keeps a sorted list sorted |
| `GenerateNetwork.SortInts` | generate_network.py:63 | `sorted` returns a non-decreasing permutation |
| `GenerateNetwork.SortIntsIncreasing` | generate_network.py:63 | a duplicate-free list sorts into a strictly increasing list of the same elements and length |
| `GenerateNetwork.SortRowsShape` | generate_network.py:63 | sorting rows makes them strictly increasing and keeps their members and the edge count |
| `GenerateNetwork.SortRowsUndirected` | generate_network.py:63 | sorting rows keeps the graph undirected |
| `GenerateNetwork.AsDictShape` | generate_network.py:63 | the returned dict has keys `0..n-1` and the rows, and stays undirected |
| `GenerateNetwork.GenerateConnectedGraph` | generate_network.py:22-63 | the function returns what the specification `Generated` describes |
| `GenerateNetwork.ExtraFresh` | generate_network.py:50-57 | sampled pairs are ordered, absent from the tree, and never repeated |
| `GenerateNetwork.NetworkShape` | generate_network.py:32-60 | rows hold exactly the tree and extra edges both ways, without repeats; there are `n - 1 + k` edges |
| `GenerateNetwork.NetworkSymmetric` | generate_network.py:32-60 | the graph is undirected and loop-free, and each station after 0 is joined to its earlier parent |
| `GenerateNetwork.SingleStationEdges` | generate_network.py:24-25 | the one-station network has no edge |
| `GenerateNetwork.SortedNetworkShape` | generate_network.py:22-63 | for `n >= 2` the result has keys `0..n-1`, strictly increasing rows, is undirected, keeps parents, and has `2(n - 1 + k)` edge ends |
| `GenerateNetwork.GeneratedShape` | generate_network.py:22-63 | fails iff `n_stations < 1`; one station gives `{0: []}`; otherwise it has the shape above |
| `GenerateOd.CandidatesUpToSpec` | generate_network.py:78 | candidates are, in increasing order, exactly the other stations that are keys |
| `GenerateOd.SampledDistinct` | generate_network.py:83 | a sample of distinct positions of a duplicate-free list is duplicate-free |
| `GenerateOd.PutOrigin` | generate_network.py:84-89 | the loop appends the entries of one origin |
| `GenerateOd.GenerateOdData` | generate_network.py:72-90 | the function returns what the specification `OdData` describes |
| `GenerateOd.DestsOfAppend` | generate_network.py:76-89 | an origin's destinations in two tables put together are those of the first then those of the second |
| `GenerateOd.DestsOfOrigin` | generate_network.py:83-89 | an origin's entries list its sampled destinations in sample order, and nothing for any other origin |
| `GenerateOd.OriginEntriesOk` | generate_network.py:84-89 | each entry goes to another station with a lot of 5, 10, 15 or 20, and keys are distinct |
| `GenerateOd.EntriesShape` | generate_network.py:76-89 | after the first `o` origins the entries are well formed and keyed apart, and each origin lists what it sampled |
| `GenerateOd.OdDataFails` | generate_network.py:82 | fails iff `max_dest_per_station < 1` and some station has a candidate |
| `GenerateOd.SentToShape` | generate_network.py:82-83 | an origin sends to distinct candidates, between 1 and `min(max_dest, candidates)` of them |
| `GenerateOd.OdDataShape` | generate_network.py:66-90 | on success keys are distinct, lots are 5 to 20, and every origin with candidates has 1 to `min(max_dest, candidates)` distinct destinations |
| `GenerateOd.FullCandidates` | generate_network.py:78 | on a dict keyed `0..n-1` every other station is a candidate |
| `GenerateOd.FullOdShape` | generate_network.py:66-90 | on any dict keyed `0..n-1` with `n >= 2` the OD table succeeds and every station sends to 1 to `min(max_dest, n - 1)` distinct other stations |
| `GenerateOd.NetworkOdShape` | generate_network.py:123-131 | on a generated network of at least 2 stations the OD table succeeds and every station sends to 1 to `min(max_dest, n - 1)` distinct other stations |
| `Connectivity.ReachStep` | generate_network.py:104-107 | a neighbour of a reachable station is reachable |
| `Connectivity.ClosedHoldsReachable` | generate_network.py:102-108 | a neighbour-closed set holding 0 holds every reachable station |
| `Connectivity.IsConnected` | generate_network.py:93-108 | returns true iff the dict is empty or as many stations are reachable from 0 as the dict has keys (the count test of line 108, which also counts neighbour ids that are not keys); the visit order has no repeats and is the reach set |
| `Connectivity.SearchComplete` | generate_network.py:102-108 | when the queue empties, the visited set is exactly the reachable set, and `len(visited) == n` decides connectivity |
| `Connectivity.VisitNeighbours` | generate_network.py:104-107 | scanning `u`'s neighbours marks and enqueues each new one, keeps the search state, and only appends to the queue |
| `Connectivity.DequeueFresh` | generate_network.py:103 | the station dequeued does not occur again in the queue |
| `Connectivity.StationReachable` | generate_network.py:32-40 | in a generated network every station is reachable by climbing to its parent |
| `Connectivity.TreeReachSet` | generate_network.py:32-40 | the reachable stations are exactly the keys |
| `Connectivity.TreeConnected` | generate_network.py:93-108 | a dict over `0..n-1` whose stations each link to a smaller parent is connected |
| `Connectivity.GeneratedIsConnected` | generate_network.py:126 | every generated network succeeds and is connected, so the assertion never fails |
| `GenerateNetwork50.WithoutSelfPairsSpec` | generate_network_50.py:31 | the filter keeps exactly the entries that are not self-pairs, in order, with distinct keys |
| `GenerateNetwork50.BaseOdItemsInRange` | generate_network_50.py:19-30 | every displayed key names two base stations |
| `GenerateNetwork50.FilteredDisplayOk` | generate_network_50.py:19-31 | filtering a dict display of base-station keys gives distinct keys, all base stations, no self-pair |
| `GenerateNetwork50.BaseOdIsOk` | generate_network_50.py:19-31 | the base demand has distinct keys, only base stations and no self-pair |
| `GenerateNetwork50.ShiftRowSpec` | generate_network_50.py:47-49 | a copied row holds `w` iff `w - offset` is a base neighbour below 10; with no neighbour at 10 or above, it is the base row shifted pointwise |
| `GenerateNetwork50.CopyRow` | generate_network_50.py:46-49 | the row of `offset + u` is reset and receives the shifted base row, other rows unchanged |
| `GenerateNetwork50.CopyBlock` | generate_network_50.py:44-49 | the loop copies the ten rows of block `b` |
| `GenerateNetwork50.BuildBlocks` | generate_network_50.py:42-49 | the loop builds all five block copies |
| `GenerateNetwork50.CopiedUpToSpec` | generate_network_50.py:45-49 | copying block `b` adds its stations with shifted rows and keeps the other rows |
| `GenerateNetwork50.BlocksSpec` | generate_network_50.py:42-49 | after `nb` blocks the keys are `0..10nb-1`, each with its base row moved into its block |
| `GenerateNetwork50.BaseEdgesOk` | generate_network_50.py:6-17 | the base graph has keys `0..9` and lists every edge both ways, with no self-loop |
| `GenerateNetwork50.BlockRowsShifted` | generate_network_50.py:43-49 | station `10b + u` gets the base row of `u` with each entry moved by `10b`; nothing is dropped |
| `GenerateNetwork50.StationOf` | generate_network_50.py:43-45 | every station of `0..49` is `10b + u` for one block and one base station |
| `GenerateNetwork50.BlocksUndirected` | generate_network_50.py:42-49 | the block copies list every edge both ways, with no self-loop |
| `GenerateNetwork50.LinkPair` | generate_network_50.py:60-80 | three rounds for one block pair: the links drawn are recorded, and the edges are the previous ones with those links added |
| `GenerateNetwork50.LinkFrom` | generate_network_50.py:59-80 | the rounds of block `b1` record the next links in loop order and add them to the edges, leaving exactly the rounds of the later blocks to do |
| `GenerateNetwork50.LinkRounds` | generate_network_50.py:57-80 | the outer loop records every link of the rounds from block `b0` on, in order, and adds each to the edges |
| `GenerateNetwork50.LinkedAll` | generate_network_50.py:53-80 | after the last round `inter_connections` is the link list of the draws and the edges are the blocks plus those links |
| `GenerateNetwork50.LinkBlocks` | generate_network_50.py:53-80 | `inter_connections` is the link list of the draws, and the edges are the blocks plus those links |
| `GenerateNetwork50.PairsFromShape` | generate_network_50.py:59-60 | the rounds for `b1` from `b2` on: three per later block, in order |
| `GenerateNetwork50.RoundsPairs` | generate_network_50.py:58-60 | each block pair `b1 < b2` gets exactly three rounds and no other pair gets any |
| `GenerateNetwork50.RoundsOrdered` | generate_network_50.py:58-59 | each round joins a block to a later one |
| `GenerateNetwork50.RoundsCount` | generate_network_50.py:58-60 | there are three rounds for each of the block pairs |
| `GenerateNetwork50.LinksShape` | generate_network_50.py:53-80 | there are 30 links; link `q` joins two distinct stations of `0..49` in the two blocks of round `q` |
| `GenerateNetwork50.LinkSpec` | generate_network_50.py:73-79 | one link adds its two ends as keys and joins them both ways, changing nothing else |
| `GenerateNetwork50.RepeatedPickRepeatsLink` | generate_network_50.py:66-70 | draws are with replacement: when the first two draws for the block pair (0, 1) coincide, the first two links are the same pair of stations |
| `GenerateNetwork50.LinkTwice` | generate_network_50.py:78-79 | the same link added twice lists each end twice in the other's row, because the appends do not check for an existing neighbour |
| `GenerateNetwork50.AddLinksSpec` | generate_network_50.py:58-80 | after all links the keys are the old ones plus the ends, and `j` neighbours `i` iff it did before or a link joins them |
| `GenerateNetwork50.EndsPresent` | generate_network_50.py:73-76 | when every end is a station, the ends add no key |
| `GenerateNetwork50.LinksKeepStations` | generate_network_50.py:73-76 | the guards of lines 73-76 never add a station |
| `GenerateNetwork50.LinksUndirected` | generate_network_50.py:78-79 | links between distinct present stations keep the graph undirected |
| `GenerateNetwork50.ShiftBlockOd` | generate_network_50.py:92-101 | the inner loop over `base_od` assigns, in order, exactly the shifted entries of one block that are not skipped |
| `GenerateNetwork50.AssignAllBlock` | generate_network_50.py:92-101 | assigning base entries one at a time, skipping as lines 94-99 do, equals assigning the block's shifted entries in order |
| `GenerateNetwork50.BuildOd` | generate_network_50.py:85-101 | the loop computes each block's source and destination offsets and builds the demand of all five blocks |
| `GenerateNetwork50.BlockOdSpec` | generate_network_50.py:92-101 | a block receives exactly the base entries of base stations whose shifted stations exist, moved by the offsets with counts unchanged; distinct base keys stay distinct |
| `GenerateNetwork50.BlockOdFull` | generate_network_50.py:94-100 | with base stations only and all 50 stations present, nothing is skipped |
| `GenerateNetwork50.ShiftedTracesBack` | generate_network_50.py:89-101 | each shifted copy traces back to its base entry and its destination lies in the shifted block |
| `GenerateNetwork50.ShiftedKeys` | generate_network_50.py:96-101 | a block's copy has distinct keys, all with origins in block `b` |
| `GenerateNetwork50.OdUpToShifted` | generate_network_50.py:85-101 | the first `nb` blocks give exactly the concatenated shifted copies, with distinct keys and origins below block `nb` |
| `GenerateNetwork50.ShiftedUpToLength` | generate_network_50.py:88-101 | each block contributes one entry per base entry |
| `GenerateNetwork50.ShiftedUpToTraces` | generate_network_50.py:88-101 | every copied entry traces back to the base entry it copies |
| `GenerateNetwork50.ShiftedUpToComplete` | generate_network_50.py:88-101 | every block receives the copy of every base entry |
| `GenerateNetwork50.AppendBlock` | generate_network_50.py:88-101 | a later block never reuses a key of the earlier blocks |
| `GenerateNetwork50.BuildNetwork50` | generate_network_50.py:6-101 | the script's edges, links and demand are those of the specification functions for the drawn picks |
| `GenerateNetwork50.LinkedBlocksShape` | generate_network_50.py:42-80 | blocks of a valid base graph plus such links have keys `0..49`, are undirected, and join every link both ways |
| `GenerateNetwork50.Network50Stations` | generate_network_50.py:38-80 | the network has exactly the `TOTAL_STATIONS` stations `0..49` |
| `GenerateNetwork50.Network50Undirected` | generate_network_50.py:42-80 | every edge is listed both ways, no station neighbours itself, and every link joins its ends both ways |
| `GenerateNetwork50.Network50Demand` | generate_network_50.py:85-101 | the demand is the base demand copied into the 5 blocks: `5 × |base_od|` entries, distinct keys, between network stations, each tracing back to its base entry, and every copy present |

## Left out

- CP-SAT (solve_adaptive.py:5, 65, 117-122) is a solver oracle. `solve(T, budget, workers)` is a parameter returning a status and the values of `x` and `w`. The model does not build the `CpModel`; the constraints are predicates over an answer. The `sent` Boolean of lines 101-103 becomes "0 or at least 5".
- Solver parameter `log_search_progress` (line 120) is left out; it has no effect on the answer.
- `time.time()` (solve_adaptive.py:51, 61, 143) is a parameter: `clock(T)` is the elapsed time before horizon `T` is tried.
- File loading, JSON parsing, string keys `"o,d"`, `print` and `sys.exit` are left out, because they are I/O:
  - solve_adaptive.py:17-22, 34, 39-40, 143-149;
  - generate_network.py:114-153;
  - generate_network_50.py:39, 82, 104-117.
  Input arrives as an integer dict and a list of OD entries.
- `random.seed`, `random.choice`, `random.sample` and `random.randint` are left out: the Mersenne Twister is not modelled. Each draw is a parameter constrained to the range the call could return. The same holds for `random.seed(42)` in generate_network_50.py:52.
- `extra_edges_ratio` is a float, and `round` applies to it (generate_network.py:44-45). The model takes the rounded integer `requested` as a parameter, so floating point is not modelled.
- `total_wagons` at generate_network_50.py:103 is only printed, so it is not modelled.
- The guard `if not u_candidates or not v_candidates: continue` at generate_network_50.py:64-65 is not modelled. The candidate lists always hold 10 stations, so the guard never fires.
- `all_nodes` at generate_network_50.py:56 is never read, so it is not modelled.
- Key order of the `edges` dict of generate_network_50.py is not modelled: those edges are a `map`. In the script the insertion order is 0..49: the block loop inserts the keys in that order, and by `LinksKeepStations` the guards of lines 73-76 add none. Only the neighbour lists are ordered in the model. The OD tables are ordered lists.
- `idx_to_station` lookups in the plan read-out assume every index decodes. `LoadedIsDecodable` proves that this holds for every loaded instance.
- `FlowModel.MassBalance`, `FlowModel.StockStep`, `FlowModel.StockNeverExceedsDemand`, `FlowModel.DeliveryComplete`, `HorizonSearch.FoundPlanDelivers` and `Extraction.PlanOnce` require duplicate-free neighbour lists (`SimpleRows`). With repeats, lines 92-93 count a repeated edge once inbound but once per occurrence outbound. With repeats, the read-out loop of line 129 also visits the repeated neighbour twice, so the plan really does list that train's shipments twice. generate_network_50.py produces such a network whenever two draws for one block pair coincide (`RepeatedPickRepeatsLink`, `LinkTwice`). The lemmas say nothing about that network. No lemma states the converse, that pairwise distinct draws give duplicate-free rows, for generate_network_50.py.
