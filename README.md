# Transit catalogue, routing graph and JSON builder, in Dafny

This project models three parts of a C++ transit-guide program and proves
properties about them:

- **The transport catalogue** (`transport_catalogue.cpp/.h`, `domain.h`).
  It stores stops and bus lines and indexes them by name. It keeps a
  directed table of road distances between stops and, for each stop, the
  name-ordered set of lines calling there. It computes each line's
  statistics: stop count, unique-stop count and road length.
- **The routing graph** (`transport_router.cpp/.h`). Each stop, in name
  order, gets an "in" vertex `2k` and an "out" vertex `2k+1`, joined by a
  wait edge. Each line, in name order, gets one ride edge for every pair of
  positions `from < to`. A line that is not a roundtrip also gets the
  backward edge. `FindOptimalRoute` maps the route that the shortest-path
  engine returns back to the stored edge metadata.
- **The JSON builder** (`json_builder.cpp/.h`). This is the fluent
  `json::Builder`: a root node, an optional pending dictionary key and a
  stack of open nodes. It throws `logic_error` on calls that are not
  allowed. Its typed context classes narrow which calls may follow which.

Files:

- `wrappers.dfy`: `Option` and `Result`, standing for null pointers and
  exceptions.
- `name_order.dfy`: the lexicographic `std::string` order, taken over the
  characters of a name, and `std::set` insertion into a name-ordered set.
  `std::string` compares unsigned bytes. This agrees with comparing
  characters when the names are the code points decoded from UTF-8 text.
- `domain.dfy`: the records and the two comparators.
- `catalogue.dfy`: the catalogue as a class over sequences and maps, with
  specification functions for statistics, sorted sets and indexes.
- `router.dfy`: the graph as specification functions (`GraphEdges`), and
  the `TransportRouter` class whose construction is proved to lay down
  exactly that graph.
- `json_builder.dfy`: the builder's transitions as functions on a state
  value, the `Builder` class proved against them, and the context tags.

Modelling choices:

- Stops and lines live in `forward_list`s and are referred to by pointer.
  Here they are stored in append-only sequences and referred to by their
  position (`StopId`, `BusId`).
  - Adding a name a second time keeps the old record and points the name at
    the new one, as the source's `stopname_to_stop_[...] = ...` does.
  - `GetStopsSortedByName`/`GetBusesSortedByName` walk from the newest
    record, as iterating a `push_front` list does. `std::set::insert`
    keeps the first record of a name it sees, so the newest record of each
    name wins.
- The distance table is a `map<(StopId, StopId), int>` keyed by the
  ordered pair.
- Graph weights are exact `real`s. `FROM_KM_H_TO_M_MIN` is `100/6`.
- The JSON document is a `Json` value, and every pointer on the builder's
  stack is the path from the root to the node it points at.

Two behaviours that could look like defects are kept as written:

- A backward ride edge weighs the reverse distance but records the forward
  time in its `BusEdgeInfo` (`Router.BackwardRideMeaning`).
- The builder uses `emplace`, so a key the open dictionary already holds
  keeps its entry. A `Value` under such a key keeps the first value
  (`JsonBuilder.RepeatedKeyKeepsFirstValue`). A `StartDict` or `StartArray`
  under it reopens the existing entry, and later calls add to that entry
  (`JsonBuilder.RepeatedKeyReopensCollection`).

## Model

| member | source | states |
|---|---|---|
| NameOrder.LessIrreflexive | domain.h:40-44 | no name is before itself in the string order the comparators use |
| NameOrder.LessTransitive | domain.h:40-44 | the name order is transitive |
| NameOrder.LessTotal | domain.h:54-58 | of two different names one is before the other |
| NameOrder.LessAsymmetric | domain.h:54-58 | a name before another is never after it |
| NameOrder.Insert | transport_catalogue.cpp:23 | `std::set::insert` into a name-ordered set keeps it ordered and adds nothing but the new record |
| NameOrder.InsertPresent | transport_catalogue.cpp:23 | inserting a record whose name the set already holds leaves the set unchanged |
| NameOrder.InsertAbsent | transport_catalogue.cpp:23 | inserting a new name adds exactly that record, growing the set by one |
| NameOrder.InsertMembers | transport_catalogue.cpp:23 | both cases of insertion: unchanged when the name is present, exactly one more record otherwise |
| NameOrder.InsertHasName | transport_catalogue.cpp:23 | after insertion the set holds the inserted name |
| NameOrder.InsertKeepsNames | transport_catalogue.cpp:23 | insertion keeps every name already in the set |
| NameOrder.SortedNamesDistinct | transport_catalogue.h:54-57 | a name-ordered set holds at most one record per name |
| Domain.BusComparatorIsStrictOrder | domain.h:40-44 | `BusComparator` is irreflexive and transitive, and two lines are equivalent under it exactly when their names are equal |
| Domain.StopComparatorIsStrictOrder | domain.h:54-58 | `StopComparator` is irreflexive and transitive, and two stops are equivalent under it exactly when their names are equal |
| Catalogue.DistanceBetweenStops | transport_catalogue.cpp:59-65 | the `(from,to)` entry if stored, else the `(to,from)` entry if stored, else 0 |
| Catalogue.DistanceFallback | transport_catalogue.cpp:59-65 | the lookup gives the `(a,b)` entry if present, otherwise the `(b,a)` entry, otherwise 0; it is symmetric unless both directions are stored |
| Catalogue.DistanceAfterSet | transport_catalogue.cpp:55-57 | after storing `(a,b)`, the lookup of `(a,b)` gives the new value, `(b,a)` gives it too when no own entry exists, and pairs not involving `(a,b)` are unchanged; a `(b,a)` entry of its own stays in force |
| Catalogue.OneWayDistanceExample | transport_catalogue.h:49-53 | a distance stored one way is found both ways; when `(A,B)` and `(B,A)` are both stored, each direction gives its own value |
| Catalogue.Reverse | transport_catalogue.cpp:46-51 | the backward traversal has the line's length and visits position `n-1-i` at step `i` |
| Catalogue.ReverseEnds | transport_catalogue.cpp:46-51 | the backward traversal starts at the last stop and ends at the first |
| Catalogue.ReverseElements | transport_catalogue.cpp:46-51 | the backward traversal visits the same stops |
| Catalogue.ElementsBound | transport_catalogue.cpp:37-45 | a line has no more distinct stops than stops |
| Catalogue.PrefixStep | transport_catalogue.cpp:40-44 | one step of the forward loop adds one stop to the unique set and one hop to the length |
| Catalogue.PathLengthGlue | transport_catalogue.cpp:40-51 | the length of a traversal joined at a shared stop is the sum of both lengths |
| Catalogue.ReturnLengthIsReversedPath | transport_catalogue.cpp:46-51 | the backward loop sums exactly the hops of the reversed stop list |
| Catalogue.BusStatisticsFollowTraversal | transport_catalogue.cpp:32-53 | stop count, unique-stop count and route length are those of the full traversal (the stops, then back again unless roundtrip), with 1 <= unique <= stops |
| Catalogue.CircularLineExample | transport_catalogue.cpp:32-53 | a circular line listed as [A,B,C,A] counts 4 stops, 3 unique, and sums its three hops |
| Catalogue.StopsSortedFrom | transport_catalogue.cpp:88-94 | the stop set built from the newest record is name-ordered |
| Catalogue.BusesSortedFrom | transport_catalogue.cpp:78-86 | the line set built from the newest record is name-ordered |
| Catalogue.IndexedStopsSorted | transport_catalogue.cpp:88-94 | under the name index invariant, every entry of the stop set is a stored stop with that name, the index maps its name to it, and every indexed name is present |
| Catalogue.BusesSortedInsertStep | transport_catalogue.cpp:78-86 | one insertion step of the line walk keeps: entries are stored lines with stops, newest of their name, and every line with stops from this point on is named |
| Catalogue.StopsSortedFromSpec | transport_catalogue.cpp:88-94 | every entry of the stop set is a stored stop, the newest of its name, and every stored name has an entry |
| Catalogue.BusesSortedFromSpec | transport_catalogue.cpp:78-86 | every entry of the line set is a stored line with stops, the newest of its name, and every line with stops has its name in the set |
| Catalogue.NameNotYetSorted | transport_catalogue.cpp:88-94 | with unique names, a stop's name is not yet in the set built from the newer records |
| Catalogue.UniqueNamesSortedCount | transport_catalogue.cpp:88-94 | with unique names, the name-ordered stop set has one entry per stop |
| Catalogue.UniqueNamesSortedStops | transport_catalogue.cpp:88-94 | with unique names, every stored stop is in the name-ordered set |
| Catalogue.BusNamesIndexedAfterAdd | transport_catalogue.cpp:19-21 | adding a line keeps the line-name index pointing at the newest record of each name |
| Catalogue.InsertStepCurrent | transport_catalogue.cpp:22-24 | an earlier visit of the same stop in the add loop already inserted the line, so repeating the insert changes nothing |
| Catalogue.InsertStepDone | transport_catalogue.cpp:22-24 | after one step of the add loop, every stop visited so far holds the line |
| Catalogue.InsertStepRest | transport_catalogue.cpp:22-24 | one step of the add loop keeps every set ordered and leaves stops not yet visited unchanged |
| Catalogue.InsertStep | transport_catalogue.cpp:22-24 | one step of the add loop preserves the loop invariant |
| Catalogue.AddBusKeepsSorted | transport_catalogue.h:54-57 | adding a line keeps every stop's line set name-ordered |
| Catalogue.AddBusKeepsMembers | transport_catalogue.cpp:19-25 | after adding a line, every entry of a stop's set is a stored line calling at that stop |
| Catalogue.AddBusKeepsCoverage | transport_catalogue.cpp:19-25 | after adding a line, every stored line's name is in the set of every stop it calls at |
| Catalogue.AddBusKeepsIndex | transport_catalogue.cpp:19-25 | adding a line preserves the stop-to-lines index invariant (sorted by name, only callers, every caller's name present, oldest of a name kept) |
| Catalogue.AddBusKeepsOldest | transport_catalogue.cpp:22-24 | inserting into a name-ordered set keeps the entry already there, so each stop's entry for a name is the oldest line of that name calling there |
| Catalogue.InsertedIsOldOrNew | transport_catalogue.cpp:22-24 | a member of the set after an insert was there before, or is the new line and its name was absent |
| Catalogue.BusStatistics | transport_catalogue.cpp:32-53 | 1 <= unique stops <= listed stops <= stops visited; a roundtrip visits exactly its listed stops and its length is the forward path length |
| Catalogue.TransportCatalogue.constructor | transport_catalogue.h:44-58 | a new catalogue is empty and valid |
| Catalogue.TransportCatalogue.AddStop | transport_catalogue.cpp:9-12 | the stop is stored and its name now finds it (the newest record of that name); nothing else changes |
| Catalogue.TransportCatalogue.FindStop | transport_catalogue.cpp:14-17 | gives the newest stored stop of that name, or none exactly when no stop has that name |
| Catalogue.TransportCatalogue.FindBus | transport_catalogue.cpp:27-30 | gives the newest stored line of that name, or none exactly when no line has that name |
| Catalogue.TransportCatalogue.AddBus | transport_catalogue.cpp:19-25 | the line is stored, its name finds it, it is inserted into the set of each stop it calls at, and every other stop's set is unchanged |
| Catalogue.TransportCatalogue.InsertAtStops | transport_catalogue.cpp:22-24 | each listed stop's set gains the line by set insertion, and no other stop's set changes |
| Catalogue.TransportCatalogue.SetDistanceBetweenStops | transport_catalogue.cpp:55-57 | only the `(from,to)` entry is overwritten, and looking it up gives the new distance |
| Catalogue.TransportCatalogue.GetBusInfo | transport_catalogue.cpp:32-53 | a null line is an error; otherwise the result is the line's statistics |
| Catalogue.TransportCatalogue.ForwardPass | transport_catalogue.cpp:37-45 | the forward loop collects exactly the line's stops and sums its forward hops |
| Catalogue.TransportCatalogue.ReturnPass | transport_catalogue.cpp:46-51 | the backward loop sums the hops from the last stop back to the first |
| Catalogue.TransportCatalogue.GetStopToBuses | transport_catalogue.cpp:67-76 | a null stop is an error; otherwise the name-ordered set of exactly the lines calling there, empty exactly when no line calls there; of several lines sharing a name, the set holds the oldest |
| Catalogue.TransportCatalogue.GetBusesSortedByName | transport_catalogue.cpp:78-86 | the name-ordered set of lines with at least one stop, holding every such name |
| Catalogue.TransportCatalogue.GetStopsSortedByName | transport_catalogue.cpp:88-94 | the name-ordered set of stops, each entry the one its name indexes, holding every stored name |
| Router.MinutesExample | transport_router.h:57 | a speed in km/h converts to metres per minute by the factor 100/6 |
| Router.MinutesMonotone | transport_router.cpp:55 | ride time grows with distance, is non-negative for a non-negative distance, and equal times mean equal distances |
| Router.StopVertexMapDomain | transport_router.cpp:13-14 | exactly the stops of the name-ordered set get vertices, and their ids are even/odd pairs below twice the count |
| Router.StopVertexRank | transport_router.cpp:10-14 | the stop of rank k gets `in = 2k` and `out = 2k+1` |
| Router.SortedStopIdsDistinct | transport_catalogue.cpp:88-94 | the name-ordered stop set names each stored stop at most once |
| Router.WaitEdgeAt | transport_router.cpp:15-23 | there is one wait edge per stop, the k-th goes `2k -> 2k+1`, and both its weight and its recorded time are the wait time |
| Router.EdgesFromStopCount | transport_router.cpp:38-73 | the inner loop adds one edge per later position, or two for a non-roundtrip line |
| Router.EdgesOfBusCountUpTo | transport_router.cpp:36-73 | the edges of the first u outer rounds, counted in closed form |
| Router.EdgesOfBusCount | transport_router.cpp:36-73 | a line with n stops gets n(n-1)/2 ride edges, or n(n-1) when it is not a roundtrip |
| Router.EdgesFromStopMembers | transport_router.cpp:38-73 | an edge is added for a fixed `from` exactly when it is the forward ride, or (non-roundtrip) the backward ride, to a later position |
| Router.EdgesOfBusMembers | transport_router.cpp:36-73 | an edge of a line is exactly a forward ride for some `from < to`, or a backward one when the line is not a roundtrip |
| Router.ForwardRideMeaning | transport_router.cpp:52-61 | the ride `out(stops[from]) -> in(stops[to])` has span `to - from`, and weight and recorded time both equal the time over the stretch's forward road length |
| Router.BackwardRideMeaning | transport_router.cpp:62-72 | the backward ride `out(stops[to]) -> in(stops[from])` weighs the time over the reversed stretch while its recorded time is the forward ride's; they agree exactly when both directions are equally long |
| Router.SpanIsPathLength | transport_router.cpp:42-46 | the summed forward distance is the road length of the stretch `stops[from..to]` |
| Router.ReversedPathStep | transport_router.cpp:47-50 | prepending a stop to a reversed stretch adds the road distance from that stop to the stretch's last stop |
| Router.ReverseSpanIsReversedPath | transport_router.cpp:47-50 | the summed reverse distance is the road length of the reversed stretch |
| Router.WholeLineMatchesRouteLength | transport_router.cpp:42-51 | the ride over the whole line sums the same hops as the catalogue's forward route length |
| Router.EveryStopHasVertexes | transport_router.h:42-45 | with unique names every stored stop gets vertices |
| Router.CoveredLinesServed | transport_router.cpp:30-39 | when every stored stop has vertices, every line in the name-ordered set can be laid down |
| Router.ServesAllLines | transport_router.h:42-46 | a catalogue with unique names and lines over stored stops gives a graph where every line can be laid down |
| Router.LinesEdgesAreRides | transport_router.cpp:33-76 | every edge added for the lines is a ride of span at least 1 from an out vertex to an in vertex, non-negative when distances are |
| Router.SpanLengthNonNegative | transport_router.cpp:40-51 | summed distances are non-negative when every stored distance is |
| Router.WaitEdgesShape | transport_router.cpp:13-24 | every wait edge goes from an even vertex to the next one and weighs the wait time |
| Router.GraphShape | transport_router.h:42-46 | the i-th edge is the wait edge of the i-th stop while i is below the stop count, and a ride from an odd to an even vertex after; all endpoints are below twice the stop count |
| Router.RideEndpoints | transport_router.cpp:52-72 | every ride edge has span at least 1, leaves an odd out vertex and enters an even in vertex below twice the stop count, and weighs no less than zero when distances are non-negative |
| Router.GraphWaitEdge | transport_router.cpp:13-24 | the i-th edge, for i below the stop count, is `2i -> 2i+1` weighing the wait time, recorded as the wait at the stop of rank i, which owns vertices `2i, 2i+1` |
| Router.GraphRideEdge | transport_router.cpp:33-76 | every edge after the wait edges is a ride from an odd to an even vertex within the graph, of span at least 1 |
| Router.GraphSplit | transport_router.h:45-46 | the graph is all wait edges followed by all ride edges, one wait edge per stop |
| Router.GraphInRange | transport_router.h:42-43 | every edge joins vertices of a graph of `2 * stops` vertices |
| Router.PairCountFormula | transport_router.cpp:36-39 | the number of pairs `from < to` among n positions is n(n-1)/2 |
| Router.LineEdgesCount | transport_router.cpp:36-73 | the edges built for one line number one per ordered pair of positions `i < j` for a roundtrip and two otherwise |
| Router.RidesFromSplit | transport_router.cpp:36-73 | a ride starting before stop `k+1` starts before stop `k` or at stop `k` |
| Router.LinesEdgesCount | transport_router.cpp:33-76 | the ride edges number the sum, over the lines, of each line's edge count |
| Router.GraphEdgeCount | transport_router.h:45-46 | the graph has one edge per stop plus each line's ride edges |
| Router.EdgeTableInRange | transport_router.h:65-68 | an edge list that matches the specification has metadata for exactly its ids, and its edges stay in range |
| Router.EdgeTableAppend | transport_router.cpp:15-23 | appending an edge and recording its metadata under the new id extends the table by one tagged edge |
| Router.CatalogueBuildable | transport_router.h:42 | a valid catalogue with unique stop names has one sorted entry per stop and lines over stored stops |
| Router.ConstructedGraph | transport_router.h:42-46 | the wait edges then the ride edges laid down are the graph, with ids `0..n-1` and endpoints below twice the stop count |
| Router.TransportRouter.constructor | transport_router.h:39-49 | the graph has `2 * |sorted stops|` vertices, the stop of rank k owns `2k, 2k+1`, and the edge list and its metadata are exactly the specified graph |
| Router.TransportRouter.AddEdge | transport_router.cpp:15 | an added edge gets the next sequential id |
| Router.TransportRouter.AddStopsToGraph | transport_router.cpp:7-25 | lays down each stop's vertices and wait edge in name order |
| Router.TransportRouter.AddBusesToGraph | transport_router.cpp:27-77 | appends the ride edges of every line with stops, in name order |
| Router.TransportRouter.AddLinesEdges | transport_router.cpp:33-76 | the loop over the name-ordered lines appends each line's edges in turn |
| Router.TransportRouter.AddBusEdges | transport_router.cpp:36-75 | the loop over `from` appends the edges of one line |
| Router.TransportRouter.AddEdgesFromStop | transport_router.cpp:38-74 | the loop over `to` appends the edges from one position |
| Router.TransportRouter.AddPairEdges | transport_router.cpp:52-73 | appends the forward ride and, unless roundtrip, the backward ride of one pair |
| Router.TransportRouter.SpanDistances | transport_router.cpp:40-51 | the innermost loop sums the forward and reverse hops of the stretch |
| Router.TransportRouter.FindOptimalRoute | transport_router.cpp:79-96 | queries `in(from) -> in(to)`; none when the engine has none, otherwise the engine's edges mapped in order to their metadata with the engine's weight unchanged |
| JsonBuilder.Replace | json_builder.cpp:40 | writing through the pointer at a path puts the value at that path |
| JsonBuilder.NodeAtAppend | json_builder.cpp:30 | the pointer to a child is the child's path: following `p + q` is following `p` then `q` |
| JsonBuilder.PrefixLeadsSomewhere | json_builder.h:72 | every ancestor of an open node exists |
| JsonBuilder.ReplaceElsewhere | json_builder.cpp:28-40 | writing through one pointer changes no node outside that node's line of ancestors and descendants |
| JsonBuilder.OpenNodesAreAncestors | json_builder.h:72 | every open node below the top is a dictionary or array containing the next one |
| JsonBuilder.PushKeepsWf | json_builder.cpp:29-37 | opening a child of the top node keeps the stack a chain of open nodes |
| JsonBuilder.PopKeepsWf | json_builder.cpp:60-61 | closing the top node keeps the stack a chain of open nodes |
| JsonBuilder.Fresh | json_builder.cpp:5-7 | a new builder has a null root, no key, and only the root open |
| JsonBuilder.KeyStep | json_builder.cpp:9-17 | `Key` succeeds exactly when the top node is a dictionary and no key is pending, and then only the key changes; otherwise it throws |
| JsonBuilder.StartCollectionOrValueStep | json_builder.cpp:19-45 | succeeds exactly on a dictionary top with a pending key, an array top or a null top; puts the value under the key without overwriting an existing entry and clears the key, appends it to an array, or replaces the null; a start opens the entry written; otherwise throws |
| JsonBuilder.StartTouchesOnlyTop | json_builder.cpp:19-45 | a value or a start changes no node outside the top node's line |
| JsonBuilder.EndCollectionStep | json_builder.cpp:59-66 | succeeds exactly when the top node has the requested kind, and then closes it and nothing else; otherwise throws |
| JsonBuilder.BuildStep | json_builder.cpp:76-81 | returns the root exactly when it is not null and at most one node is open; otherwise throws |
| JsonBuilder.Apply | json_builder.cpp:47-74 | every transition keeps the stack a chain of open nodes |
| JsonBuilder.ContextCallsSucceed | json_builder.h:30-55 | in the dict, key and array contexts every declared member succeeds and leads to the state of the context it returns, given a new key per dictionary |
| JsonBuilder.FreshBuilderStarts | json_builder.cpp:5-57 | a new builder rejects `Key` and `Build`; `StartDict`/`StartArray` open the root in the dict/array context; a value becomes the whole document |
| JsonBuilder.BuildWithRootOpenOrClosed | json_builder.cpp:76-81 | `Build` returns the root both while the root dictionary is still open and after it is closed (which empties the stack) |
| JsonBuilder.BuildExample | json_builder.cpp:9-81 | a nested document built through the contexts comes out as written |
| JsonBuilder.RepeatedKeyKeepsFirstValue | json_builder.cpp:28 | a `Value` under a key given twice in one dictionary is accepted, and the first value stays |
| JsonBuilder.RepeatedKeyReopensCollection | json_builder.cpp:19-45 | a `StartDict` under a key given twice reopens the existing dictionary, and the next key lands beside its old entries |
| JsonBuilder.Builder.constructor | json_builder.cpp:5-7 | a new builder is in the fresh state |
| JsonBuilder.Builder.Key | json_builder.cpp:9-17 | performs `KeyStep`, leaving the builder unchanged when it throws |
| JsonBuilder.Builder.StartCollectionOrValue | json_builder.cpp:19-45 | performs `StartCollectionOrValueStep` in place, leaving the builder unchanged when it throws |
| JsonBuilder.Builder.StartDict | json_builder.cpp:47-49 | starts an empty dictionary and opens it |
| JsonBuilder.Builder.StartArray | json_builder.cpp:51-53 | starts an empty array and opens it |
| JsonBuilder.Builder.Value | json_builder.cpp:55-57 | puts a value without opening it |
| JsonBuilder.Builder.EndCollection | json_builder.cpp:59-66 | performs `EndCollectionStep` in place |
| JsonBuilder.Builder.EndDict | json_builder.cpp:68-70 | closes a dictionary top, otherwise throws |
| JsonBuilder.Builder.EndArray | json_builder.cpp:72-74 | closes an array top, otherwise throws |
| JsonBuilder.Builder.Build | json_builder.cpp:76-81 | gives `BuildStep` of the current state |

## Left out

- Curvature and geographic distance (`geo::ComputeDistance`, the
  `curvature` field of `BusInfo`). This is floating-point great-circle
  math from a header that is not part of this model.
- The shortest-path engine (`graph::Router`) and `DirectedWeightedGraph`
  are not part of this model.
  - The graph is an append-only edge list whose `AddEdge` returns
    sequential ids.
  - `BuildRoute` is a function parameter of `FindOptimalRoute`.
- Router.TransportRouter.FindOptimalRoute: assumes the engine returns only
  ids of edges in the graph, because the engine is not modelled. The
  source's `edge_id_to_edge_info_.at` would throw otherwise. It also
  requires both stops to have vertices; a null or unknown stop makes `.at`
  throw in the source.
- Router.TransportRouter.constructor: requires unique stop names. With a
  repeated name, only the newest record of that name gets vertices, and a
  line calling at an older record would make `.at` throw.
- Router.TransportRouter.constructor: requires `bus_velocity > 0`. The
  default settings have velocity 0, which divides by zero.
- Catalogue.TransportCatalogue.AddBus: requires every stop to be a stored
  stop, and a `StopId` cannot be null. The source also accepts a line with a
  null stop: the reader pushes `FindStop`'s result for an unknown name
  unchecked, and the catalogue then files the line under `nullptr` in
  `stop_to_buses_`. An unknown stop name is a caller error that the source
  does not survive. `GetBusInfo`'s geographic code dereferences the null
  stop, and the router's `stop_to_vertexes_.at` throws on it. The model
  does not capture the `nullptr` entry of the stop-to-lines index.
- Catalogue.TransportCatalogue.SetDistanceBetweenStops: takes stop handles,
  which cannot be null. The source also stores a distance keyed by a null
  stop when a `road_distances` entry names an unknown stop. No lookup of a
  real stop pair can reach that entry.
- Catalogue.TransportCatalogue.GetBusInfo: requires a line with at least
  one stop. For an empty line, `stops.size() - 1` wraps around and the loop
  reads out of bounds.
- The JSON builder methods require at least one open node. Once the root
  container has been closed, `nodes_stack_.top()` on the empty stack is
  undefined behaviour.
- Pointer identity, `forward_list` address stability and
  `StopToStopHasher`. Records are positions in sequences, and the hash
  affects only performance.
- Integer widths: distances, lengths and counts are unbounded integers;
  `int`/`size_t` overflow is not modelled.
- `json.h` is not part of this model. `Json` is a minimal node type with
  null, bool, int, real, string, array and dict.
- The JSON reader, map renderer, SVG output, request handler and `main`
  are input/output wiring, outside the modelled core.
