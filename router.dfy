/**
 * The transport router: the time-weighted directed graph built from a
 * finished catalogue, the table from edge ids to the transit meaning of each
 * edge, and the stop-level route query.
 *
 * Every stop of the name-ordered stop set owns two vertices, `in` (arriving)
 * and `out` (boarding). A wait edge `in -> out` costs the fixed wait time; a
 * ride edge `out(a) -> in(b)` exists for every pair of positions a < b on a
 * line and costs the travel time along that stretch.
 *
 * The graph is an append-only edge list: `AddEdge` appends and returns the
 * position of the new edge as its id, which is what the graph library (not
 * part of this model) promises. The shortest-path engine is not modelled: the
 * route query is given it as a function from a pair of vertices to an
 * optional path, and only maps that path back to edge metadata.
 *
 * Weights are exact `real`s rather than IEEE doubles.
 */
module Router {
  import opened Wrappers
  import opened NameOrder
  import opened Domain
  import opened Catalogue

  /** `FROM_KM_H_TO_M_MIN`: one km/h is 1000/60 = 100/6 metres per minute. */
  const KmPerHourToMetresPerMinute: real := 100.0 / 6.0

  /** `TransportRouteSettings`: minutes spent waiting at a boarding, and bus speed in km/h. */
  datatype RouteSettings = RouteSettings(busWaitTime: int, busVelocity: real)

  type VertexId = nat
  type EdgeId = nat

  /** `graph::Edge<double>` */
  datatype Edge = Edge(from: VertexId, to: VertexId, weight: real)

  /** `StopVertexes`: where a stop is arrived at, and where it is boarded from. */
  datatype StopVertexes = StopVertexes(inVertex: VertexId, outVertex: VertexId)

  /** `EdgeInfo`: a `WaitEdgeInfo` or a `BusEdgeInfo`. */
  datatype EdgeInfo =
    | WaitEdgeInfo(stop: StopId, busWaitTime: real)
    | BusEdgeInfo(bus: BusId, spanCount: nat, time: real)

  /** What the shortest-path engine answers: the path's total weight and its edges in order. */
  datatype RouteInfo = RouteInfo(weight: real, edges: seq<EdgeId>)

  /** An edge of the graph together with the metadata the router files under its id. */
  datatype TaggedEdge = TaggedEdge(edge: Edge, info: EdgeInfo)

  /** Travel time in minutes over `distance` metres at `velocity` km/h. */
  function Minutes(distance: int, velocity: real): real
    requires velocity > 0.0
  {
    distance as real / (velocity * KmPerHourToMetresPerMinute)
  }

  /** The conversion constant really is km/h to m/min: 600 m at 30 km/h take 1.2 minutes. */
  lemma MinutesExample()
    ensures Minutes(600, 30.0) == 1.2
    ensures Minutes(1000, 60.0) == 1.0
  {
  }

  /** Travel time is proportional to distance and never negative for a non-negative distance. */
  lemma MinutesMonotone(a: int, b: int, velocity: real)
    requires velocity > 0.0
    ensures a <= b ==> Minutes(a, velocity) <= Minutes(b, velocity)
    ensures a >= 0 ==> Minutes(a, velocity) >= 0.0
    ensures Minutes(a, velocity) == Minutes(b, velocity) <==> a == b
  {
    var f := velocity * KmPerHourToMetresPerMinute;
    assert f > 0.0;
    if a <= b {
      assert a as real / f <= b as real / f;
    }
    if Minutes(a, velocity) == Minutes(b, velocity) {
      assert a as real == Minutes(a, velocity) * f;
    }
  }

  // ---------------------------------------------------------------------
  // Vertices and wait edges
  // ---------------------------------------------------------------------

  /**
   * `stop_to_vertexes_ids_` once the first `k` stops of the name-ordered set
   * have been visited: the stop of rank i gets `in = 2i`, `out = 2i + 1`.
   */
  function StopVertexMap(sorted: seq<Named>, k: nat): map<StopId, StopVertexes>
    requires k <= |sorted|
    decreases k
  {
    if k == 0 then map[]
    else StopVertexMap(sorted, k - 1)[sorted[k - 1].id := StopVertexes(2 * (k - 1), 2 * (k - 1) + 1)]
  }

  /** The wait edges of the first `k` stops of the name-ordered set, in that order. */
  function WaitEdges(busWaitTime: int, sorted: seq<Named>, k: nat): seq<TaggedEdge>
    requires k <= |sorted|
    decreases k
  {
    if k == 0 then []
    else
      WaitEdges(busWaitTime, sorted, k - 1)
      + [TaggedEdge(Edge(2 * (k - 1), 2 * (k - 1) + 1, busWaitTime as real),
                    WaitEdgeInfo(sorted[k - 1].id, busWaitTime as real))]
  }

  /** A stop gets vertices exactly when it is among the visited ones, and its vertices are its rank's. */
  lemma {:induction false} StopVertexMapDomain(sorted: seq<Named>, k: nat, s: StopId)
    requires k <= |sorted|
    ensures s in StopVertexMap(sorted, k) <==> exists i :: 0 <= i < k && sorted[i].id == s
    ensures s in StopVertexMap(sorted, k) ==>
      var v := StopVertexMap(sorted, k)[s];
      v.outVertex == v.inVertex + 1 && v.outVertex < 2 * k && v.inVertex % 2 == 0
    decreases k
  {
    if k > 0 {
      StopVertexMapDomain(sorted, k - 1, s);
      if s == sorted[k - 1].id {
        assert exists i :: 0 <= i < k && sorted[i].id == s;
      } else if exists i :: 0 <= i < k && sorted[i].id == s {
        var i :| 0 <= i < k && sorted[i].id == s;
        assert i < k - 1;
      }
    }
  }

  /** Stops with distinct names are distinct records, so no two ranks share a stop. */
  ghost predicate DistinctIds(sorted: seq<Named>)
  {
    forall i, j :: 0 <= i < j < |sorted| ==> sorted[i].id != sorted[j].id
  }

  /**
   * The vertices of the stop of rank i are `2i` and `2i + 1`, so the
   * `2 * |sorted|` vertices are shared out two per stop with none left over.
   */
  lemma {:induction false} StopVertexRank(sorted: seq<Named>, k: nat, i: nat)
    requires DistinctIds(sorted)
    requires i < k <= |sorted|
    ensures sorted[i].id in StopVertexMap(sorted, k)
    ensures StopVertexMap(sorted, k)[sorted[i].id] == StopVertexes(2 * i, 2 * i + 1)
    decreases k
  {
    if i < k - 1 {
      StopVertexRank(sorted, k - 1, i);
      assert sorted[i].id != sorted[k - 1].id;
    }
  }

  /** The name-ordered stop set of a catalogue holds each record once. */
  lemma SortedStopIdsDistinct(stops: seq<Stop>)
    ensures DistinctIds(StopsSortedFrom(stops, 0))
  {
    var sorted := StopsSortedFrom(stops, 0);
    StopsSortedFromSpec(stops, 0);
    forall i, j | 0 <= i < j < |sorted| ensures sorted[i].id != sorted[j].id {
      assert sorted[i] in sorted && sorted[j] in sorted;
      SortedNamesDistinct(sorted, i, j);
    }
  }

  /** Wait edge of rank i: `in -> out` of that stop, weighted and tagged with the wait time. */
  lemma {:induction false} WaitEdgeAt(busWaitTime: int, sorted: seq<Named>, k: nat, i: nat)
    requires i < k <= |sorted|
    ensures |WaitEdges(busWaitTime, sorted, k)| == k
    ensures WaitEdges(busWaitTime, sorted, k)[i]
      == TaggedEdge(Edge(2 * i, 2 * i + 1, busWaitTime as real), WaitEdgeInfo(sorted[i].id, busWaitTime as real))
    decreases k
  {
    if i < k - 1 {
      WaitEdgeAt(busWaitTime, sorted, k - 1, i);
    } else if k > 1 {
      WaitEdgeAt(busWaitTime, sorted, k - 1, 0);
    }
  }

  // ---------------------------------------------------------------------
  // Ride edges
  // ---------------------------------------------------------------------

  /** Sum of `dist(s[k - 1], s[k])` for `from < k <= to`: riding from position `from` to `to`. */
  function SpanLength(d: Distances, s: seq<StopId>, from: nat, to: nat): int
    requires from <= to < |s|
    decreases (to)
  {
    if to == from then 0 else SpanLength(d, s, from, to - 1) + DistanceBetweenStops(d, s[to - 1], s[to])
  }

  /** Sum of `dist(s[k], s[k - 1])` for `from < k <= to`: riding the same stretch backwards. */
  function ReverseSpanLength(d: Distances, s: seq<StopId>, from: nat, to: nat): int
    requires from <= to < |s|
    decreases (to)
  {
    if to == from then 0 else ReverseSpanLength(d, s, from, to - 1) + DistanceBetweenStops(d, s[to], s[to - 1])
  }

  /** What the ride edges are built from: the distance table, the stop vertices and the speed. */
  datatype Network = Network(distances: Distances, vertexes: map<StopId, StopVertexes>, velocity: real)

  /** Every stop of the line has vertices, and the speed is positive. */
  ghost predicate Serves(net: Network, bus: Bus)
  {
    net.velocity > 0.0 && forall s :: s in bus.stops ==> s in net.vertexes
  }

  /** The edge riding line `id` forward from position `from` to position `to`. */
  function ForwardRide(net: Network, id: BusId, bus: Bus, from: nat, to: nat): TaggedEdge
    requires Serves(net, bus) && from < to < |bus.stops|
  {
    var time := Minutes(SpanLength(net.distances, bus.stops, from, to), net.velocity);
    TaggedEdge(Edge(net.vertexes[bus.stops[from]].outVertex, net.vertexes[bus.stops[to]].inVertex, time),
               BusEdgeInfo(id, to - from, time))
  }

  /**
   * The edge riding a non-circular line back from position `to` to position
   * `from`. Its weight is the time over the backward distances, but the time
   * filed in its metadata is the forward one.
   */
  function BackwardRide(net: Network, id: BusId, bus: Bus, from: nat, to: nat): TaggedEdge
    requires Serves(net, bus) && from < to < |bus.stops|
  {
    TaggedEdge(Edge(net.vertexes[bus.stops[to]].outVertex, net.vertexes[bus.stops[from]].inVertex,
                    Minutes(ReverseSpanLength(net.distances, bus.stops, from, to), net.velocity)),
               BusEdgeInfo(id, to - from, Minutes(SpanLength(net.distances, bus.stops, from, to), net.velocity)))
  }

  /** The edges one `(from, to)` pair adds: forward, then backward for a non-circular line. */
  function PairEdges(net: Network, id: BusId, bus: Bus, from: nat, to: nat): seq<TaggedEdge>
    requires Serves(net, bus) && from < to < |bus.stops|
  {
    [ForwardRide(net, id, bus, from, to)] + if bus.isRoundtrip then [] else [BackwardRide(net, id, bus, from, to)]
  }

  /** `e` is the forward ride, or on a non-circular line the backward ride, between positions `from < to`. */
  predicate IsRide(net: Network, id: BusId, bus: Bus, from: nat, to: nat, e: TaggedEdge)
    requires Serves(net, bus)
  {
    from < to < |bus.stops|
    && (e == ForwardRide(net, id, bus, from, to) || (!bus.isRoundtrip && e == BackwardRide(net, id, bus, from, to)))
  }

  /** The edges of the pairs `(from, t)` with `from < t < to`, in order of `t`. */
  function EdgesFromStop(net: Network, id: BusId, bus: Bus, from: nat, to: nat): seq<TaggedEdge>
    requires Serves(net, bus) && from < to <= |bus.stops|
    decreases (to)
  {
    if to == from + 1 then [] else EdgesFromStop(net, id, bus, from, to - 1) + PairEdges(net, id, bus, from, to - 1)
  }

  /** The edges of the pairs whose first position is below `upTo`, in the order the loops add them. */
  function EdgesOfBus(net: Network, id: BusId, bus: Bus, upTo: nat): seq<TaggedEdge>
    requires Serves(net, bus) && upTo <= |bus.stops|
    decreases upTo
  {
    if upTo == 0 then [] else EdgesOfBus(net, id, bus, upTo - 1) + EdgesFromStop(net, id, bus, upTo - 1, |bus.stops|)
  }

  /** How many edges one pair of positions adds. */
  function EdgesPerPair(bus: Bus): nat
  {
    if bus.isRoundtrip then 1 else 2
  }

  /** Every line in the name-ordered set is a stored line served by the graph. */
  ghost predicate LinesServed(net: Network, buses: seq<Bus>, lines: seq<Named>)
  {
    forall e :: e in lines ==> e.id < |buses| && Serves(net, buses[e.id])
  }

  /** The ride edges of the first `k` lines of the name-ordered line set. */
  function LinesEdges(net: Network, buses: seq<Bus>, lines: seq<Named>, k: nat): seq<TaggedEdge>
    requires LinesServed(net, buses, lines) && k <= |lines|
    decreases k
  {
    if k == 0 then []
    else
      assert lines[k - 1] in lines;
      LinesEdges(net, buses, lines, k - 1)
      + EdgesOfBus(net, lines[k - 1].id, buses[lines[k - 1].id], |buses[lines[k - 1].id].stops|)
  }

  lemma {:induction false} EdgesFromStopCount(net: Network, id: BusId, bus: Bus, from: nat, to: nat)
    requires Serves(net, bus) && from < to <= |bus.stops|
    ensures |EdgesFromStop(net, id, bus, from, to)| == EdgesPerPair(bus) * (to - from - 1)
    decreases (to)
  {
    if from + 1 < to {
      EdgesFromStopCount(net, id, bus, from, to - 1);
    }
  }

  lemma PairCountStep(n: int, u: int)
    ensures u * (2 * n - u - 1) == (u - 1) * (2 * n - u) + 2 * (n - u)
  {
  }

  /** After the pairs starting below `u`, `EdgesPerPair * u * (2n - u - 1) / 2` edges are in. */
  lemma {:induction false} EdgesOfBusCountUpTo(net: Network, id: BusId, bus: Bus, u: nat)
    requires Serves(net, bus) && u <= |bus.stops|
    ensures 2 * |EdgesOfBus(net, id, bus, u)| == EdgesPerPair(bus) * (u * (2 * |bus.stops| - u - 1))
    decreases u
  {
    if u > 0 {
      var n := |bus.stops|;
      EdgesOfBusCountUpTo(net, id, bus, u - 1);
      EdgesFromStopCount(net, id, bus, u - 1, n);
      var x, y := (u - 1) * (2 * n - u), u * (2 * n - u - 1);
      PairCountStep(n, u);
      assert |EdgesOfBus(net, id, bus, u)|
        == |EdgesOfBus(net, id, bus, u - 1)| + |EdgesFromStop(net, id, bus, u - 1, n)|;
      if bus.isRoundtrip {
        assert 2 * |EdgesOfBus(net, id, bus, u - 1)| == x;
        assert |EdgesFromStop(net, id, bus, u - 1, n)| == n - u;
      } else {
        assert 2 * |EdgesOfBus(net, id, bus, u - 1)| == 2 * x;
        assert |EdgesFromStop(net, id, bus, u - 1, n)| == 2 * (n - u);
      }
    }
  }

  /** A line of n stops adds n(n-1)/2 ride edges, or n(n-1) when it is not circular. */
  lemma EdgesOfBusCount(net: Network, id: BusId, bus: Bus)
    requires Serves(net, bus)
    ensures bus.isRoundtrip ==> 2 * |EdgesOfBus(net, id, bus, |bus.stops|)| == |bus.stops| * (|bus.stops| - 1)
    ensures !bus.isRoundtrip ==> |EdgesOfBus(net, id, bus, |bus.stops|)| == |bus.stops| * (|bus.stops| - 1)
  {
    EdgesOfBusCountUpTo(net, id, bus, |bus.stops|);
  }

  lemma {:induction false} EdgesFromStopMembers(net: Network, id: BusId, bus: Bus, from: nat, to: nat, e: TaggedEdge)
    requires Serves(net, bus) && from < to <= |bus.stops|
    ensures e in EdgesFromStop(net, id, bus, from, to) <==> exists t: nat :: t < to && IsRide(net, id, bus, from, t, e)
    decreases (to)
  {
    if from + 1 < to {
      EdgesFromStopMembers(net, id, bus, from, to - 1, e);
      if e in PairEdges(net, id, bus, from, to - 1) {
        assert IsRide(net, id, bus, from, to - 1, e);
      }
    }
  }

  /**
   * The ride edges of a line are exactly: for every pair of positions
   * `from < to`, the forward ride, and for a non-circular line also the backward ride.
   */
  lemma {:induction false} EdgesOfBusMembers(net: Network, id: BusId, bus: Bus, upTo: nat, e: TaggedEdge)
    requires Serves(net, bus) && upTo <= |bus.stops|
    ensures e in EdgesOfBus(net, id, bus, upTo) <==> exists from: nat, to: nat :: from < upTo && IsRide(net, id, bus, from, to, e)
    decreases upTo
  {
    if upTo > 0 {
      var last := upTo - 1;
      EdgesOfBusMembers(net, id, bus, last, e);
      EdgesFromStopMembers(net, id, bus, last, |bus.stops|, e);
      assert EdgesOfBus(net, id, bus, upTo) == EdgesOfBus(net, id, bus, last) + EdgesFromStop(net, id, bus, last, |bus.stops|);
      RidesFromSplit(net, id, bus, last, upTo, e);
    }
  }

  /** The rides starting before `upTo` are those starting before `upTo - 1` and those starting at `upTo - 1`. */
  lemma RidesFromSplit(net: Network, id: BusId, bus: Bus, last: nat, upTo: nat, e: TaggedEdge)
    requires Serves(net, bus) && upTo == last + 1 <= |bus.stops|
    ensures (exists from: nat, to: nat :: from < upTo && IsRide(net, id, bus, from, to, e)) <==>
      (exists from: nat, to: nat :: from < last && IsRide(net, id, bus, from, to, e))
      || (exists t: nat :: t < |bus.stops| && IsRide(net, id, bus, last, t, e))
  {
    if exists t: nat :: t < |bus.stops| && IsRide(net, id, bus, last, t, e) {
      var t: nat :| t < |bus.stops| && IsRide(net, id, bus, last, t, e);
      assert last < upTo;
    }
    if exists from: nat, to: nat :: from < upTo && IsRide(net, id, bus, from, to, e) {
      var from: nat, to: nat :| from < upTo && IsRide(net, id, bus, from, to, e);
      if from == last {
        assert to < |bus.stops|;
      }
    }
  }

  /**
   * A forward ride spans `to - from` stops, takes the time of the looked-up
   * length of the stretch of the line it covers, and leads from the boarding
   * vertex of its first stop to the arrival vertex of its last.
   */
  lemma ForwardRideMeaning(net: Network, id: BusId, bus: Bus, from: nat, to: nat)
    requires Serves(net, bus) && from < to < |bus.stops|
    ensures var r := ForwardRide(net, id, bus, from, to);
      && r.info.BusEdgeInfo? && r.info.bus == id && r.info.spanCount == to - from >= 1
      && r.edge.from == net.vertexes[bus.stops[from]].outVertex && r.edge.to == net.vertexes[bus.stops[to]].inVertex
      && r.edge.weight == r.info.time == Minutes(PathLength(net.distances, bus.stops[from..to + 1]), net.velocity)
  {
    SpanIsPathLength(net.distances, bus.stops, from, to);
  }

  /**
   * A backward ride covers the same stops in the other direction: its weight
   * is the time over the reversed stretch, while the time in its metadata is
   * the forward stretch's. The two agree exactly when both directions are equally long.
   */
  lemma BackwardRideMeaning(net: Network, id: BusId, bus: Bus, from: nat, to: nat)
    requires Serves(net, bus) && from < to < |bus.stops|
    ensures var r := BackwardRide(net, id, bus, from, to);
      && r.info.BusEdgeInfo? && r.info.bus == id && r.info.spanCount == to - from >= 1
      && r.edge.from == net.vertexes[bus.stops[to]].outVertex && r.edge.to == net.vertexes[bus.stops[from]].inVertex
      && r.edge.weight == Minutes(PathLength(net.distances, Reverse(bus.stops[from..to + 1])), net.velocity)
      && r.info.time == ForwardRide(net, id, bus, from, to).edge.weight
      && (r.info.time == r.edge.weight <==>
            PathLength(net.distances, bus.stops[from..to + 1]) == PathLength(net.distances, Reverse(bus.stops[from..to + 1])))
  {
    SpanIsPathLength(net.distances, bus.stops, from, to);
    ReverseSpanIsReversedPath(net.distances, bus.stops, from, to);
    MinutesMonotone(SpanLength(net.distances, bus.stops, from, to),
                    ReverseSpanLength(net.distances, bus.stops, from, to), net.velocity);
  }

  /** The forward span sum is the looked-up length of the sub-path `s[from..to]`. */
  lemma {:induction false} SpanIsPathLength(d: Distances, s: seq<StopId>, from: nat, to: nat)
    requires from <= to < |s|
    ensures SpanLength(d, s, from, to) == PathLength(d, s[from..to + 1])
    decreases (to)
  {
    if from < to {
      SpanIsPathLength(d, s, from, to - 1);
      var p := s[from..to + 1];
      assert p[..|p| - 1] == s[from..to];
      assert p[|p| - 2] == s[to - 1] && p[|p| - 1] == s[to];
    }
  }

  lemma {:induction false} ReverseAppend(s: seq<StopId>, x: StopId)
    ensures Reverse(s + [x]) == [x] + Reverse(s)
    decreases |s|
  {
    if |s| == 0 {
      assert Reverse([x]) == Reverse([]) + [x];
    } else {
      ReverseAppend(s[1..], x);
      assert (s + [x])[1..] == s[1..] + [x];
    }
  }

  /** Prepending the stop `x` after `q` to the reversed `q` adds the hop from `x` back to `q`'s last stop. */
  lemma ReversedPathStep(d: Distances, q: seq<StopId>, x: StopId)
    requires |q| > 0
    ensures PathLength(d, Reverse(q + [x])) == DistanceBetweenStops(d, x, q[|q| - 1]) + PathLength(d, Reverse(q))
  {
    ReverseAppend(q, x);
    var rq := Reverse(q);
    ReverseEnds(q);
    var two := [x, q[|q| - 1]];
    PathLengthGlue(d, two, rq);
    assert two + rq[1..] == [x] + rq;
    assert two[..1] == [x];
  }

  /** The backward span sum is the looked-up length of the reversed sub-path. */
  lemma {:induction false} ReverseSpanIsReversedPath(d: Distances, s: seq<StopId>, from: nat, to: nat)
    requires from <= to < |s|
    ensures ReverseSpanLength(d, s, from, to) == PathLength(d, Reverse(s[from..to + 1]))
    decreases (to)
  {
    if from == to {
      assert Reverse(s[from..to + 1]) == [s[from]] by {
        assert s[from..to + 1] == [s[from]];
        assert Reverse([s[from]]) == Reverse([]) + [s[from]];
      }
    } else {
      var q := s[from..to];
      assert s[from..to + 1] == q + [s[to]];
      assert q[|q| - 1] == s[to - 1];
      calc {
        ReverseSpanLength(d, s, from, to);
        ReverseSpanLength(d, s, from, to - 1) + DistanceBetweenStops(d, s[to], s[to - 1]);
        { ReverseSpanIsReversedPath(d, s, from, to - 1); }
        PathLength(d, Reverse(q)) + DistanceBetweenStops(d, s[to], q[|q| - 1]);
        { ReversedPathStep(d, q, s[to]); }
        PathLength(d, Reverse(q + [s[to]]));
      }
    }
  }

  /**
   * Riding a whole line forward and back over the ride edges of its first and
   * last stop takes as long as its route length from the line statistics.
   */
  lemma WholeLineMatchesRouteLength(d: Distances, bus: Bus)
    requires |bus.stops| > 0
    ensures SpanLength(d, bus.stops, 0, |bus.stops| - 1)
      + (if bus.isRoundtrip then 0 else ReverseSpanLength(d, bus.stops, 0, |bus.stops| - 1))
      == BusStatistics(d, bus).routeLength
  {
    var s := bus.stops;
    assert s[0..|s|] == s && s[0..] == s;
    assert SpanLength(d, s, 0, |s| - 1) == PathLength(d, s) by {
      SpanIsPathLength(d, s, 0, |s| - 1);
    }
    assert ReverseSpanLength(d, s, 0, |s| - 1) == ReturnLength(d, s, 0) by {
      ReverseSpanIsReversedPath(d, s, 0, |s| - 1);
      ReturnLengthIsReversedPath(d, s, 0);
    }
  }

  // ---------------------------------------------------------------------
  // The whole graph
  // ---------------------------------------------------------------------

  /** What the router can be built from: no stop name given twice, and every line's stops stored. */
  ghost predicate Buildable(stops: seq<Stop>, buses: seq<Bus>)
  {
    UniqueNames(stops) && StopsStored(|stops|, buses)
  }

  /** Every line calls only at stored stops. */
  ghost predicate StopsStored(stopCount: nat, buses: seq<Bus>)
  {
    forall b, s :: 0 <= b < |buses| && s in buses[b].stops ==> s < stopCount
  }

  /** With unique names every stored stop is in the name-ordered set and so gets vertices. */
  lemma EveryStopHasVertexes(stops: seq<Stop>, j: nat)
    requires UniqueNames(stops) && j < |stops|
    ensures var sorted := StopsSortedFrom(stops, 0); j in StopVertexMap(sorted, |sorted|)
  {
    var sorted := StopsSortedFrom(stops, 0);
    UniqueNamesSortedStops(stops, 0);
    assert Named(stops[j].name, j) in sorted;
    var i :| 0 <= i < |sorted| && sorted[i] == Named(stops[j].name, j);
    StopVertexMapDomain(sorted, |sorted|, j);
  }

  /** When every stored stop has vertices, every line of the name-ordered line set is served. */
  lemma CoveredLinesServed(stopCount: nat, buses: seq<Bus>, net: Network)
    requires net.velocity > 0.0
    requires StopsStored(stopCount, buses)
    requires forall j :: 0 <= j < stopCount ==> j in net.vertexes
    ensures LinesServed(net, buses, BusesSortedFrom(buses, 0))
  {
    BusesSortedFromSpec(buses, 0);
    forall e | e in BusesSortedFrom(buses, 0) ensures e.id < |buses| && Serves(net, buses[e.id]) {
      assert SortedBusEntry(buses, 0, e);
    }
  }

  lemma ServesAllLines(settings: RouteSettings, stops: seq<Stop>, buses: seq<Bus>, d: Distances)
    requires Buildable(stops, buses) && settings.busVelocity > 0.0
    ensures var sorted := StopsSortedFrom(stops, 0);
      LinesServed(Network(d, StopVertexMap(sorted, |sorted|), settings.busVelocity), buses, BusesSortedFrom(buses, 0))
  {
    var sorted := StopsSortedFrom(stops, 0);
    var net := Network(d, StopVertexMap(sorted, |sorted|), settings.busVelocity);
    forall j | 0 <= j < |stops| ensures j in net.vertexes {
      EveryStopHasVertexes(stops, j);
    }
    CoveredLinesServed(|stops|, buses, net);
  }

  /**
   * The edge list the constructor builds: one wait edge per stop in name
   * order, then the ride edges of every line with stops, lines in name order.
   */
  function GraphEdges(settings: RouteSettings, stops: seq<Stop>, buses: seq<Bus>, d: Distances): seq<TaggedEdge>
    requires Buildable(stops, buses) && settings.busVelocity > 0.0
  {
    var sorted := StopsSortedFrom(stops, 0);
    var lines := BusesSortedFrom(buses, 0);
    ServesAllLines(settings, stops, buses, d);
    WaitEdges(settings.busWaitTime, sorted, |sorted|)
    + LinesEdges(Network(d, StopVertexMap(sorted, |sorted|), settings.busVelocity), buses, lines, |lines|)
  }

  lemma {:induction false} LinesEdgesAreRides(net: Network, buses: seq<Bus>, lines: seq<Named>, k: nat, e: TaggedEdge)
    requires LinesServed(net, buses, lines) && k <= |lines|
    requires e in LinesEdges(net, buses, lines, k)
    ensures e.info.BusEdgeInfo? && e.info.spanCount >= 1
    ensures NonNegative(net.distances) ==> e.edge.weight >= 0.0 && e.info.time >= 0.0
    ensures exists s :: s in net.vertexes && e.edge.from == net.vertexes[s].outVertex
    ensures exists s :: s in net.vertexes && e.edge.to == net.vertexes[s].inVertex
    decreases k
  {
    assert k > 0;
    assert lines[k - 1] in lines;
    if e in LinesEdges(net, buses, lines, k - 1) {
      LinesEdgesAreRides(net, buses, lines, k - 1, e);
    } else {
      var bus := buses[lines[k - 1].id];
      EdgesOfBusMembers(net, lines[k - 1].id, bus, |bus.stops|, e);
      var from: nat, to: nat :| from < |bus.stops| && IsRide(net, lines[k - 1].id, bus, from, to, e);
      assert from < to < |bus.stops|;
      assert bus.stops[from] in bus.stops && bus.stops[to] in bus.stops;
      if NonNegative(net.distances) {
        SpanLengthNonNegative(net.distances, bus.stops, from, to);
        MinutesMonotone(SpanLength(net.distances, bus.stops, from, to), 0, net.velocity);
        MinutesMonotone(ReverseSpanLength(net.distances, bus.stops, from, to), 0, net.velocity);
      }
    }
  }

  /** Every recorded distance is non-negative. */
  ghost predicate NonNegative(d: Distances)
  {
    forall p :: p in d ==> d[p] >= 0
  }

  lemma {:induction false} SpanLengthNonNegative(d: Distances, s: seq<StopId>, from: nat, to: nat)
    requires NonNegative(d) && from <= to < |s|
    ensures SpanLength(d, s, from, to) >= 0 && ReverseSpanLength(d, s, from, to) >= 0
    decreases (to)
  {
    if from < to {
      SpanLengthNonNegative(d, s, from, to - 1);
    }
  }

  /** All edges of the first `k` wait edges join vertices below `2k`, as `in -> out` of one stop. */
  lemma {:induction false} WaitEdgesShape(busWaitTime: int, sorted: seq<Named>, k: nat, e: TaggedEdge)
    requires k <= |sorted|
    requires e in WaitEdges(busWaitTime, sorted, k)
    ensures e.info.WaitEdgeInfo? && e.info.busWaitTime == e.edge.weight == busWaitTime as real
    ensures e.edge.to == e.edge.from + 1 < 2 * k && e.edge.from % 2 == 0
    decreases k
  {
    if e in WaitEdges(busWaitTime, sorted, k - 1) {
      WaitEdgesShape(busWaitTime, sorted, k - 1, e);
    }
  }

  /** A ride leaves an odd "out" vertex and enters an even "in" vertex of the graph. */
  lemma RideEndpoints(sorted: seq<Named>, buses: seq<Bus>, lines: seq<Named>, d: Distances, velocity: real,
                      e: TaggedEdge)
    requires velocity > 0.0
    requires LinesServed(Network(d, StopVertexMap(sorted, |sorted|), velocity), buses, lines)
    requires e in LinesEdges(Network(d, StopVertexMap(sorted, |sorted|), velocity), buses, lines, |lines|)
    ensures e.info.BusEdgeInfo? && e.info.spanCount >= 1
    ensures NonNegative(d) ==> e.edge.weight >= 0.0
    ensures e.edge.from % 2 == 1 && e.edge.to % 2 == 0
    ensures e.edge.from < 2 * |sorted| && e.edge.to < 2 * |sorted|
  {
    var vertexes := StopVertexMap(sorted, |sorted|);
    LinesEdgesAreRides(Network(d, vertexes, velocity), buses, lines, |lines|, e);
    var a :| a in vertexes && e.edge.from == vertexes[a].outVertex;
    var b :| b in vertexes && e.edge.to == vertexes[b].inVertex;
    StopVertexMapDomain(sorted, |sorted|, a);
    StopVertexMapDomain(sorted, |sorted|, b);
  }

  /**
   * The graph the router builds: the stop of rank i has the vertices `2i` and
   * `2i + 1`; the first edges are the wait edges, one per stop in name order,
   * each `in -> out` with the wait time as weight and as recorded time; every
   * later edge is a ride edge of span at least one from a boarding vertex to an
   * arrival vertex; every edge stays within the `2 * |stops|` vertices; and
   * with non-negative distances and wait time no weight is negative.
   */
  lemma GraphShape(settings: RouteSettings, stops: seq<Stop>, buses: seq<Bus>, d: Distances, i: nat)
    requires Buildable(stops, buses) && settings.busVelocity > 0.0
    requires i < |GraphEdges(settings, stops, buses, d)|
    ensures var sorted := StopsSortedFrom(stops, 0);
      var g := GraphEdges(settings, stops, buses, d);
      && |sorted| == |stops|
      && (i < |sorted| ==>
            && g[i].edge == Edge(2 * i, 2 * i + 1, settings.busWaitTime as real)
            && g[i].info == WaitEdgeInfo(sorted[i].id, settings.busWaitTime as real)
            && sorted[i].id in StopVertexMap(sorted, |sorted|)
            && StopVertexMap(sorted, |sorted|)[sorted[i].id] == StopVertexes(2 * i, 2 * i + 1))
      && (i >= |sorted| ==>
            && g[i].info.BusEdgeInfo? && g[i].info.spanCount >= 1
            && g[i].edge.from % 2 == 1 && g[i].edge.to % 2 == 0)
      && g[i].edge.from < 2 * |stops| && g[i].edge.to < 2 * |stops|
      && (NonNegative(d) && settings.busWaitTime >= 0 ==> g[i].edge.weight >= 0.0)
  {
    UniqueNamesSortedCount(stops, 0);
    if i < |stops| {
      GraphWaitEdge(settings, stops, buses, d, i);
    } else {
      GraphRideEdge(settings, stops, buses, d, i);
    }
  }

  lemma GraphWaitEdge(settings: RouteSettings, stops: seq<Stop>, buses: seq<Bus>, d: Distances, i: nat)
    requires Buildable(stops, buses) && settings.busVelocity > 0.0
    requires i < |stops|
    ensures var sorted := StopsSortedFrom(stops, 0);
      var g := GraphEdges(settings, stops, buses, d);
      && i < |sorted| == |stops| <= |g|
      && g[i].edge == Edge(2 * i, 2 * i + 1, settings.busWaitTime as real)
      && g[i].info == WaitEdgeInfo(sorted[i].id, settings.busWaitTime as real)
      && sorted[i].id in StopVertexMap(sorted, |sorted|)
      && StopVertexMap(sorted, |sorted|)[sorted[i].id] == StopVertexes(2 * i, 2 * i + 1)
  {
    var sorted := StopsSortedFrom(stops, 0);
    GraphSplit(settings, stops, buses, d);
    WaitEdgeAt(settings.busWaitTime, sorted, |sorted|, i);
    SortedStopIdsDistinct(stops);
    StopVertexRank(sorted, |sorted|, i);
  }

  lemma GraphRideEdge(settings: RouteSettings, stops: seq<Stop>, buses: seq<Bus>, d: Distances, i: nat)
    requires Buildable(stops, buses) && settings.busVelocity > 0.0
    requires |stops| <= i < |GraphEdges(settings, stops, buses, d)|
    ensures var g := GraphEdges(settings, stops, buses, d);
      && g[i].info.BusEdgeInfo? && g[i].info.spanCount >= 1
      && g[i].edge.from % 2 == 1 && g[i].edge.to % 2 == 0
      && g[i].edge.from < 2 * |stops| && g[i].edge.to < 2 * |stops|
      && (NonNegative(d) ==> g[i].edge.weight >= 0.0)
  {
    var sorted := StopsSortedFrom(stops, 0);
    var lines := BusesSortedFrom(buses, 0);
    var net := Network(d, StopVertexMap(sorted, |sorted|), settings.busVelocity);
    var g := GraphEdges(settings, stops, buses, d);
    var waits := WaitEdges(settings.busWaitTime, sorted, |sorted|);
    assert LinesServed(net, buses, lines) && |waits| == |sorted| == |stops|
           && g == waits + LinesEdges(net, buses, lines, |lines|) by {
      GraphSplit(settings, stops, buses, d);
    }
    var rides := LinesEdges(net, buses, lines, |lines|);
    assert g[i] in rides by {
      assert g[i] == rides[i - |waits|];
    }
    RideEndpoints(sorted, buses, lines, d, settings.busVelocity, g[i]);
  }

  /** The graph is the wait edges, one per stop, followed by the ride edges. */
  lemma GraphSplit(settings: RouteSettings, stops: seq<Stop>, buses: seq<Bus>, d: Distances)
    requires Buildable(stops, buses) && settings.busVelocity > 0.0
    ensures var sorted := StopsSortedFrom(stops, 0);
      var lines := BusesSortedFrom(buses, 0);
      var net := Network(d, StopVertexMap(sorted, |sorted|), settings.busVelocity);
      && |sorted| == |stops|
      && |WaitEdges(settings.busWaitTime, sorted, |sorted|)| == |sorted|
      && LinesServed(net, buses, lines)
      && GraphEdges(settings, stops, buses, d)
         == WaitEdges(settings.busWaitTime, sorted, |sorted|) + LinesEdges(net, buses, lines, |lines|)
  {
    var sorted := StopsSortedFrom(stops, 0);
    ServesAllLines(settings, stops, buses, d);
    UniqueNamesSortedCount(stops, 0);
    if |sorted| > 0 {
      WaitEdgeAt(settings.busWaitTime, sorted, |sorted|, 0);
    }
  }

  /** Every edge of the graph joins two of its `2 * |stops|` vertices. */
  lemma GraphInRange(settings: RouteSettings, stops: seq<Stop>, buses: seq<Bus>, d: Distances)
    requires Buildable(stops, buses) && settings.busVelocity > 0.0
    ensures var g := GraphEdges(settings, stops, buses, d);
      forall i :: 0 <= i < |g| ==> g[i].edge.from < 2 * |stops| && g[i].edge.to < 2 * |stops|
  {
    var g := GraphEdges(settings, stops, buses, d);
    forall i | 0 <= i < |g| ensures g[i].edge.from < 2 * |stops| && g[i].edge.to < 2 * |stops| {
      GraphShape(settings, stops, buses, d, i);
    }
  }

  /** The number of pairs of positions `from < to` among `n` positions. */
  function PairCount(n: nat): nat
  {
    if n == 0 then 0 else PairCount(n - 1) + (n - 1)
  }

  lemma {:induction false} PairCountFormula(n: nat)
    ensures 2 * PairCount(n) == n * (n - 1)
    decreases n
  {
    if n > 0 {
      PairCountFormula(n - 1);
      assert (n - 1) * (n - 2) + 2 * (n - 1) == n * (n - 1);
    }
  }

  /** The edges a line adds, counted without building them: one or two per pair of positions. */
  function LineEdgeCount(bus: Bus): nat
  {
    EdgesPerPair(bus) * PairCount(|bus.stops|)
  }

  function LinesEdgeCount(buses: seq<Bus>, lines: seq<Named>, k: nat): nat
    requires k <= |lines|
    requires forall e :: e in lines ==> e.id < |buses|
    decreases k
  {
    if k == 0 then 0
    else
      assert lines[k - 1] in lines;
      LinesEdgeCount(buses, lines, k - 1) + LineEdgeCount(buses[lines[k - 1].id])
  }

  lemma {:induction false} LinesEdgesCount(net: Network, buses: seq<Bus>, lines: seq<Named>, k: nat)
    requires LinesServed(net, buses, lines) && k <= |lines|
    ensures |LinesEdges(net, buses, lines, k)| == LinesEdgeCount(buses, lines, k)
    decreases k
  {
    if k > 0 {
      assert lines[k - 1] in lines;
      var bus := buses[lines[k - 1].id];
      LinesEdgesCount(net, buses, lines, k - 1);
      LineEdgesCount(net, lines[k - 1].id, bus);
    }
  }

  /** One line adds `LineEdgeCount` ride edges. */
  lemma LineEdgesCount(net: Network, id: BusId, bus: Bus)
    requires Serves(net, bus)
    ensures |EdgesOfBus(net, id, bus, |bus.stops|)| == LineEdgeCount(bus)
  {
    var n := |bus.stops|;
    EdgesOfBusCount(net, id, bus);
    PairCountFormula(n);
    if bus.isRoundtrip {
      assert 2 * |EdgesOfBus(net, id, bus, n)| == 2 * PairCount(n);
    } else {
      assert |EdgesOfBus(net, id, bus, n)| == 2 * PairCount(n);
    }
  }

  /** The graph holds one wait edge per stop plus the ride edges of every line with stops. */
  lemma GraphEdgeCount(settings: RouteSettings, stops: seq<Stop>, buses: seq<Bus>, d: Distances)
    requires Buildable(stops, buses) && settings.busVelocity > 0.0
    ensures BusesSortedFromLinesStored(buses)
    ensures |GraphEdges(settings, stops, buses, d)|
      == |stops| + LinesEdgeCount(buses, BusesSortedFrom(buses, 0), |BusesSortedFrom(buses, 0)|)
  {
    var sorted := StopsSortedFrom(stops, 0);
    var lines := BusesSortedFrom(buses, 0);
    var net := Network(d, StopVertexMap(sorted, |sorted|), settings.busVelocity);
    ServesAllLines(settings, stops, buses, d);
    UniqueNamesSortedCount(stops, 0);
    if |sorted| > 0 {
      WaitEdgeAt(settings.busWaitTime, sorted, |sorted|, 0);
    }
    LinesEdgesCount(net, buses, lines, |lines|);
  }

  ghost predicate BusesSortedFromLinesStored(buses: seq<Bus>)
  {
    forall e :: e in BusesSortedFrom(buses, 0) ==> e.id < |buses|
  }

  // ---------------------------------------------------------------------
  // The router object
  // ---------------------------------------------------------------------

  /** `graph_`'s edge list and `edge_id_to_edge_info_` together hold exactly `spec`, edge id = position. */
  ghost predicate EdgeTable(edges: seq<Edge>, infos: map<EdgeId, EdgeInfo>, spec: seq<TaggedEdge>)
  {
    && |edges| == |spec|
    && (forall id: EdgeId :: id in infos <==> id < |spec|)
    && (forall i :: 0 <= i < |spec| ==> edges[i] == spec[i].edge && i in infos && infos[i] == spec[i].info)
  }

  /** An edge table whose edges all stay below `n` describes a graph on `n` vertices. */
  lemma EdgeTableInRange(edges: seq<Edge>, infos: map<EdgeId, EdgeInfo>, spec: seq<TaggedEdge>, n: nat)
    requires EdgeTable(edges, infos, spec)
    requires forall i :: 0 <= i < |spec| ==> spec[i].edge.from < n && spec[i].edge.to < n
    ensures forall id: EdgeId :: id in infos <==> id < |edges|
    ensures forall i :: 0 <= i < |edges| ==> edges[i].from < n && edges[i].to < n
  {
  }

  lemma EdgeTableAppend(edges: seq<Edge>, infos: map<EdgeId, EdgeInfo>, spec: seq<TaggedEdge>, t: TaggedEdge)
    requires EdgeTable(edges, infos, spec)
    ensures EdgeTable(edges + [t.edge], infos[|edges| := t.info], spec + [t])
  {
  }

  /** The engine only answers with ids of edges of the graph. */
  predicate RouteEdgesKnown(route: Option<RouteInfo>, edgeCount: nat)
  {
    route.Some? ==> forall i :: 0 <= i < |route.value.edges| ==> route.value.edges[i] < edgeCount
  }

  /** A consistent catalogue in which no stop name was given twice is one a router can be built from. */
  lemma CatalogueBuildable(catalogue: TransportCatalogue)
    requires catalogue.Valid() && catalogue.UniqueStopNames()
    ensures Buildable(catalogue.stops, catalogue.buses)
    ensures |StopsSortedFrom(catalogue.stops, 0)| == |catalogue.stops|
  {
    UniqueNamesSortedCount(catalogue.stops, 0);
  }

  /**
   * The edges laid down by the constructor (the wait edges of the name-ordered
   * stops, then the ride edges of the name-ordered lines) are the graph of
   * `GraphEdges`, on two vertices per stored stop.
   */
  lemma ConstructedGraph(settings: RouteSettings, stops: seq<Stop>, buses: seq<Bus>, d: Distances,
                         edges: seq<Edge>, infos: map<EdgeId, EdgeInfo>)
    requires Buildable(stops, buses) && settings.busVelocity > 0.0
    requires var sorted := StopsSortedFrom(stops, 0);
      var lines := BusesSortedFrom(buses, 0);
      var net := Network(d, StopVertexMap(sorted, |sorted|), settings.busVelocity);
      && LinesServed(net, buses, lines)
      && EdgeTable(edges, infos, WaitEdges(settings.busWaitTime, sorted, |sorted|) + LinesEdges(net, buses, lines, |lines|))
    ensures EdgeTable(edges, infos, GraphEdges(settings, stops, buses, d))
    ensures forall id: EdgeId :: id in infos <==> id < |edges|
    ensures forall i :: 0 <= i < |edges| ==> edges[i].from < 2 * |stops| && edges[i].to < 2 * |stops|
  {
    GraphSplit(settings, stops, buses, d);
    GraphInRange(settings, stops, buses, d);
    EdgeTableInRange(edges, infos, GraphEdges(settings, stops, buses, d), 2 * |stops|);
  }

  class TransportRouter {
    /** `route_settings_` */
    const settings: RouteSettings
    /** The vertex count `graph_` was created with. */
    var vertexCount: nat
    /** `graph_`'s edges; an edge's id is its position. */
    var edges: seq<Edge>
    /** `stop_to_vertexes_ids_` */
    var stopToVertexes: map<StopId, StopVertexes>
    /** `edge_id_to_edge_info_` */
    var edgeIdToEdgeInfo: map<EdgeId, EdgeInfo>

    /** Every edge id has its metadata, and every edge joins vertices of the graph. */
    ghost predicate Valid()
      reads this
    {
      && (forall id: EdgeId :: id in edgeIdToEdgeInfo <==> id < |edges|)
      && (forall i :: 0 <= i < |edges| ==> edges[i].from < vertexCount && edges[i].to < vertexCount)
    }

    ghost predicate Holds(spec: seq<TaggedEdge>)
      reads this
    {
      EdgeTable(edges, edgeIdToEdgeInfo, spec)
    }

    /**
     * Takes the name-ordered stops, allots each two vertices and its wait
     * edge, then adds the ride edges of every line; the graph has two vertices
     * per stop of the name-ordered set, which is every stop since no name
     * is given twice.
     */
    constructor (routeSettings: RouteSettings, catalogue: TransportCatalogue)
      requires catalogue.Valid() && catalogue.UniqueStopNames()
      requires routeSettings.busVelocity > 0.0
      ensures settings == routeSettings
      ensures vertexCount == 2 * |StopsSortedFrom(catalogue.stops, 0)| == 2 * |catalogue.stops|
      ensures stopToVertexes == StopVertexMap(StopsSortedFrom(catalogue.stops, 0), |StopsSortedFrom(catalogue.stops, 0)|)
      ensures Buildable(catalogue.stops, catalogue.buses)
      ensures Holds(GraphEdges(routeSettings, catalogue.stops, catalogue.buses, catalogue.distances))
      ensures Valid()
    {
      settings := routeSettings;
      var sortedStops := catalogue.GetStopsSortedByName();
      vertexCount := 2 * |sortedStops|;
      edges := [];
      stopToVertexes := map[];
      edgeIdToEdgeInfo := map[];
      new;
      ghost var stops, buses, d := catalogue.stops, catalogue.buses, catalogue.distances;
      CatalogueBuildable(catalogue);
      assert sortedStops == StopsSortedFrom(stops, 0);
      assert vertexCount == 2 * |stops|;
      ghost var vc := vertexCount;
      AddStopsToGraph(sortedStops);
      assert vertexCount == vc;
      forall j | 0 <= j < |stops| ensures j in stopToVertexes {
        EveryStopHasVertexes(stops, j);
      }
      ghost var waits := WaitEdges(settings.busWaitTime, sortedStops, |sortedStops|);
      AddBusesToGraph(catalogue, waits);
      assert vertexCount == vc;
      ConstructedGraph(settings, stops, buses, d, edges, edgeIdToEdgeInfo);
      assert catalogue.stops == stops;
      assert vertexCount == 2 * |stops|;
    }

    /** `graph_.AddEdge`: appends the edge and returns its id, the next free position. */
    method AddEdge(edge: Edge) returns (id: EdgeId)
      modifies this`edges
      ensures edges == old(edges) + [edge]
      ensures id == |old(edges)|
    {
      id := |edges|;
      edges := edges + [edge];
    }

    /** `AddStopsToGraph`: two fresh vertices and one wait edge per stop, in name order. */
    method AddStopsToGraph(sortedStops: seq<Named>)
      requires Holds([]) && stopToVertexes == map[]
      modifies this`edges, this`edgeIdToEdgeInfo, this`stopToVertexes
      ensures Holds(WaitEdges(settings.busWaitTime, sortedStops, |sortedStops|))
      ensures stopToVertexes == StopVertexMap(sortedStops, |sortedStops|)
    {
      var vertexId: VertexId := 0;
      var k := 0;
      while k < |sortedStops|
        invariant k <= |sortedStops| && vertexId == 2 * k
        invariant Holds(WaitEdges(settings.busWaitTime, sortedStops, k))
        invariant stopToVertexes == StopVertexMap(sortedStops, k)
      {
        var stop := sortedStops[k].id;
        stopToVertexes := stopToVertexes[stop := StopVertexes(vertexId, vertexId + 1)];
        vertexId := vertexId + 2;
        var wait := settings.busWaitTime as real;
        ghost var before, infos := edges, edgeIdToEdgeInfo;
        var edgeId := AddEdge(Edge(stopToVertexes[stop].inVertex, stopToVertexes[stop].outVertex, wait));
        edgeIdToEdgeInfo := edgeIdToEdgeInfo[edgeId := WaitEdgeInfo(stop, wait)];
        EdgeTableAppend(before, infos, WaitEdges(settings.busWaitTime, sortedStops, k),
                        TaggedEdge(Edge(2 * k, 2 * k + 1, wait), WaitEdgeInfo(stop, wait)));
        k := k + 1;
      }
    }

    /** `AddBusesToGraph`: the ride edges of every line with stops, lines in name order. */
    method AddBusesToGraph(catalogue: TransportCatalogue, ghost built: seq<TaggedEdge>)
      requires StopsStored(|catalogue.stops|, catalogue.buses) && settings.busVelocity > 0.0
      requires forall j :: 0 <= j < |catalogue.stops| ==> j in stopToVertexes
      requires Holds(built)
      modifies this`edges, this`edgeIdToEdgeInfo
      ensures LinesServed(Network(catalogue.distances, stopToVertexes, settings.busVelocity),
                          catalogue.buses, BusesSortedFrom(catalogue.buses, 0))
      ensures Holds(built + LinesEdges(Network(catalogue.distances, stopToVertexes, settings.busVelocity),
                                       catalogue.buses, BusesSortedFrom(catalogue.buses, 0),
                                       |BusesSortedFrom(catalogue.buses, 0)|))
    {
      var sortedBuses := catalogue.GetBusesSortedByName();
      CoveredLinesServed(|catalogue.stops|, catalogue.buses,
                         Network(catalogue.distances, stopToVertexes, settings.busVelocity));
      AddLinesEdges(catalogue.distances, catalogue.buses, sortedBuses, built);
    }

    /** The loop over the name-ordered lines of `AddBusesToGraph`. */
    method AddLinesEdges(d: Distances, buses: seq<Bus>, sortedBuses: seq<Named>, ghost built: seq<TaggedEdge>)
      requires LinesServed(Network(d, stopToVertexes, settings.busVelocity), buses, sortedBuses)
      requires Holds(built)
      modifies this`edges, this`edgeIdToEdgeInfo
      ensures Holds(built + LinesEdges(Network(d, stopToVertexes, settings.busVelocity), buses, sortedBuses, |sortedBuses|))
    {
      ghost var net := Network(d, stopToVertexes, settings.busVelocity);
      ghost var current := built;
      var k := 0;
      while k < |sortedBuses|
        invariant k <= |sortedBuses|
        invariant current == built + LinesEdges(net, buses, sortedBuses, k)
        invariant Holds(current)
      {
        assert sortedBuses[k] in sortedBuses;
        var id := sortedBuses[k].id;
        var bus := buses[id];
        AddBusEdges(d, id, bus, current);
        ghost var more := EdgesOfBus(net, id, bus, |bus.stops|);
        assert current + more == built + LinesEdges(net, buses, sortedBuses, k + 1);
        current := current + more;
        k := k + 1;
      }
    }

    /** The loop over `from` for one line: every pair starting at each position in turn. */
    method AddBusEdges(d: Distances, id: BusId, bus: Bus, ghost built: seq<TaggedEdge>)
      requires Serves(Network(d, stopToVertexes, settings.busVelocity), bus)
      requires Holds(built)
      modifies this`edges, this`edgeIdToEdgeInfo
      ensures Holds(built + EdgesOfBus(Network(d, stopToVertexes, settings.busVelocity), id, bus, |bus.stops|))
    {
      ghost var net := Network(d, stopToVertexes, settings.busVelocity);
      ghost var current := built;
      var from := 0;
      while from < |bus.stops|
        invariant from <= |bus.stops|
        invariant current == built + EdgesOfBus(net, id, bus, from)
        invariant Holds(current)
      {
        AddEdgesFromStop(d, id, bus, from, current);
        ghost var more := EdgesFromStop(net, id, bus, from, |bus.stops|);
        assert current + more == built + EdgesOfBus(net, id, bus, from + 1);
        current := current + more;
        from := from + 1;
      }
    }

    /**
     * The loop over `to` for one starting position: the forward ride to every
     * later position and, for a non-circular line, the ride back, whose weight
     * uses the backward distances while its metadata keeps the forward time.
     */
    method AddEdgesFromStop(d: Distances, id: BusId, bus: Bus, from: nat, ghost built: seq<TaggedEdge>)
      requires Serves(Network(d, stopToVertexes, settings.busVelocity), bus) && from < |bus.stops|
      requires Holds(built)
      modifies this`edges, this`edgeIdToEdgeInfo
      ensures Holds(built + EdgesFromStop(Network(d, stopToVertexes, settings.busVelocity), id, bus, from, |bus.stops|))
    {
      ghost var net := Network(d, stopToVertexes, settings.busVelocity);
      ghost var current := built;
      var to := from + 1;
      while to < |bus.stops|
        invariant from < to <= |bus.stops|
        invariant current == built + EdgesFromStop(net, id, bus, from, to)
        invariant Holds(current)
      {
        AddPairEdges(d, id, bus, from, to, current);
        ghost var more := PairEdges(net, id, bus, from, to);
        assert current + more == built + EdgesFromStop(net, id, bus, from, to + 1);
        current := current + more;
        to := to + 1;
      }
    }

    /** The body of the loop over `to`: the edges of one pair of positions. */
    method AddPairEdges(d: Distances, id: BusId, bus: Bus, from: nat, to: nat, ghost built: seq<TaggedEdge>)
      requires Serves(Network(d, stopToVertexes, settings.busVelocity), bus) && from < to < |bus.stops|
      requires Holds(built)
      modifies this`edges, this`edgeIdToEdgeInfo
      ensures Holds(built + PairEdges(Network(d, stopToVertexes, settings.busVelocity), id, bus, from, to))
    {
      ghost var net := Network(d, stopToVertexes, settings.busVelocity);
      var stops := bus.stops;
      assert stops[from] in stops && stops[to] in stops;
      var distance, reverseDistance := SpanDistances(d, stops, from, to);
      var time := distance as real / (settings.busVelocity * KmPerHourToMetresPerMinute);
      ghost var forward := ForwardRide(net, id, bus, from, to);
      assert forward == TaggedEdge(Edge(stopToVertexes[stops[from]].outVertex, stopToVertexes[stops[to]].inVertex, time),
                                   BusEdgeInfo(id, to - from, time));
      ghost var before, infos := edges, edgeIdToEdgeInfo;
      var edgeId := AddEdge(Edge(stopToVertexes[stops[from]].outVertex, stopToVertexes[stops[to]].inVertex, time));
      edgeIdToEdgeInfo := edgeIdToEdgeInfo[edgeId := BusEdgeInfo(id, to - from, time)];
      EdgeTableAppend(before, infos, built, forward);
      if !bus.isRoundtrip {
        var reverseTime := reverseDistance as real / (settings.busVelocity * KmPerHourToMetresPerMinute);
        ghost var backward := BackwardRide(net, id, bus, from, to);
        assert backward == TaggedEdge(Edge(stopToVertexes[stops[to]].outVertex, stopToVertexes[stops[from]].inVertex, reverseTime),
                                      BusEdgeInfo(id, to - from, time));
        before, infos := edges, edgeIdToEdgeInfo;
        edgeId := AddEdge(Edge(stopToVertexes[stops[to]].outVertex, stopToVertexes[stops[from]].inVertex, reverseTime));
        edgeIdToEdgeInfo := edgeIdToEdgeInfo[edgeId := BusEdgeInfo(id, to - from, time)];
        EdgeTableAppend(before, infos, built + [forward], backward);
        assert built + [forward] + [backward] == built + PairEdges(net, id, bus, from, to);
      }
    }

    /**
     * The innermost loop: the looked-up length of the stretch from position
     * `from` to position `to`, forward and backward.
     */
    static method SpanDistances(d: Distances, stops: seq<StopId>, from: nat, to: nat)
      returns (distance: int, reverseDistance: int)
      requires from < to < |stops|
      ensures distance == SpanLength(d, stops, from, to) == PathLength(d, stops[from..to + 1])
      ensures reverseDistance == ReverseSpanLength(d, stops, from, to) == PathLength(d, Reverse(stops[from..to + 1]))
    {
      distance, reverseDistance := 0, 0;
      var local := from + 1;
      while local <= to
        invariant from + 1 <= local <= to + 1
        invariant distance == SpanLength(d, stops, from, local - 1)
        invariant reverseDistance == ReverseSpanLength(d, stops, from, local - 1)
      {
        distance := distance + DistanceBetweenStops(d, stops[local - 1], stops[local]);
        reverseDistance := reverseDistance + DistanceBetweenStops(d, stops[local], stops[local - 1]);
        local := local + 1;
      }
      SpanIsPathLength(d, stops, from, to);
      ReverseSpanIsReversedPath(d, stops, from, to);
    }

    /**
     * `FindOptimalRoute`: asks the engine for a path between the arrival
     * vertices of the two stops; none when it finds none, otherwise the
     * metadata of the path's edges, one for one and in order, with the
     * engine's total weight unchanged.
     */
    method FindOptimalRoute(stopFrom: StopId, stopTo: StopId, buildRoute: (VertexId, VertexId) -> Option<RouteInfo>)
      returns (r: Option<(seq<EdgeInfo>, real)>)
      requires Valid()
      requires stopFrom in stopToVertexes && stopTo in stopToVertexes
      requires RouteEdgesKnown(buildRoute(stopToVertexes[stopFrom].inVertex, stopToVertexes[stopTo].inVertex), |edges|)
      ensures var route := buildRoute(stopToVertexes[stopFrom].inVertex, stopToVertexes[stopTo].inVertex);
        && (r.None? <==> route.None?)
        && (r.Some? ==>
              && r.value.1 == route.value.weight
              && |r.value.0| == |route.value.edges|
              && forall i :: 0 <= i < |r.value.0| ==> r.value.0[i] == edgeIdToEdgeInfo[route.value.edges[i]])
    {
      var graphRouteInfo := buildRoute(stopToVertexes[stopFrom].inVertex, stopToVertexes[stopTo].inVertex);
      if graphRouteInfo.None? {
        return None;
      }
      var path := graphRouteInfo.value.edges;
      var optimalRoute: seq<EdgeInfo> := [];
      var i := 0;
      while i < |path|
        invariant i <= |path| && |optimalRoute| == i
        invariant forall j :: 0 <= j < i ==> optimalRoute[j] == edgeIdToEdgeInfo[path[j]]
      {
        optimalRoute := optimalRoute + [edgeIdToEdgeInfo[path[i]]];
        i := i + 1;
      }
      r := Some((optimalRoute, graphRouteInfo.value.weight));
    }
  }
}
