/**
 * The transport catalogue: name-indexed stop and bus storage, the stop-to-buses
 * index, the directed distance table, and the derived line statistics.
 *
 * Records are never removed: a `StopId`/`BusId` is the position of a record in
 * the storage, which is what the source's stable `const Stop*`/`const Bus*`
 * pointers into its `forward_list`s amount to. Adding a second record under an
 * existing name keeps the first record (buses added earlier still point at it)
 * and redirects the name to the new one.
 */
module Catalogue {
  import opened Wrappers
  import opened NameOrder
  import opened Domain

  datatype Error = InvalidArgument(message: string)

  /** `stop_to_stop_distances_`: keyed by the ordered pair (from, to). */
  type Distances = map<(StopId, StopId), int>

  /** `GetDistanceBetweenStops`: the (from, to) entry, else the (to, from) entry, else 0. */
  function DistanceBetweenStops(d: Distances, from: StopId, to: StopId): (r: int)
    ensures (from, to) in d ==> r == d[(from, to)]
    ensures (from, to) !in d && (to, from) in d ==> r == d[(to, from)]
    ensures (from, to) !in d && (to, from) !in d ==> r == 0
  {
    if (from, to) in d then d[(from, to)]
    else if (to, from) in d then d[(to, from)]
    else 0
  }

  /**
   * The reverse entry stands in for a missing forward entry: the lookup is
   * symmetric unless both directions are recorded, and a pair with no entry
   * either way is 0 apart.
   */
  lemma DistanceFallback(d: Distances, a: StopId, b: StopId)
    ensures (a, b) in d ==> DistanceBetweenStops(d, a, b) == d[(a, b)]
    ensures (a, b) !in d || (b, a) !in d ==> DistanceBetweenStops(d, a, b) == DistanceBetweenStops(d, b, a)
    ensures (a, b) !in d && (b, a) !in d ==> DistanceBetweenStops(d, a, b) == 0
  {
  }

  /**
   * Setting (a, b) fixes the lookup of (a, b), also fixes (b, a) while no (b, a)
   * entry exists, leaves a (b, a) entry of its own in force, and leaves every
   * pair not made of a and b alone.
   */
  lemma DistanceAfterSet(d: Distances, a: StopId, b: StopId, x: int, p: StopId, q: StopId)
    ensures DistanceBetweenStops(d[(a, b) := x], a, b) == x
    ensures (b, a) !in d ==> DistanceBetweenStops(d[(a, b) := x], b, a) == x
    ensures a != b && (b, a) in d ==> DistanceBetweenStops(d[(a, b) := x], b, a) == d[(b, a)]
    ensures (p, q) != (a, b) && (q, p) != (a, b) ==>
      DistanceBetweenStops(d[(a, b) := x], p, q) == DistanceBetweenStops(d, p, q)
  {
  }

  /** Sum of the looked-up distances between consecutive stops of `path`. */
  function PathLength(d: Distances, path: seq<StopId>): int
    decreases |path|
  {
    if |path| <= 1 then 0
    else PathLength(d, path[..|path| - 1]) + DistanceBetweenStops(d, path[|path| - 2], path[|path| - 1])
  }

  /** Sum of `DistanceBetweenStops(s[k], s[k - 1])` for `i < k < |s|`: the way back from the last stop to `s[i]`. */
  function ReturnLength(d: Distances, s: seq<StopId>, i: nat): int
    decreases |s| - i
  {
    if i + 1 >= |s| then 0
    else DistanceBetweenStops(d, s[i + 1], s[i]) + ReturnLength(d, s, i + 1)
  }

  function Elements(s: seq<StopId>): set<StopId>
  {
    set x | x in s
  }

  /** The line statistics `GetBusInfo` computes (curvature aside). */
  function BusStatistics(d: Distances, bus: Bus): (r: BusInfo)
    requires |bus.stops| > 0
    ensures 1 <= r.uniqueStopCount <= |bus.stops| <= r.stopCount
    ensures bus.isRoundtrip ==> r.stopCount == |bus.stops| && r.routeLength == PathLength(d, bus.stops)
  {
    ElementsBound(bus.stops);
    assert bus.stops[0] in Elements(bus.stops);
    BusInfo(
      if bus.isRoundtrip then |bus.stops| else |bus.stops| * 2 - 1,
      |Elements(bus.stops)|,
      PathLength(d, bus.stops) + if bus.isRoundtrip then 0 else ReturnLength(d, bus.stops, 0))
  }

  /** The stop list read backwards, as the return loop of `GetBusInfo` walks it. */
  function Reverse(s: seq<StopId>): (r: seq<StopId>)
    ensures |r| == |s|
    ensures forall i :: 0 <= i < |s| ==> r[i] == s[|s| - 1 - i]
  {
    if |s| == 0 then [] else Reverse(s[1..]) + [s[0]]
  }

  /** The stops a vehicle of the line calls at: forward, then (non-circular lines) back without repeating the end. */
  function Traversal(bus: Bus): seq<StopId>
    requires |bus.stops| > 0
  {
    if bus.isRoundtrip then bus.stops else bus.stops + Reverse(bus.stops)[1..]
  }

  lemma {:induction false} ReverseEnds(s: seq<StopId>)
    requires |s| > 0
    ensures Reverse(s)[0] == s[|s| - 1] && Reverse(s)[|s| - 1] == s[0]
    decreases |s|
  {
    if |s| > 1 {
      ReverseEnds(s[1..]);
    }
  }

  lemma {:induction false} ReverseElements(s: seq<StopId>)
    ensures Elements(Reverse(s)) == Elements(s)
    decreases |s|
  {
    if |s| > 0 {
      ReverseElements(s[1..]);
      assert s == [s[0]] + s[1..];
      assert Elements(s) == Elements(s[1..]) + {s[0]};
      assert Elements(Reverse(s)) == Elements(Reverse(s[1..])) + {s[0]};
    }
  }

  lemma {:induction false} ElementsBound(s: seq<StopId>)
    ensures |Elements(s)| <= |s|
    decreases |s|
  {
    if |s| > 0 {
      ElementsBound(s[1..]);
      assert Elements(s) == Elements(s[1..]) + {s[0]};
    }
  }

  /** Extending a prefix of `s` by one stop adds that stop and one leg. */
  lemma PrefixStep(d: Distances, s: seq<StopId>, i: nat)
    requires i < |s|
    ensures Elements(s[..i + 1]) == Elements(s[..i]) + {s[i]}
    ensures i + 1 < |s| ==>
      PathLength(d, s[..i + 2]) == PathLength(d, s[..i + 1]) + DistanceBetweenStops(d, s[i], s[i + 1])
  {
    assert s[..i + 1] == s[..i] + [s[i]];
    if i + 1 < |s| {
      assert s[..i + 2][..i + 1] == s[..i + 1];
    }
  }

  /** Walking `a` and then `b` whose first stop is `a`'s last: the lengths add up. */
  lemma {:induction false} PathLengthGlue(d: Distances, a: seq<StopId>, b: seq<StopId>)
    requires |a| > 0 && |b| > 0 && a[|a| - 1] == b[0]
    ensures PathLength(d, a + b[1..]) == PathLength(d, a) + PathLength(d, b)
    decreases |b|
  {
    if |b| == 1 {
      assert a + b[1..] == a;
    } else {
      var b' := b[..|b| - 1];
      PathLengthGlue(d, a, b');
      var whole := a + b[1..];
      assert whole[..|whole| - 1] == a + b'[1..];
      assert b[..|b| - 1] == b';
      assert whole[|whole| - 2] == b[|b| - 2] by {
        if |b| == 2 {
          assert whole[|whole| - 2] == a[|a| - 1];
        }
      }
    }
  }

  /** The return sum is the length of the reversed path. */
  lemma {:induction false} ReturnLengthIsReversedPath(d: Distances, s: seq<StopId>, i: nat)
    requires i < |s|
    ensures ReturnLength(d, s, i) == PathLength(d, Reverse(s[i..]))
    decreases |s| - i
  {
    if i + 1 < |s| {
      ReturnLengthIsReversedPath(d, s, i + 1);
      assert s[i..][1..] == s[i + 1..];
      var r := Reverse(s[i + 1..]);
      assert Reverse(s[i..]) == r + [s[i]];
      assert (r + [s[i]])[..|r|] == r;
      ReverseEnds(s[i + 1..]);
    } else {
      assert |Reverse(s[i..])| == 1;
    }
  }

  /**
   * What the statistics mean: the stop count is the length of the traversal,
   * the unique count is the number of distinct stops on it, and the route
   * length is the looked-up length of the whole traversal.
   */
  lemma BusStatisticsFollowTraversal(d: Distances, bus: Bus)
    requires |bus.stops| > 0
    ensures BusStatistics(d, bus).stopCount == |Traversal(bus)|
    ensures BusStatistics(d, bus).uniqueStopCount == |Elements(Traversal(bus))|
    ensures BusStatistics(d, bus).routeLength == PathLength(d, Traversal(bus))
    ensures 1 <= BusStatistics(d, bus).uniqueStopCount <= BusStatistics(d, bus).stopCount
  {
    var s := bus.stops;
    assert s[0] in Elements(s);
    ElementsBound(s);
    if !bus.isRoundtrip {
      var r := Reverse(s);
      ReverseEnds(s);
      PathLengthGlue(d, s, r);
      assert s[0..] == s;
      ReturnLengthIsReversedPath(d, s, 0);
      ReverseElements(s);
      assert Elements(s + r[1..]) == Elements(s);
    }
  }

  /** The worked example: circular A-B-C-A (stops 0, 1, 2), 1000 m between consecutive stops. */
  lemma CircularLineExample()
    ensures var d := map[(0, 1) := 1000, (1, 2) := 1000, (2, 0) := 1000];
            BusStatistics(d, Bus("1", [0, 1, 2, 0], true)) == BusInfo(4, 3, 3000)
  {
    var d: Distances := map[(0, 1) := 1000, (1, 2) := 1000, (2, 0) := 1000];
    var s: seq<StopId> := [0, 1, 2, 0];
    assert Elements(s) == {0, 1, 2};
    assert s[..3] == [0, 1, 2] && [0, 1, 2][..2] == [0, 1] && [0, 1][..1] == [0];
  }

  /**
   * Only one direction recorded: both directions read it, an unrelated pair
   * reads 0. Recording the other direction too keeps two separate entries.
   */
  lemma OneWayDistanceExample(a: StopId, b: StopId, c: StopId)
    requires a != b && b != c && a != c
    ensures var d := map[][(a, b) := 500];
            DistanceBetweenStops(d, a, b) == 500 && DistanceBetweenStops(d, b, a) == 500
            && DistanceBetweenStops(d, a, c) == 0
    ensures var d := map[][(a, b) := 500][(b, a) := 700];
            DistanceBetweenStops(d, a, b) == 500 && DistanceBetweenStops(d, b, a) == 700
  {
  }

  /**
   * `GetStopsSortedByName`: walks `stops_` newest first (records are pushed at
   * the front) and inserts each into a set ordered by name; `stops[i..]` is what
   * has been walked once `i` is reached.
   */
  function StopsSortedFrom(stops: seq<Stop>, i: nat): (r: seq<Named>)
    ensures SortedByName(r)
    decreases |stops| - i
  {
    if i >= |stops| then [] else Insert(StopsSortedFrom(stops, i + 1), Named(stops[i].name, i))
  }

  /** `GetBusesSortedByName`: the same walk over `buses_`, skipping lines without stops. */
  function BusesSortedFrom(buses: seq<Bus>, i: nat): (r: seq<Named>)
    ensures SortedByName(r)
    decreases |buses| - i
  {
    if i >= |buses| then []
    else if |buses[i].stops| > 0 then Insert(BusesSortedFrom(buses, i + 1), Named(buses[i].name, i))
    else BusesSortedFrom(buses, i + 1)
  }

  /** An element of the sorted stops walked from `i`: a record walked, the newest with its name. */
  ghost predicate SortedStopEntry(stops: seq<Stop>, i: nat, e: Named)
  {
    i <= e.id < |stops| && stops[e.id].name == e.name
    && forall j :: e.id < j < |stops| ==> stops[j].name != e.name
  }

  /**
   * The sorted stops hold one record per name, the newest with that name,
   * and every name of a record walked so far.
   */
  lemma {:induction false} StopsSortedFromSpec(stops: seq<Stop>, i: nat)
    ensures forall e :: e in StopsSortedFrom(stops, i) ==> SortedStopEntry(stops, i, e)
    ensures forall j :: i <= j < |stops| ==> HasName(StopsSortedFrom(stops, i), stops[j].name)
    decreases |stops| - i
  {
    if i < |stops| {
      StopsSortedFromSpec(stops, i + 1);
      var rest := StopsSortedFrom(stops, i + 1);
      var x := Named(stops[i].name, i);
      var r := Insert(rest, x);
      assert r == StopsSortedFrom(stops, i);
      InsertHasName(rest, x);
      InsertMembers(rest, x);
      forall e | e in r ensures SortedStopEntry(stops, i, e) {
        if e in rest {
          assert SortedStopEntry(stops, i + 1, e);
        } else {
          assert e == x && !HasName(rest, x.name);
          forall j | i < j < |stops| ensures stops[j].name != x.name {
            assert HasName(rest, stops[j].name);
          }
        }
      }
      forall j | i <= j < |stops| ensures HasName(r, stops[j].name) {
        if j > i {
          assert HasName(rest, stops[j].name);
          var k :| 0 <= k < |rest| && rest[k].name == stops[j].name;
          assert rest[k] in r;
          var m :| 0 <= m < |r| && r[m] == rest[k];
        }
      }
    }
  }

  /** An element of the sorted buses walked from `i`: a line with stops, the newest such line with its name. */
  ghost predicate SortedBusEntry(buses: seq<Bus>, i: nat, e: Named)
  {
    i <= e.id < |buses| && buses[e.id].name == e.name && |buses[e.id].stops| > 0
    && forall j :: e.id < j < |buses| && buses[j].name == e.name ==> |buses[j].stops| == 0
  }

  /** The sorted buses hold one line per name, the newest with stops, and every name of a line with stops. */
  lemma {:induction false} BusesSortedFromSpec(buses: seq<Bus>, i: nat)
    ensures forall e :: e in BusesSortedFrom(buses, i) ==> SortedBusEntry(buses, i, e)
    ensures forall j :: i <= j < |buses| && |buses[j].stops| > 0 ==> HasName(BusesSortedFrom(buses, i), buses[j].name)
    decreases |buses| - i
  {
    if i < |buses| {
      BusesSortedFromSpec(buses, i + 1);
      if |buses[i].stops| > 0 {
        BusesSortedInsertStep(buses, i, BusesSortedFrom(buses, i + 1));
      } else {
        var r := BusesSortedFrom(buses, i);
        assert r == BusesSortedFrom(buses, i + 1);
        forall e | e in r ensures SortedBusEntry(buses, i, e) {
          assert SortedBusEntry(buses, i + 1, e);
        }
      }
    }
  }

  /** One step of the walk that inserts line `i`, which has stops. */
  lemma BusesSortedInsertStep(buses: seq<Bus>, i: nat, rest: seq<Named>)
    requires i < |buses| && |buses[i].stops| > 0 && rest == BusesSortedFrom(buses, i + 1)
    requires forall e :: e in rest ==> SortedBusEntry(buses, i + 1, e)
    requires forall j :: i < j < |buses| && |buses[j].stops| > 0 ==> HasName(rest, buses[j].name)
    ensures forall e :: e in BusesSortedFrom(buses, i) ==> SortedBusEntry(buses, i, e)
    ensures forall j :: i <= j < |buses| && |buses[j].stops| > 0 ==> HasName(BusesSortedFrom(buses, i), buses[j].name)
  {
    var r := BusesSortedFrom(buses, i);
    var x := Named(buses[i].name, i);
    assert r == Insert(rest, x);
    InsertHasName(rest, x);
    InsertMembers(rest, x);
    forall e | e in r ensures SortedBusEntry(buses, i, e) {
      if e in rest {
        assert SortedBusEntry(buses, i + 1, e);
      } else {
        assert e == x && !HasName(rest, x.name);
        forall j | i < j < |buses| && buses[j].name == x.name ensures |buses[j].stops| == 0 {
          if |buses[j].stops| > 0 {
            assert false;
          }
        }
      }
    }
    forall j | i <= j < |buses| && |buses[j].stops| > 0 ensures HasName(r, buses[j].name) {
      if j > i {
        var k :| 0 <= k < |rest| && rest[k].name == buses[j].name;
        assert rest[k] in r;
        var m :| 0 <= m < |r| && r[m] == rest[k];
      }
    }
  }

  ghost predicate UniqueNames(stops: seq<Stop>)
  {
    forall p, q :: 0 <= p < q < |stops| ==> stops[p].name != stops[q].name
  }

  /** With no name added twice, the record at `i` is the only one with its name. */
  lemma NameNotYetSorted(stops: seq<Stop>, i: nat)
    requires UniqueNames(stops)
    requires i < |stops|
    ensures !HasName(StopsSortedFrom(stops, i + 1), stops[i].name)
  {
    StopsSortedFromSpec(stops, i + 1);
    var rest := StopsSortedFrom(stops, i + 1);
    forall k | 0 <= k < |rest| ensures rest[k].name != stops[i].name {
      assert rest[k] in rest;
      assert SortedStopEntry(stops, i + 1, rest[k]);
    }
  }

  /** With no name added twice, every walked record lands in the sorted stops. */
  lemma {:induction false} UniqueNamesSortedCount(stops: seq<Stop>, i: nat)
    requires UniqueNames(stops)
    requires i <= |stops|
    ensures |StopsSortedFrom(stops, i)| == |stops| - i
    decreases |stops| - i
  {
    if i < |stops| {
      UniqueNamesSortedCount(stops, i + 1);
      NameNotYetSorted(stops, i);
      InsertMembers(StopsSortedFrom(stops, i + 1), Named(stops[i].name, i));
    }
  }

  /** With no name added twice, the sorted stops are exactly the stored records, one each. */
  lemma {:induction false} UniqueNamesSortedStops(stops: seq<Stop>, i: nat)
    requires UniqueNames(stops)
    requires i <= |stops|
    ensures forall j :: i <= j < |stops| ==> Named(stops[j].name, j) in StopsSortedFrom(stops, i)
    decreases |stops| - i
  {
    if i < |stops| {
      UniqueNamesSortedStops(stops, i + 1);
      NameNotYetSorted(stops, i);
      var rest := StopsSortedFrom(stops, i + 1);
      var x := Named(stops[i].name, i);
      var r := Insert(rest, x);
      assert StopsSortedFrom(stops, i) == r;
      InsertMembers(rest, x);
    }
  }

  function BusesAt(index: map<StopId, seq<Named>>, stop: StopId): seq<Named>
  {
    if stop in index then index[stop] else []
  }

  /** The name index points every added name at the newest record with that name. */
  ghost predicate StopNamesIndexed(stops: seq<Stop>, index: map<string, StopId>)
  {
    && (forall name :: name in index ==> index[name] < |stops| && stops[index[name]].name == name)
    && (forall i :: 0 <= i < |stops| ==> stops[i].name in index && i <= index[stops[i].name])
  }

  /** The name-ordered stop set agrees with the name index: same names, same records. */
  lemma IndexedStopsSorted(stops: seq<Stop>, index: map<string, StopId>)
    requires StopNamesIndexed(stops, index)
    ensures forall e :: e in StopsSortedFrom(stops, 0) ==> e.id < |stops| && stops[e.id].name == e.name
    ensures forall e :: e in StopsSortedFrom(stops, 0) ==> e.name in index && index[e.name] == e.id
    ensures forall name :: name in index ==> HasName(StopsSortedFrom(stops, 0), name)
  {
    StopsSortedFromSpec(stops, 0);
    forall name | name in index ensures HasName(StopsSortedFrom(stops, 0), name) {
      assert stops[index[name]].name == name;
    }
  }

  ghost predicate BusNamesIndexed(buses: seq<Bus>, index: map<string, BusId>)
  {
    && (forall name :: name in index ==> index[name] < |buses| && buses[index[name]].name == name)
    && (forall i :: 0 <= i < |buses| ==> buses[i].name in index && i <= index[buses[i].name])
  }

  /**
   * The stop-to-buses index: each stop's set is ordered by line name, holds
   * only lines through the stop, and names every line through the stop.
   */
  ghost predicate StopToBusesIndexed(buses: seq<Bus>, index: map<StopId, seq<Named>>)
  {
    SetsSorted(index) && SetsHoldCallers(buses, index) && SetsCoverCallers(buses, index) && OldestKept(buses, index)
  }

  ghost predicate SetsSorted(index: map<StopId, seq<Named>>)
  {
    forall s :: s in index ==> SortedByName(index[s])
  }

  /** Every line in a stop's set is a stored line of that name calling at the stop. */
  ghost predicate SetsHoldCallers(buses: seq<Bus>, index: map<StopId, seq<Named>>)
  {
    forall s, e :: s in index && e in index[s] ==>
      e.id < |buses| && buses[e.id].name == e.name && s in buses[e.id].stops
  }

  /** Every line calling at a stop has its name in the stop's set. */
  ghost predicate SetsCoverCallers(buses: seq<Bus>, index: map<StopId, seq<Named>>)
  {
    forall b, s :: 0 <= b < |buses| && s in buses[b].stops ==> s in index && HasName(index[s], buses[b].name)
  }

  /**
   * `std::set::insert` keeps the element already there, so a stop's set holds
   * the oldest line of each name calling at the stop.
   */
  ghost predicate OldestKept(buses: seq<Bus>, index: map<StopId, seq<Named>>)
  {
    forall s, e, b :: s in index && e in index[s] && 0 <= b < e.id && b < |buses| && buses[b].name == e.name ==>
      s !in buses[b].stops
  }

  /** Pointing a line's name at the newly stored line keeps the name index right. */
  lemma BusNamesIndexedAfterAdd(buses: seq<Bus>, index: map<string, BusId>, bus: Bus)
    requires BusNamesIndexed(buses, index)
    ensures BusNamesIndexed(buses + [bus], index[bus.name := |buses|])
  {
  }

  /** The stop sets once the first `i` stops of a line have had it inserted. */
  ghost predicate InsertedUpTo(before: map<StopId, seq<Named>>, stops: seq<StopId>, i: nat, x: Named, index: map<StopId, seq<Named>>)
    requires i <= |stops|
  {
    && (forall s :: s in before ==> SortedByName(before[s]))
    && (forall s :: s in index ==> SortedByName(index[s]))
    && (forall s :: s in stops[..i] ==> s in index && index[s] == Insert(BusesAt(before, s), x))
    && (forall s :: s !in stops[..i] ==> (s in index <==> s in before) && BusesAt(index, s) == BusesAt(before, s))
  }

  /** The set of the stop being visited, before its insertion. */
  lemma InsertStepCurrent(before: map<StopId, seq<Named>>, stops: seq<StopId>, i: nat, x: Named, index: map<StopId, seq<Named>>)
    requires i < |stops|
    requires InsertedUpTo(before, stops, i, x, index)
    ensures SortedByName(BusesAt(index, stops[i]))
    ensures Insert(BusesAt(index, stops[i]), x) == Insert(BusesAt(before, stops[i]), x)
  {
    var s := stops[i];
    if s in stops[..i] {
      InsertHasName(BusesAt(before, s), x);
      InsertMembers(Insert(BusesAt(before, s), x), x);
    }
  }

  lemma InsertStepDone(before: map<StopId, seq<Named>>, stops: seq<StopId>, i: nat, x: Named,
                       index: map<StopId, seq<Named>>, index': map<StopId, seq<Named>>)
    requires i < |stops|
    requires InsertedUpTo(before, stops, i, x, index)
    requires index' == index[stops[i] := Insert(BusesAt(index, stops[i]), x)]
    ensures forall t :: t in stops[..i + 1] ==> t in index' && index'[t] == Insert(BusesAt(before, t), x)
  {
    InsertStepCurrent(before, stops, i, x, index);
    assert stops[..i + 1] == stops[..i] + [stops[i]];
  }

  lemma InsertStepRest(before: map<StopId, seq<Named>>, stops: seq<StopId>, i: nat, x: Named,
                       index: map<StopId, seq<Named>>, index': map<StopId, seq<Named>>)
    requires i < |stops|
    requires InsertedUpTo(before, stops, i, x, index)
    requires index' == index[stops[i] := Insert(BusesAt(index, stops[i]), x)]
    ensures forall t :: t in index' ==> SortedByName(index'[t])
    ensures forall t :: t !in stops[..i + 1] ==>
      (t in index' <==> t in before) && BusesAt(index', t) == BusesAt(before, t)
  {
    InsertStepCurrent(before, stops, i, x, index);
    assert stops[..i + 1] == stops[..i] + [stops[i]];
  }

  lemma InsertStep(before: map<StopId, seq<Named>>, stops: seq<StopId>, i: nat, x: Named, index: map<StopId, seq<Named>>)
    requires i < |stops|
    requires InsertedUpTo(before, stops, i, x, index)
    ensures SortedByName(BusesAt(index, stops[i]))
    ensures InsertedUpTo(before, stops, i + 1, x, index[stops[i] := Insert(BusesAt(index, stops[i]), x)])
  {
    InsertStepCurrent(before, stops, i, x, index);
    var index' := index[stops[i] := Insert(BusesAt(index, stops[i]), x)];
    InsertStepDone(before, stops, i, x, index, index');
    InsertStepRest(before, stops, i, x, index, index');
  }

  /** What `AddBus` does to the stop-to-buses index: the new line goes into the sets of exactly its stops. */
  ghost predicate InsertedAtStops(before: map<StopId, seq<Named>>, bus: Bus, x: Named, after: map<StopId, seq<Named>>)
    requires forall s :: s in before ==> SortedByName(before[s])
  {
    && (forall s :: s in bus.stops ==> s in after && after[s] == Insert(BusesAt(before, s), x))
    && (forall s :: s !in bus.stops ==> (s in after <==> s in before) && BusesAt(after, s) == BusesAt(before, s))
  }

  lemma AddBusKeepsSorted(before: map<StopId, seq<Named>>, bus: Bus, x: Named, after: map<StopId, seq<Named>>)
    requires forall s :: s in before ==> SortedByName(before[s])
    requires InsertedAtStops(before, bus, x, after)
    ensures SetsSorted(after)
  {
    forall s | s in after ensures SortedByName(after[s]) {
      if s !in bus.stops {
        assert after[s] == before[s];
      }
    }
  }

  lemma AddBusKeepsMembers(buses: seq<Bus>, before: map<StopId, seq<Named>>, bus: Bus, after: map<StopId, seq<Named>>, all: seq<Bus>)
    requires StopToBusesIndexed(buses, before)
    requires InsertedAtStops(before, bus, Named(bus.name, |buses|), after)
    requires all == buses + [bus]
    ensures SetsHoldCallers(all, after)
  {
    var x := Named(bus.name, |buses|);
    forall s, e | s in after && e in after[s]
      ensures e.id < |all| && all[e.id].name == e.name && s in all[e.id].stops
    {
      if s !in bus.stops {
        assert after[s] == before[s];
      } else if e != x {
        assert e in BusesAt(before, s);
      }
    }
  }

  lemma AddBusKeepsCoverage(buses: seq<Bus>, before: map<StopId, seq<Named>>, bus: Bus, after: map<StopId, seq<Named>>, all: seq<Bus>)
    requires StopToBusesIndexed(buses, before)
    requires InsertedAtStops(before, bus, Named(bus.name, |buses|), after)
    requires all == buses + [bus]
    ensures SetsCoverCallers(all, after)
  {
    var x := Named(bus.name, |buses|);
    forall b, s | 0 <= b < |all| && s in all[b].stops
      ensures s in after && HasName(after[s], all[b].name)
    {
      if b == |buses| {
        InsertHasName(BusesAt(before, s), x);
      } else if s !in bus.stops {
        assert after[s] == before[s];
      } else {
        assert s in buses[b].stops;
        InsertKeepsNames(BusesAt(before, s), x, buses[b].name);
      }
    }
  }

  /** Inserting a new line into the sets of exactly its stops keeps the index consistent. */
  lemma AddBusKeepsIndex(buses: seq<Bus>, before: map<StopId, seq<Named>>, bus: Bus, after: map<StopId, seq<Named>>)
    requires StopToBusesIndexed(buses, before)
    requires InsertedAtStops(before, bus, Named(bus.name, |buses|), after)
    ensures StopToBusesIndexed(buses + [bus], after)
  {
    var all := buses + [bus];
    AddBusKeepsSorted(before, bus, Named(bus.name, |buses|), after);
    AddBusKeepsMembers(buses, before, bus, after, all);
    AddBusKeepsCoverage(buses, before, bus, after, all);
    AddBusKeepsOldest(buses, before, bus, after, all);
  }

  lemma AddBusKeepsOldest(buses: seq<Bus>, before: map<StopId, seq<Named>>, bus: Bus, after: map<StopId, seq<Named>>, all: seq<Bus>)
    requires StopToBusesIndexed(buses, before)
    requires InsertedAtStops(before, bus, Named(bus.name, |buses|), after)
    requires all == buses + [bus]
    ensures OldestKept(all, after)
  {
    forall s, e, b | s in after && e in after[s] && 0 <= b < e.id && b < |all| && all[b].name == e.name
      ensures s !in all[b].stops
    {
      assert all[b] == buses[b];
      AddBusKeepsOldestAt(buses, before, bus, after, s, e, b);
    }
  }

  /** One entry of one stop's set after adding a line: no older line of its name calls there. */
  lemma AddBusKeepsOldestAt(buses: seq<Bus>, before: map<StopId, seq<Named>>, bus: Bus, after: map<StopId, seq<Named>>,
                            s: StopId, e: Named, b: nat)
    requires StopToBusesIndexed(buses, before)
    requires InsertedAtStops(before, bus, Named(bus.name, |buses|), after)
    requires s in after && e in after[s] && b < e.id && b < |buses| && buses[b].name == e.name
    ensures s !in buses[b].stops
  {
    var x := Named(bus.name, |buses|);
    var old_ := BusesAt(before, s);
    assert e in old_ || (e == x && !HasName(old_, x.name)) by {
      if s in bus.stops {
        InsertedIsOldOrNew(old_, x, e);
      }
    }
    if e in old_ {
      OldestKeptAt(buses, before, s, e, b);
    }
  }

  lemma OldestKeptAt(buses: seq<Bus>, index: map<StopId, seq<Named>>, s: StopId, e: Named, b: nat)
    requires OldestKept(buses, index)
    requires s in index && e in index[s] && b < e.id && b < |buses| && buses[b].name == e.name
    ensures s !in buses[b].stops
  {
  }

  /** An element of a set after an insertion was there before, or is the inserted one with a new name. */
  lemma InsertedIsOldOrNew(s: seq<Named>, x: Named, e: Named)
    requires SortedByName(s) && e in Insert(s, x)
    ensures e in s || (e == x && !HasName(s, x.name))
  {
    InsertMembers(s, x);
  }

  class TransportCatalogue {
    /** `stops_`: every stop record added, in order of addition. */
    var stops: seq<Stop>
    /** `stopname_to_stop_` */
    var stopNameToStop: map<string, StopId>
    /** `buses_`: every line added, in order of addition. */
    var buses: seq<Bus>
    /** `busname_to_bus_` */
    var busNameToBus: map<string, BusId>
    /** `stop_to_stop_distances_` */
    var distances: Distances
    /** `stop_to_buses_`: for a stop, the lines through it as a set ordered by line name. */
    var stopToBuses: map<StopId, seq<Named>>

    ghost predicate Valid()
      reads this
    {
      && StopNamesIndexed(stops, stopNameToStop)
      && BusNamesIndexed(buses, busNameToBus)
      && (forall b, s :: 0 <= b < |buses| && s in buses[b].stops ==> s < |stops|)
      && StopToBusesIndexed(buses, stopToBuses)
    }

    /** No stop name was added twice (what route building needs). */
    ghost predicate UniqueStopNames()
      reads this
    {
      UniqueNames(stops)
    }

    constructor ()
      ensures Valid()
      ensures stops == [] && buses == [] && distances == map[] && stopToBuses == map[]
      ensures stopNameToStop == map[] && busNameToBus == map[]
    {
      stops := [];
      stopNameToStop := map[];
      buses := [];
      busNameToBus := map[];
      distances := map[];
      stopToBuses := map[];
    }

    method AddStop(stop: Stop)
      requires Valid()
      modifies this
      ensures Valid()
      ensures stops == old(stops) + [stop]
      ensures stopNameToStop == old(stopNameToStop)[stop.name := |old(stops)|]
      ensures FindStop(stop.name) == Some(|old(stops)|)
      ensures buses == old(buses) && busNameToBus == old(busNameToBus)
      ensures distances == old(distances) && stopToBuses == old(stopToBuses)
    {
      stops := stops + [stop];
      stopNameToStop := stopNameToStop[stop.name := |stops| - 1];
    }

    /** `FindStop`: the newest record with that name, or none when the name was never added. */
    function FindStop(name: string): (r: Option<StopId>)
      requires Valid()
      reads this
      ensures r.Some? ==> r.value < |stops| && stops[r.value].name == name
      ensures r.Some? ==> forall j :: r.value < j < |stops| ==> stops[j].name != name
      ensures r.None? <==> forall j :: 0 <= j < |stops| ==> stops[j].name != name
    {
      if name in stopNameToStop then Some(stopNameToStop[name]) else None
    }

    /** `FindBus`: the newest line with that name, or none when the name was never added. */
    function FindBus(name: string): (r: Option<BusId>)
      requires Valid()
      reads this
      ensures r.Some? ==> r.value < |buses| && buses[r.value].name == name
      ensures r.Some? ==> forall j :: r.value < j < |buses| ==> buses[j].name != name
      ensures r.None? <==> forall j :: 0 <= j < |buses| ==> buses[j].name != name
    {
      if name in busNameToBus then Some(busNameToBus[name]) else None
    }

    /**
     * `AddBus`: stores the line, points its name at it, and inserts it into the
     * set of every stop it calls at; the sets of all other stops are untouched.
     */
    method AddBus(bus: Bus)
      requires Valid()
      requires forall s :: s in bus.stops ==> s < |stops|
      modifies this
      ensures Valid()
      ensures buses == old(buses) + [bus]
      ensures busNameToBus == old(busNameToBus)[bus.name := |old(buses)|]
      ensures FindBus(bus.name) == Some(|old(buses)|)
      ensures forall s :: s in bus.stops ==>
        s in stopToBuses && stopToBuses[s] == Insert(BusesAt(old(stopToBuses), s), Named(bus.name, |old(buses)|))
      ensures forall s :: s in bus.stops ==> HasName(stopToBuses[s], bus.name)
      ensures forall s :: s !in bus.stops ==>
        (s in stopToBuses <==> s in old(stopToBuses)) && BusesAt(stopToBuses, s) == BusesAt(old(stopToBuses), s)
      ensures stops == old(stops) && stopNameToStop == old(stopNameToStop) && distances == old(distances)
    {
      var id := |buses|;
      var x := Named(bus.name, id);
      var index := InsertAtStops(stopToBuses, bus.stops, x);
      assert InsertedAtStops(stopToBuses, bus, x, index);
      AddBusKeepsIndex(buses, stopToBuses, bus, index);
      BusNamesIndexedAfterAdd(buses, busNameToBus, bus);
      forall s | s in bus.stops ensures HasName(index[s], bus.name) {
        InsertHasName(BusesAt(stopToBuses, s), x);
      }
      buses := buses + [bus];
      busNameToBus := busNameToBus[bus.name := id];
      stopToBuses := index;
    }

    /**
     * The loop of `AddBus` over the line's stops: `stop_to_buses_[stop].insert(bus)`
     * for each stop, a stop met twice being inserted into once.
     */
    static method InsertAtStops(before: map<StopId, seq<Named>>, stops: seq<StopId>, x: Named)
      returns (index: map<StopId, seq<Named>>)
      requires forall s :: s in before ==> SortedByName(before[s])
      ensures forall s :: s in index ==> SortedByName(index[s])
      ensures forall s :: s in stops ==> s in index && index[s] == Insert(BusesAt(before, s), x)
      ensures forall s :: s !in stops ==> (s in index <==> s in before) && BusesAt(index, s) == BusesAt(before, s)
    {
      index := before;
      var i := 0;
      while i < |stops|
        invariant 0 <= i <= |stops|
        invariant InsertedUpTo(before, stops, i, x, index)
      {
        InsertStep(before, stops, i, x, index);
        index := index[stops[i] := Insert(BusesAt(index, stops[i]), x)];
        i := i + 1;
      }
      assert stops[..i] == stops;
    }

    /** `SetDistanceBetweenStops`: overwrites the (from, to) entry only. */
    method SetDistanceBetweenStops(from: StopId, to: StopId, distance: int)
      requires Valid()
      modifies this
      ensures Valid()
      ensures distances == old(distances)[(from, to) := distance]
      ensures DistanceBetweenStops(distances, from, to) == distance
      ensures stops == old(stops) && stopNameToStop == old(stopNameToStop)
      ensures buses == old(buses) && busNameToBus == old(busNameToBus) && stopToBuses == old(stopToBuses)
    {
      distances := distances[(from, to) := distance];
    }

    /**
     * `GetBusInfo`: an absent line is an `invalid_argument`; otherwise the
     * statistics of the line (which must have at least one stop: the source
     * reads `stops.back()` and counts down from `size() - 1`).
     */
    method GetBusInfo(bus: Option<BusId>) returns (r: Result<BusInfo, Error>)
      requires bus.Some? ==> bus.value < |buses| && |buses[bus.value].stops| > 0
      ensures bus.None? <==> r.Failure?
      ensures bus.Some? ==> r == Success(BusStatistics(distances, buses[bus.value]))
    {
      if bus.None? {
        return Failure(InvalidArgument("Bus not found"));
      }
      var line := buses[bus.value];
      var uniqueStops, routeLength := ForwardPass(distances, line.stops);
      if !line.isRoundtrip {
        var back := ReturnPass(distances, line.stops);
        routeLength := routeLength + back;
      }
      var n := |line.stops|;
      var stopCount := if line.isRoundtrip then n else n * 2 - 1;
      r := Success(BusInfo(stopCount, |uniqueStops|, routeLength));
    }

    /** The first loop of `GetBusInfo`: the distinct stops and the forward route length. */
    static method ForwardPass(d: Distances, s: seq<StopId>) returns (uniqueStops: set<StopId>, routeLength: int)
      requires |s| > 0
      ensures uniqueStops == Elements(s)
      ensures routeLength == PathLength(d, s)
    {
      var n := |s|;
      uniqueStops := {};
      routeLength := 0;
      var i := 0;
      while i < n - 1
        invariant 0 <= i <= n - 1
        invariant uniqueStops == Elements(s[..i])
        invariant routeLength == PathLength(d, s[..i + 1])
      {
        PrefixStep(d, s, i);
        uniqueStops := uniqueStops + {s[i]};
        routeLength := routeLength + DistanceBetweenStops(d, s[i], s[i + 1]);
        i := i + 1;
      }
      PrefixStep(d, s, n - 1);
      assert s[..n] == s;
      uniqueStops := uniqueStops + {s[n - 1]};
    }

    /** The second loop of `GetBusInfo` (non-circular lines): the way back from the last stop. */
    static method ReturnPass(d: Distances, s: seq<StopId>) returns (routeLength: int)
      requires |s| > 0
      ensures routeLength == ReturnLength(d, s, 0)
    {
      routeLength := 0;
      var k := |s| - 1;
      while k > 0
        invariant 0 <= k <= |s| - 1
        invariant routeLength == ReturnLength(d, s, k)
      {
        routeLength := routeLength + DistanceBetweenStops(d, s[k], s[k - 1]);
        k := k - 1;
      }
    }

    /**
     * `GetStopToBuses`: an absent stop is an `invalid_argument`; otherwise the
     * lines through the stop ordered by name, empty when none serves it.
     */
    function GetStopToBuses(stop: Option<StopId>): (r: Result<seq<Named>, Error>)
      requires Valid()
      reads this
      ensures stop.None? <==> r.Failure?
      ensures r.Success? ==> SortedByName(r.value)
      ensures r.Success? ==> forall e :: e in r.value ==>
        e.id < |buses| && buses[e.id].name == e.name && stop.value in buses[e.id].stops
      ensures r.Success? ==> forall b :: 0 <= b < |buses| && stop.value in buses[b].stops ==>
        HasName(r.value, buses[b].name)
      ensures r.Success? ==> (r.value == [] <==> forall b :: 0 <= b < |buses| ==> stop.value !in buses[b].stops)
      ensures r.Success? ==> forall e, b :: e in r.value && 0 <= b < e.id && buses[b].name == e.name ==>
        stop.value !in buses[b].stops
    {
      if stop.None? then Failure(InvalidArgument("Stop not found"))
      else if stop.value in stopToBuses then
        var set_ := stopToBuses[stop.value];
        assert set_ != [] ==> set_[0] in set_;
        Success(set_)
      else Success([])
    }

    /** `GetBusesSortedByName`: one line per name, ordered by name, only lines with stops, the newest such line. */
    method GetBusesSortedByName() returns (r: seq<Named>)
      ensures r == BusesSortedFrom(buses, 0)
      ensures SortedByName(r)
      ensures forall e :: e in r ==> e.id < |buses| && buses[e.id].name == e.name && |buses[e.id].stops| > 0
      ensures forall j :: 0 <= j < |buses| && |buses[j].stops| > 0 ==> HasName(r, buses[j].name)
    {
      r := [];
      var i := |buses|;
      while i > 0
        invariant 0 <= i <= |buses|
        invariant r == BusesSortedFrom(buses, i)
      {
        i := i - 1;
        if |buses[i].stops| > 0 {
          r := Insert(r, Named(buses[i].name, i));
        }
      }
      BusesSortedFromSpec(buses, 0);
    }

    /** `GetStopsSortedByName`: one stop per name, ordered by name, the one the name index points at. */
    method GetStopsSortedByName() returns (r: seq<Named>)
      requires StopNamesIndexed(stops, stopNameToStop)
      ensures r == StopsSortedFrom(stops, 0)
      ensures SortedByName(r)
      ensures forall e :: e in r ==> e.id < |stops| && stops[e.id].name == e.name
      ensures forall e :: e in r ==> e.name in stopNameToStop && stopNameToStop[e.name] == e.id
      ensures forall name :: name in stopNameToStop ==> HasName(r, name)
    {
      r := [];
      var i := |stops|;
      while i > 0
        invariant 0 <= i <= |stops|
        invariant r == StopsSortedFrom(stops, i)
      {
        i := i - 1;
        r := Insert(r, Named(stops[i].name, i));
      }
      assert r == StopsSortedFrom(stops, 0);
      IndexedStopsSorted(stops, stopNameToStop);
    }
  }
}
