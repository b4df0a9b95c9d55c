/**
 * The domain records: stops, bus lines, line statistics, and the two
 * name comparators that order them.
 */
module Domain {
  import opened NameOrder

  /** Geographic position; only carried, never computed with here. */
  datatype Coordinates = Coordinates(lat: real, lng: real)

  datatype Stop = Stop(name: string, coordinates: Coordinates)

  /**
   * A handle standing for `const Stop*`: the position of the record in the
   * catalogue's stop storage. `BusId` stands for `const Bus*` likewise.
   */
  type StopId = nat
  type BusId = nat

  /** A line: its stops in route order (repeats allowed) and whether it is circular. */
  datatype Bus = Bus(name: string, stops: seq<StopId>, isRoundtrip: bool)

  /** Line statistics without the curvature. */
  datatype BusInfo = BusInfo(stopCount: nat, uniqueStopCount: nat, routeLength: int)

  /** `BusComparator`: buses ordered by name only. */
  predicate BusLess(lhs: Bus, rhs: Bus)
  {
    Less(lhs.name, rhs.name)
  }

  /** `StopComparator`: stops ordered by name only. */
  predicate StopLess(lhs: Stop, rhs: Stop)
  {
    Less(lhs.name, rhs.name)
  }

  /**
   * `BusComparator` is a strict weak order whose equivalence classes are the
   * names: a set keyed by it holds at most one bus per name.
   */
  lemma BusComparatorIsStrictOrder(a: Bus, b: Bus, c: Bus)
    ensures !BusLess(a, a)
    ensures BusLess(a, b) && BusLess(b, c) ==> BusLess(a, c)
    ensures (!BusLess(a, b) && !BusLess(b, a)) <==> a.name == b.name
  {
    LessIrreflexive(a.name);
    if BusLess(a, b) && BusLess(b, c) {
      LessTransitive(a.name, b.name, c.name);
    }
    if a.name != b.name {
      LessTotal(a.name, b.name);
    }
  }

  /** `StopComparator` likewise: equivalent stops are exactly the stops with equal names. */
  lemma StopComparatorIsStrictOrder(a: Stop, b: Stop, c: Stop)
    ensures !StopLess(a, a)
    ensures StopLess(a, b) && StopLess(b, c) ==> StopLess(a, c)
    ensures (!StopLess(a, b) && !StopLess(b, a)) <==> a.name == b.name
  {
    LessIrreflexive(a.name);
    if StopLess(a, b) && StopLess(b, c) {
      LessTransitive(a.name, b.name, c.name);
    }
    if a.name != b.name {
      LessTotal(a.name, b.name);
    }
  }
}
