/**
 * Route topology: lines and their stops (`entities/transit/`). `BusLine` and
 * `SubwayLine` differ only in the element type of their route array, so one
 * class with a kind tag models both; `BusStop` and `SubwayStation` add nothing
 * to `TransitStop`. Map coordinates and colours serve rendering only and are not
 * modelled.
 */
module Topology {
  import opened Wrappers
  import Seqs

  datatype LineKind = Bus | Subway

  /** `TransitStop`: a named stop with a fixed back-reference to its line. */
  class TransitStop {
    const name: string
    const line: TransitLine

    /** `new TransitStop(name, line)`: `getName` and `getLine` give back exactly these. */
    constructor (name: string, line: TransitLine)
      ensures this.name == name && this.line == line
    {
      this.name := name;
      this.line := line;
    }

    /** `canTransferTo`: same stop name, different line object. */
    predicate CanTransferTo(candidate: TransitStop)
      ensures CanTransferTo(candidate) ==> this != candidate && name == candidate.name
      ensures line == candidate.line ==> !CanTransferTo(candidate)
    {
      name == candidate.name && line != candidate.line
    }
  }

  /** The transfer rule is symmetric and never holds within one line, so never from a stop to itself. */
  lemma TransferRule(a: TransitStop, b: TransitStop)
    ensures a.CanTransferTo(b) == b.CanTransferTo(a)
    ensures a.line == b.line ==> !a.CanTransferTo(b)
    ensures !a.CanTransferTo(a)
    ensures a.CanTransferTo(b) ==> a != b && a.name == b.name
  {
  }

  /** The index of the first stop of `route` named `target`, or `|route|` when there is none. */
  function NameIndex(route: seq<TransitStop>, target: string): (i: nat)
    ensures i <= |route|
    ensures i < |route| ==> route[i].name == target
    ensures forall k :: 0 <= k < i ==> route[k].name != target
  {
    if route == [] then 0
    else if route[0].name == target then 0
    else
      var i := 1 + NameIndex(route[1..], target);
      assert forall k :: 1 <= k < |route| ==> route[k] == route[1..][k - 1];
      i
  }

  /** The first stop of `route` named `target`, or `None` (Java's `null`). */
  function FirstNamed(route: seq<TransitStop>, target: string): (r: Option<TransitStop>)
    ensures r.None? <==> forall k :: 0 <= k < |route| ==> route[k].name != target
    ensures r.Some? ==> r.value in route && r.value.name == target
    ensures r.Some? ==> r.value == route[NameIndex(route, target)]
  {
    var i := NameIndex(route, target);
    if i < |route| then Some(route[i]) else None
  }

  /**
   * What `getDistTraveled` counts on `route`: the stops after the first
   * occurrence of `start` up to and including the first occurrence of `end`;
   * 0 when `start` does not come before `end`.
   */
  function Distance(route: seq<TransitStop>, start: TransitStop, end: TransitStop): (r: nat)
    ensures r > 0 ==> start in route && start != end
    ensures end in route ==> r < |route|
  {
    var i, j := Seqs.IndexOf(route, start), Seqs.IndexOf(route, end);
    if i < j then j - i else 0
  }

  /** On a route without repeated stops, the distance from the i-th to the j-th stop is j - i when i < j, else 0. */
  lemma DistanceByPosition(route: seq<TransitStop>, i: nat, j: nat)
    requires forall a, b :: 0 <= a < b < |route| ==> route[a] != route[b]
    requires i < |route| && j < |route|
    ensures Distance(route, route[i], route[j]) == if i < j then j - i else 0
  {
  }

  /** The distance to a stop on the route is below the number of stops; from a stop to itself it is 0. */
  lemma DistanceBounds(route: seq<TransitStop>, start: TransitStop, end: TransitStop)
    requires end in route
    ensures Distance(route, start, end) <= |route| - 1
    ensures Distance(route, end, end) == 0
  {
  }

  /** `TransitLine` with its `BusLine`/`SubwayLine` route. */
  class TransitLine {
    const name: string
    const kind: LineKind
    var stops: seq<TransitStop>
    /** The route array is `null` until `setRoute` is called. */
    var routeSet: bool

    /** `new BusLine(name)` or `new SubwayLine(name)`: named, with no route yet. */
    constructor (name: string, kind: LineKind)
      ensures this.name == name && this.kind == kind
      ensures !routeSet && stops == []
    {
      this.name := name;
      this.kind := kind;
      stops := [];
      routeSet := false;
    }

    /** `setRoute(stops)`: from now on `getStops()` returns exactly `route`. */
    method SetRoute(route: seq<TransitStop>)
      modifies this
      ensures routeSet && stops == route
    {
      stops := route;
      routeSet := true;
    }

    /** `findStopOnLine(targetName)`: the first stop on the route with that name, or `None`. */
    method FindStopOnLine(targetName: string) returns (r: Option<TransitStop>)
      requires routeSet
      ensures r == FirstNamed(stops, targetName)
    {
      var i := 0;
      while i < |stops|
        invariant 0 <= i <= |stops|
        invariant forall k :: 0 <= k < i ==> stops[k].name != targetName
      {
        if stops[i].name == targetName {
          return Some(stops[i]);
        }
        i := i + 1;
      }
      return None;
    }

    /**
     * `getDistTraveled(start, end)`: 0 when either stop belongs to another line;
     * otherwise the walk along the route stops at `end`, which must therefore be on
     * the route, and counts the stops after `start` up to and including `end`.
     */
    method DistTraveled(start: TransitStop, end: TransitStop) returns (count: nat)
      requires start.line == this && end.line == this ==> routeSet && end in stops
      ensures start.line != this || end.line != this ==> count == 0
      ensures start.line == this && end.line == this ==> count == Distance(stops, start, end)
    {
      if start.line != this || end.line != this {
        return 0;
      }
      count := 0;
      var foundStart := false;
      var i := 0;
      var route := stops;
      ghost var s, e := Seqs.IndexOf(route, start), Seqs.IndexOf(route, end);
      while route[i] != end
        invariant 0 <= i <= e < |route|
        invariant foundStart <==> s < i
        invariant count == if s < i then i - s else 0
        decreases e - i
      {
        if route[i] == start {
          foundStart := true;
        }
        i := i + 1;
        if foundStart {
          count := count + 1;
        }
      }
    }
  }
}
