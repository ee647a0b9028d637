/**
 * The route builder of `calculate_route` (backend/main.py): endpoint lookup,
 * detour insertion, diversion subdivision, segment classification and totals.
 * Airspace geometry and the elevation service are oracles given as parameters.
 */
module Route {
  import opened Wrappers
  import opened Lists
  import opened Geo
  import opened Airports

  /** The request body of `POST /route`. */
  datatype RouteRequest = RouteRequest(
    origin: string,
    destination: string,
    speed: real,
    speedUnit: string,        // defaults to "knots"
    altitude: int,
    avoidAirspaces: bool,
    avoidTerrain: bool,
    maxLegDistance: real)     // defaults to 150.0 nm

  datatype SegmentKind = Climb | Cruise | Descent | Airspace | Terrain

  datatype Segment = Segment(start: Point, end: Point, kind: SegmentKind)

  datatype RouteResponse =
    | RouteError(message: string)
    | Planned(
        route: seq<string>,
        distanceNm: real,
        timeHr: real,
        overflownAirports: seq<string>,
        originCoords: Point,
        destinationCoords: Point,
        overflownCoords: seq<Point>,
        overflownNames: seq<string>,
        segments: seq<Segment>)

  const DetourName := "DETOUR"
  const InvalidEndpointMessage := "Invalid origin or destination ICAO code"
  const KnotsPerMph: real := 0.868976

  // ---------------------------------------------------------------- speed and time

  /** The requested speed in knots: only the unit "mph" is converted. */
  function SpeedInKnots(speed: real, unit: string): real {
    if unit == "mph" then speed * KnotsPerMph else speed
  }

  /** Travel time: the distance over the speed, or 0 for a zero speed. */
  function TravelTime(distance: real, speed: real): (hours: real)
    ensures speed != 0.0 ==> hours * speed == distance
    ensures speed == 0.0 ==> hours == 0.0
  {
    if speed != 0.0 then distance / speed else 0.0
  }

  // ---------------------------------------------------------------- detours

  /** The airspace detour: the centroid of the largest intersected airspace, offset by 0.2 degrees each way. */
  function AirspaceDetour(centroid: Point): Point {
    Point(centroid.lat + 0.2, centroid.lon + 0.2)
  }

  /** The terrain detour: the route midpoint moved 0.2 degrees north. */
  function TerrainDetour(origin: Point, destination: Point): Point {
    var mid := Midpoint(origin, destination);
    Point(mid.lat + 0.2, mid.lon)
  }

  /** The terrain test: a known (nonzero) elevation above 1000 ft below a nonzero cruise altitude. */
  predicate TerrainTooHigh(elevation: real, altitude: int) {
    elevation != 0.0 && altitude != 0 && elevation > (altitude - 1000) as real
  }

  /** `insert(1, x)` on the two-point direct route. */
  function InsertTwo<T>(s: seq<T>, x: T): (r: seq<T>)
    requires |s| == 2
    ensures r == [s[0], x, s[1]]
  {
    assert s[..1] == [s[0]] && s[1..] == [s[1]];
    InsertAt(s, 1, x)
  }

  /**
   * The route after the two avoidance steps, as a function of the request and the oracles: the
   * airspace detour takes precedence over the terrain detour, and at most one is inserted.
   */
  function DetourRoute(origin: Point, destination: Point, originName: string, destinationName: string,
                       avoidAirspaces: bool, avoidTerrain: bool, altitude: int,
                       airspaceCentroid: (Point, Point) -> Option<Point>, elevationAt: Point -> real)
    : (r: (seq<Point>, seq<string>))
    ensures |r.0| == |r.1| >= 2
    ensures r.0[0] == origin && r.0[|r.0| - 1] == destination
    ensures r.1[0] == originName && r.1[|r.1| - 1] == destinationName
  {
    if avoidAirspaces && airspaceCentroid(origin, destination).Some? then
      ([origin, AirspaceDetour(airspaceCentroid(origin, destination).value), destination],
       [originName, DetourName, destinationName])
    else if avoidTerrain && TerrainTooHigh(elevationAt(Midpoint(origin, destination)), altitude) then
      ([origin, TerrainDetour(origin, destination), destination], [originName, DetourName, destinationName])
    else
      ([origin, destination], [originName, destinationName])
  }

  /**
   * The two avoidance steps. `airspaceCentroid(a, b)` is the centroid of the
   * largest airspace the line a-b intersects (None when it meets none);
   * `elevationAt(p)` is the elevation the terrain service reports at p (0 when
   * the call fails).
   */
  method ApplyDetours(origin: Point, destination: Point, originName: string, destinationName: string,
                      avoidAirspaces: bool, avoidTerrain: bool, altitude: int,
                      airspaceCentroid: (Point, Point) -> Option<Point>, elevationAt: Point -> real)
    returns (points: seq<Point>, names: seq<string>, detourAdded: bool)
    // only the airspace branch sets the flag
    ensures detourAdded <==> avoidAirspaces && airspaceCentroid(origin, destination).Some?
    ensures detourAdded ==>
              && points == [origin, AirspaceDetour(airspaceCentroid(origin, destination).value), destination]
              && names == [originName, DetourName, destinationName]
    // the terrain detour only when the airspace one was not added
    ensures !detourAdded && avoidTerrain && TerrainTooHigh(elevationAt(Midpoint(origin, destination)), altitude) ==>
              && points == [origin, TerrainDetour(origin, destination), destination]
              && names == [originName, DetourName, destinationName]
    ensures !detourAdded && !(avoidTerrain && TerrainTooHigh(elevationAt(Midpoint(origin, destination)), altitude)) ==>
              points == [origin, destination] && names == [originName, destinationName]
    ensures (points, names) == DetourRoute(origin, destination, originName, destinationName,
                                           avoidAirspaces, avoidTerrain, altitude, airspaceCentroid, elevationAt)
  {
    points := [origin, destination];
    names := [originName, destinationName];
    detourAdded := false;
    if avoidAirspaces {
      var centroid := airspaceCentroid(points[0], points[1]);
      if centroid.Some? {
        points := InsertTwo(points, AirspaceDetour(centroid.value));
        names := InsertTwo(names, DetourName);
        detourAdded := true;
      }
    }
    if avoidTerrain {
      assert points[0] == origin && points[|points| - 1] == destination;
      var mid := Midpoint(points[0], points[|points| - 1]);
      assert mid == Midpoint(origin, destination);
      var elev := elevationAt(mid);
      if TerrainTooHigh(elev, altitude) {
        var detour := Point(mid.lat + 0.2, mid.lon);
        assert detour == TerrainDetour(origin, destination);
        if !detourAdded {
          points := InsertTwo(points, detour);
          names := InsertTwo(names, DetourName);
        }
      }
    }
  }

  // ---------------------------------------------------------------- diversions

  /** Every leg is short enough, or no airport is left to split it with. */
  ghost predicate LegsBounded(points: seq<Point>, upTo: int, maxLeg: real, rows: seq<AirportRow>,
                              exclude: set<string>, dist: DistFn)
    requires upTo < |points|
  {
    forall j :: 0 <= j < upTo ==> dist(points[j], points[j + 1]) <= maxLeg || Exhausted(rows, exclude)
  }

  /** `k`-th overflown airport came from row `chosen[k]`, a candidate not among the endpoints. */
  ghost predicate ChosenRows(rows: seq<AirportRow>, endpoints: set<string>, chosen: seq<nat>,
                             airports: seq<string>, coords: seq<Point>, names: seq<string>)
    requires |chosen| == |airports| == |coords| == |names|
  {
    forall k {:trigger chosen[k]} :: 0 <= k < |chosen| ==>
      && chosen[k] < |rows|
      && Eligible(rows[chosen[k]], endpoints)
      && airports[k] == rows[chosen[k]].ident
      && coords[k] == Position(rows[chosen[k]])
      && Lookup(rows, airports[k]).Some? && names[k] == Lookup(rows, airports[k]).value.name
  }

  /** `positions` places the original points, in order, inside the new route. */
  ghost predicate Embeds(positions: seq<nat>, points0: seq<Point>, names0: seq<string>,
                         points: seq<Point>, names: seq<string>)
    requires |points| == |names|
  {
    && |positions| == |points0| == |names0|
    && (forall k {:trigger positions[k]} :: 0 <= k < |positions| ==> positions[k] < |points|)
    && (forall k, l {:trigger positions[k], positions[l]} :: 0 <= k < l < |positions| ==> positions[k] < positions[l])
    && (forall k {:trigger positions[k]} :: 0 <= k < |positions| ==>
          points[positions[k]] == points0[k] && names[positions[k]] == names0[k])
  }

  /** The positions after inserting at index `j`. */
  function Shifted(positions: seq<nat>, j: nat): (r: seq<nat>)
    ensures |r| == |positions|
    ensures forall k {:trigger r[k]} :: 0 <= k < |r| ==> r[k] == if positions[k] < j then positions[k] else positions[k] + 1
  {
    seq(|positions|, k requires 0 <= k < |positions| => if positions[k] < j then positions[k] else positions[k] + 1)
  }

  lemma EmbedsInsert(positions: seq<nat>, points0: seq<Point>, names0: seq<string>,
                     points: seq<Point>, names: seq<string>, j: nat, p: Point, n: string)
    requires |points| == |names| && 0 < j < |points|
    requires Embeds(positions, points0, names0, points, names)
    ensures Embeds(Shifted(positions, j), points0, names0, InsertAt(points, j, p), InsertAt(names, j, n))
  {
  }

  function Endpoints(names0: seq<string>): set<string>
    requires |names0| >= 1
  {
    {names0[0], names0[|names0| - 1]}
  }

  /** Every leg of `points` is at most `maxLeg` long. */
  ghost predicate AllLegsShort(points: seq<Point>, maxLeg: real, dist: DistFn) {
    forall j :: 0 <= j < |points| - 1 ==> dist(points[j], points[j + 1]) <= maxLeg
  }

  /**
   * The `k`-th overflown airport split the leg `legs[k]`: that leg was longer than `maxLeg`, and row
   * `chosen[k]` is what `find_nearest_airport` answers for its midpoint when the endpoints and the
   * airports overflown before it are excluded.
   */
  ghost predicate NearestSplits(rows: seq<AirportRow>, endpoints: set<string>, chosen: seq<nat>,
                                airports: seq<string>, legs: seq<(Point, Point)>, maxLeg: real, dist: DistFn)
    requires |chosen| == |airports| == |legs|
  {
    forall k {:trigger legs[k]} :: 0 <= k < |legs| ==>
      && dist(legs[k].0, legs[k].1) > maxLeg
      && NearestRow(rows, Midpoint(legs[k].0, legs[k].1), endpoints + Elements(airports[..k]), chosen[k], dist)
  }

  /** A route with a leg longer than `maxLeg` does not have only short legs. */
  lemma LongLegNotShort(points: seq<Point>, i: nat, maxLeg: real, dist: DistFn)
    requires i < |points| - 1 && dist(points[i], points[i + 1]) > maxLeg
    ensures !AllLegsShort(points, maxLeg, dist)
  {
  }

  /** Recording one more split keeps the record of earlier splits. */
  lemma NearestSplitsAppend(rows: seq<AirportRow>, endpoints: set<string>, chosen: seq<nat>,
                            airports: seq<string>, legs: seq<(Point, Point)>, maxLeg: real, dist: DistFn,
                            a: Point, b: Point, at: nat)
    requires |chosen| == |airports| == |legs|
    requires NearestSplits(rows, endpoints, chosen, airports, legs, maxLeg, dist)
    requires dist(a, b) > maxLeg && NearestRow(rows, Midpoint(a, b), endpoints + Elements(airports), at, dist)
    ensures NearestSplits(rows, endpoints, chosen + [at], airports + [rows[at].ident], legs + [(a, b)], maxLeg, dist)
  {
    var chosen', airports', legs' := chosen + [at], airports + [rows[at].ident], legs + [(a, b)];
    forall k | 0 <= k < |legs'|
      ensures dist(legs'[k].0, legs'[k].1) > maxLeg
      ensures NearestRow(rows, Midpoint(legs'[k].0, legs'[k].1), endpoints + Elements(airports'[..k]), chosen'[k], dist)
    {
      if k < |legs| {
        assert legs'[k] == legs[k] && chosen'[k] == chosen[k];
        assert airports'[..k] == airports[..k];
      } else {
        assert legs'[k] == (a, b) && chosen'[k] == at;
        assert airports'[..k] == airports;
      }
    }
  }

  /**
   * `after` is `before` with `p` inserted after its leg `s`, that leg is `leg`, and every leg before it was
   * checked; the names get `id` at the same index.
   */
  ghost predicate SplitStep(before: seq<Point>, beforeNames: seq<string>, s: nat, leg: (Point, Point), p: Point,
                            id: string, after: seq<Point>, afterNames: seq<string>,
                            maxLeg: real, rows: seq<AirportRow>, exclude: set<string>, dist: DistFn)
  {
    && s + 1 < |before| == |beforeNames|
    && leg == (before[s], before[s + 1])
    && after == InsertAt(before, s + 1, p)
    && afterNames == InsertAt(beforeNames, s + 1, id)
    && LegsBounded(before, s, maxLeg, rows, exclude, dist)
  }

  /**
   * The route before each split: `history[k]` and `nameHistory[k]` are the points and names when the
   * `k`-th airport was inserted after leg `splitAt[k]`, that leg is `legs[k]`, and every leg before it was
   * then short enough or no airport was left. The first entries are the starting route and the last the
   * current one.
   */
  ghost predicate SplitHistory(rows: seq<AirportRow>, endpoints: set<string>,
                               points0: seq<Point>, names0: seq<string>, points: seq<Point>, names: seq<string>,
                               airports: seq<string>, coords: seq<Point>, legs: seq<(Point, Point)>,
                               history: seq<seq<Point>>, nameHistory: seq<seq<string>>, splitAt: seq<nat>,
                               maxLeg: real, dist: DistFn)
  {
    && |history| == |nameHistory| == |airports| + 1 && |splitAt| == |airports| == |coords| == |legs|
    && history[0] == points0 && history[|airports|] == points
    && nameHistory[0] == names0 && nameHistory[|airports|] == names
    && forall k {:trigger splitAt[k]} :: 0 <= k < |splitAt| ==>
         SplitStep(history[k], nameHistory[k], splitAt[k], legs[k], coords[k], airports[k],
                   history[k + 1], nameHistory[k + 1], maxLeg, rows, endpoints + Elements(airports[..k]), dist)
  }

  /** Splitting leg `i` of the current route, with every leg before it checked, extends the history. */
  lemma SplitHistoryAppend(rows: seq<AirportRow>, endpoints: set<string>,
                           points0: seq<Point>, names0: seq<string>, points: seq<Point>, names: seq<string>,
                           airports: seq<string>, coords: seq<Point>, legs: seq<(Point, Point)>,
                           history: seq<seq<Point>>, nameHistory: seq<seq<string>>, splitAt: seq<nat>,
                           maxLeg: real, dist: DistFn, i: nat, p: Point, id: string)
    requires SplitHistory(rows, endpoints, points0, names0, points, names, airports, coords, legs,
                          history, nameHistory, splitAt, maxLeg, dist)
    requires i + 1 < |points| == |names| && LegsBounded(points, i, maxLeg, rows, endpoints + Elements(airports), dist)
    ensures SplitHistory(rows, endpoints, points0, names0, InsertAt(points, i + 1, p), InsertAt(names, i + 1, id),
                         airports + [id], coords + [p], legs + [(points[i], points[i + 1])],
                         history + [InsertAt(points, i + 1, p)], nameHistory + [InsertAt(names, i + 1, id)],
                         splitAt + [i], maxLeg, dist)
  {
    var n := |airports|;
    var airports', coords', legs' := airports + [id], coords + [p], legs + [(points[i], points[i + 1])];
    var history', nameHistory' := history + [InsertAt(points, i + 1, p)], nameHistory + [InsertAt(names, i + 1, id)];
    var splitAt' := splitAt + [i];
    forall k | 0 <= k < |splitAt'|
      ensures SplitStep(history'[k], nameHistory'[k], splitAt'[k], legs'[k], coords'[k], airports'[k],
                        history'[k + 1], nameHistory'[k + 1], maxLeg, rows, endpoints + Elements(airports'[..k]), dist)
    {
      if k < n {
        assert history'[k] == history[k] && history'[k + 1] == history[k + 1];
        assert nameHistory'[k] == nameHistory[k] && nameHistory'[k + 1] == nameHistory[k + 1];
        assert splitAt'[k] == splitAt[k] && legs'[k] == legs[k] && coords'[k] == coords[k];
        assert airports'[k] == airports[k] && airports'[..k] == airports[..k];
      } else {
        assert history'[k] == points && history'[k + 1] == InsertAt(points, i + 1, p);
        assert nameHistory'[k] == names && nameHistory'[k + 1] == InsertAt(names, i + 1, id);
        assert splitAt'[k] == i && coords'[k] == p && airports'[k] == id;
        assert airports'[..k] == airports;
      }
    }
  }

  /**
   * The record of splits fixes the route: two name lists with the same starting names, the same
   * point history, split indices and overflown airports are equal.
   */
  lemma SplitHistoryFixesNames(rows: seq<AirportRow>, endpoints: set<string>,
                                points0: seq<Point>, names0: seq<string>, points: seq<Point>,
                                names: seq<string>, names': seq<string>,
                                airports: seq<string>, coords: seq<Point>, legs: seq<(Point, Point)>,
                                history: seq<seq<Point>>, nameHistory: seq<seq<string>>,
                                nameHistory': seq<seq<string>>, splitAt: seq<nat>, maxLeg: real, dist: DistFn)
    requires SplitHistory(rows, endpoints, points0, names0, points, names, airports, coords, legs,
                          history, nameHistory, splitAt, maxLeg, dist)
    requires SplitHistory(rows, endpoints, points0, names0, points, names', airports, coords, legs,
                          history, nameHistory', splitAt, maxLeg, dist)
    ensures names == names'
  {
    var k := 0;
    while k < |airports|
      invariant 0 <= k <= |airports| && nameHistory[k] == nameHistory'[k]
    {
      assert SplitStep(history[k], nameHistory[k], splitAt[k], legs[k], coords[k], airports[k],
                       history[k + 1], nameHistory[k + 1], maxLeg, rows, endpoints + Elements(airports[..k]), dist);
      assert SplitStep(history[k], nameHistory'[k], splitAt[k], legs[k], coords[k], airports[k],
                       history[k + 1], nameHistory'[k + 1], maxLeg, rows, endpoints + Elements(airports[..k]), dist);
      k := k + 1;
    }
  }

  /** The lengths and the fixed first and last entries of the loop's lists. */
  ghost predicate ListShape(points0: seq<Point>, names0: seq<string>, points: seq<Point>, names: seq<string>,
                            airports: seq<string>, coords: seq<Point>, airportNames: seq<string>, chosen: seq<nat>)
  {
    && |points0| == |names0| >= 2
    && |points| == |names| == |points0| + |airports|
    && |airports| == |coords| == |airportNames| == |chosen|
    && points[0] == points0[0] && names[0] == names0[0]
    && points[|points| - 1] == points0[|points0| - 1] && names[|names| - 1] == names0[|names0| - 1]
  }

  /** Where the overflown airports come from, and which codes are excluded from the search. */
  ghost predicate Origins(rows: seq<AirportRow>, names0: seq<string>,
                          airports: seq<string>, coords: seq<Point>, airportNames: seq<string>,
                          exclude: set<string>, chosen: seq<nat>)
    requires |names0| >= 1 && |airports| == |coords| == |airportNames| == |chosen|
  {
    && exclude == Endpoints(names0) + Elements(airports)
    && ChosenRows(rows, Endpoints(names0), chosen, airports, coords, airportNames)
    && Distinct(airports)
  }

  /** The route is the original list with the overflown airports inserted, names and points kept aligned. */
  ghost predicate Order(points0: seq<Point>, names0: seq<string>, points: seq<Point>, names: seq<string>,
                        airports: seq<string>, coords: seq<Point>, positions: seq<nat>)
    requires |points0| == |names0| && |points| == |names| && |airports| == |coords|
  {
    && Embeds(positions, points0, names0, points, names)
    && multiset(names) == multiset(names0) + multiset(airports)
    && multiset(Zip(names, points)) == multiset(Zip(names0, points0)) + multiset(Zip(airports, coords))
  }

  /** What the diversion loop keeps true of its lists, apart from the leg bound. */
  ghost predicate Bookkeeping(rows: seq<AirportRow>, points0: seq<Point>, names0: seq<string>,
                              points: seq<Point>, names: seq<string>,
                              airports: seq<string>, coords: seq<Point>, airportNames: seq<string>,
                              exclude: set<string>, chosen: seq<nat>, positions: seq<nat>)
  {
    && ListShape(points0, names0, points, names, airports, coords, airportNames, chosen)
    && Origins(rows, names0, airports, coords, airportNames, exclude, chosen)
    && Order(points0, names0, points, names, airports, coords, positions)
  }

  /** One `continue` step of the diversion loop keeps the bookkeeping. */
  lemma BookkeepingInsert(rows: seq<AirportRow>, points0: seq<Point>, names0: seq<string>,
                          points: seq<Point>, names: seq<string>,
                          airports: seq<string>, coords: seq<Point>, airportNames: seq<string>,
                          exclude: set<string>, chosen: seq<nat>, positions: seq<nat>, i: nat, at: nat)
    requires Bookkeeping(rows, points0, names0, points, names, airports, coords, airportNames, exclude, chosen, positions)
    requires i < |points| - 1 && at < |rows| && Eligible(rows[at], exclude)
    ensures Lookup(rows, rows[at].ident).Some?
    ensures Bookkeeping(rows, points0, names0,
                        InsertAt(points, i + 1, Position(rows[at])), InsertAt(names, i + 1, rows[at].ident),
                        airports + [rows[at].ident], coords + [Position(rows[at])],
                        airportNames + [Lookup(rows, rows[at].ident).value.name],
                        exclude + {rows[at].ident}, chosen + [at], Shifted(positions, i + 1))
  {
    var id, p := rows[at].ident, Position(rows[at]);
    LookupFinds(rows, at);
    var name := Lookup(rows, id).value.name;
    ShapeInsert(points0, names0, points, names, airports, coords, airportNames, chosen, i + 1, p, id, name, at);
    OriginsInsert(rows, names0, airports, coords, airportNames, exclude, chosen, at);
    OrderInsert(points0, names0, points, names, airports, coords, positions, i + 1, p, id);
  }

  lemma ShapeInsert(points0: seq<Point>, names0: seq<string>, points: seq<Point>, names: seq<string>,
                    airports: seq<string>, coords: seq<Point>, airportNames: seq<string>, chosen: seq<nat>,
                    j: nat, p: Point, id: string, name: string, at: nat)
    requires ListShape(points0, names0, points, names, airports, coords, airportNames, chosen)
    requires 0 < j < |points|
    ensures ListShape(points0, names0, InsertAt(points, j, p), InsertAt(names, j, id),
                      airports + [id], coords + [p], airportNames + [name], chosen + [at])
  {
    var points', names' := InsertAt(points, j, p), InsertAt(names, j, id);
    assert points'[0] == points[0] && names'[0] == names[0];
    assert points'[|points'| - 1] == points[|points| - 1];
    assert names'[|names'| - 1] == names[|names| - 1];
  }

  lemma OriginsInsert(rows: seq<AirportRow>, names0: seq<string>,
                      airports: seq<string>, coords: seq<Point>, airportNames: seq<string>,
                      exclude: set<string>, chosen: seq<nat>, at: nat)
    requires |names0| >= 1 && |airports| == |coords| == |airportNames| == |chosen|
    requires Origins(rows, names0, airports, coords, airportNames, exclude, chosen)
    requires at < |rows| && Eligible(rows[at], exclude)
    requires Lookup(rows, rows[at].ident).Some?
    ensures Origins(rows, names0, airports + [rows[at].ident], coords + [Position(rows[at])],
                    airportNames + [Lookup(rows, rows[at].ident).value.name],
                    exclude + {rows[at].ident}, chosen + [at])
  {
    ChosenRowsAppend(rows, Endpoints(names0), chosen, airports, coords, airportNames, exclude, at);
    DistinctAppend(airports, rows[at].ident);
    ElementsAppend(airports, rows[at].ident);
  }

  lemma OrderInsert(points0: seq<Point>, names0: seq<string>, points: seq<Point>, names: seq<string>,
                    airports: seq<string>, coords: seq<Point>, positions: seq<nat>, j: nat, p: Point, id: string)
    requires |points0| == |names0| && |points| == |names| && |airports| == |coords| && 0 < j < |points|
    requires Order(points0, names0, points, names, airports, coords, positions)
    ensures Order(points0, names0, InsertAt(points, j, p), InsertAt(names, j, id),
                  airports + [id], coords + [p], Shifted(positions, j))
  {
    EmbedsInsert(positions, points0, names0, points, names, j, p, id);
    ZipMultisetInsert(names0, points0, names, points, airports, coords, j, id, p);
  }

  lemma LookupFinds(rows: seq<AirportRow>, at: nat)
    requires at < |rows|
    ensures Lookup(rows, rows[at].ident).Some?
  {
    LookupFindsFirst(rows, rows[at].ident);
  }

  lemma ChosenRowsAppend(rows: seq<AirportRow>, endpoints: set<string>, chosen: seq<nat>,
                         airports: seq<string>, coords: seq<Point>, airportNames: seq<string>,
                         exclude: set<string>, at: nat)
    requires |chosen| == |airports| == |coords| == |airportNames|
    requires ChosenRows(rows, endpoints, chosen, airports, coords, airportNames)
    requires at < |rows| && Eligible(rows[at], exclude) && endpoints <= exclude
    requires Lookup(rows, rows[at].ident).Some?
    ensures ChosenRows(rows, endpoints, chosen + [at], airports + [rows[at].ident], coords + [Position(rows[at])],
                       airportNames + [Lookup(rows, rows[at].ident).value.name])
  {
    var chosen', airports' := chosen + [at], airports + [rows[at].ident];
    var coords', names' := coords + [Position(rows[at])], airportNames + [Lookup(rows, rows[at].ident).value.name];
    forall k | 0 <= k < |chosen'|
      ensures chosen'[k] < |rows| && Eligible(rows[chosen'[k]], endpoints)
      ensures airports'[k] == rows[chosen'[k]].ident && coords'[k] == Position(rows[chosen'[k]])
      ensures Lookup(rows, airports'[k]).Some? && names'[k] == Lookup(rows, airports'[k]).value.name
    {
      if k < |chosen| {
        assert chosen'[k] == chosen[k] && airports'[k] == airports[k];
        assert coords'[k] == coords[k] && names'[k] == airportNames[k];
      } else {
        assert chosen'[k] == at && airports'[k] == rows[at].ident;
      }
    }
  }

  lemma DistinctAppend<T>(s: seq<T>, x: T)
    requires Distinct(s) && x !in s
    ensures Distinct(s + [x])
  {
  }

  lemma ElementsAppend<T>(s: seq<T>, x: T)
    ensures Elements(s + [x]) == Elements(s) + {x}
  {
  }

  lemma ZipMultisetInsert(names0: seq<string>, points0: seq<Point>, names: seq<string>, points: seq<Point>,
                          airports: seq<string>, coords: seq<Point>, j: nat, id: string, p: Point)
    requires |names0| == |points0| && |names| == |points| && |airports| == |coords| && j <= |names|
    requires multiset(Zip(names, points)) == multiset(Zip(names0, points0)) + multiset(Zip(airports, coords))
    ensures multiset(Zip(InsertAt(names, j, id), InsertAt(points, j, p)))
         == multiset(Zip(names0, points0)) + multiset(Zip(airports + [id], coords + [p]))
  {
    ZipInsertAt(names, points, j, id, p);
    ZipAppend(airports, coords, id, p);
  }

  /** The state before the first iteration: the lists as given, nothing overflown yet. */
  lemma BookkeepingInit(rows: seq<AirportRow>, points0: seq<Point>, names0: seq<string>, positions: seq<nat>)
    requires |points0| == |names0| >= 2
    requires positions == seq(|points0|, k requires 0 <= k < |points0| => k)
    ensures Bookkeeping(rows, points0, names0, points0, names0, [], [], [], Endpoints(names0), [], positions)
  {
    assert Elements<string>([]) == {};
    assert Zip<string, Point>([], []) == [];
  }

  /** Moving past a leg that is short enough, or that no airport was left for. */
  lemma LegsBoundedStep(points: seq<Point>, i: nat, maxLeg: real, rows: seq<AirportRow>,
                        exclude: set<string>, dist: DistFn)
    requires i < |points| - 1 && LegsBounded(points, i, maxLeg, rows, exclude, dist)
    requires dist(points[i], points[i + 1]) <= maxLeg || Exhausted(rows, exclude)
    ensures LegsBounded(points, i + 1, maxLeg, rows, exclude, dist)
  {
  }

  /** Each `continue` uses up one airport of the finite candidate pool. */
  lemma PoolShrinks(rows: seq<AirportRow>, exclude: set<string>, at: nat)
    requires at < |rows| && Eligible(rows[at], exclude)
    ensures |CandidatePool(rows) - (exclude + {rows[at].ident})| < |CandidatePool(rows) - exclude|
  {
    var id := rows[at].ident;
    assert id in CandidatePool(rows) - exclude;
    assert CandidatePool(rows) - (exclude + {id}) == (CandidatePool(rows) - exclude) - {id};
  }

  /** An insertion after the current leg leaves the legs already checked alone. */
  lemma LegsBoundedInsert(points: seq<Point>, i: nat, p: Point, maxLeg: real, rows: seq<AirportRow>,
                          exclude: set<string>, more: set<string>, dist: DistFn)
    requires i < |points| - 1 && LegsBounded(points, i, maxLeg, rows, exclude, dist) && exclude <= more
    ensures LegsBounded(InsertAt(points, i + 1, p), i, maxLeg, rows, more, dist)
  {
    var points' := InsertAt(points, i + 1, p);
    forall j | 0 <= j < i
      ensures dist(points'[j], points'[j + 1]) <= maxLeg || Exhausted(rows, more)
    {
      if !(dist(points[j], points[j + 1]) <= maxLeg) {
        ExhaustedGrows(rows, exclude, more);
      }
    }
  }

  /** One `continue` of the diversion loop keeps every loop invariant and uses up one candidate airport. */
  lemma DiversionStep(rows: seq<AirportRow>, points0: seq<Point>, names0: seq<string>,
                      points: seq<Point>, names: seq<string>,
                      airports: seq<string>, coords: seq<Point>, airportNames: seq<string>,
                      exclude: set<string>, chosen: seq<nat>, positions: seq<nat>, legs: seq<(Point, Point)>,
                      history: seq<seq<Point>>, nameHistory: seq<seq<string>>, splitAt: seq<nat>,
                      i: nat, maxLeg: real, dist: DistFn, at: nat)
    requires Bookkeeping(rows, points0, names0, points, names, airports, coords, airportNames, exclude, chosen, positions)
    requires i < |points| - 1 && LegsBounded(points, i, maxLeg, rows, exclude, dist)
    requires |legs| == |chosen| && NearestSplits(rows, Endpoints(names0), chosen, airports, legs, maxLeg, dist)
    requires SplitHistory(rows, Endpoints(names0), points0, names0, points, names, airports, coords, legs,
                          history, nameHistory, splitAt, maxLeg, dist)
    requires AllLegsShort(points0, maxLeg, dist) ==> points == points0
    requires dist(points[i], points[i + 1]) > maxLeg
    requires NearestRow(rows, Midpoint(points[i], points[i + 1]), exclude, at, dist)
    ensures Lookup(rows, rows[at].ident).Some?
    ensures Bookkeeping(rows, points0, names0,
                        InsertAt(points, i + 1, Position(rows[at])), InsertAt(names, i + 1, rows[at].ident),
                        airports + [rows[at].ident], coords + [Position(rows[at])],
                        airportNames + [Lookup(rows, rows[at].ident).value.name],
                        exclude + {rows[at].ident}, chosen + [at], Shifted(positions, i + 1))
    ensures LegsBounded(InsertAt(points, i + 1, Position(rows[at])), i, maxLeg, rows, exclude + {rows[at].ident}, dist)
    ensures NearestSplits(rows, Endpoints(names0), chosen + [at], airports + [rows[at].ident],
                          legs + [(points[i], points[i + 1])], maxLeg, dist)
    ensures SplitHistory(rows, Endpoints(names0), points0, names0,
                         InsertAt(points, i + 1, Position(rows[at])), InsertAt(names, i + 1, rows[at].ident),
                         airports + [rows[at].ident], coords + [Position(rows[at])],
                         legs + [(points[i], points[i + 1])], history + [InsertAt(points, i + 1, Position(rows[at]))],
                         nameHistory + [InsertAt(names, i + 1, rows[at].ident)], splitAt + [i], maxLeg, dist)
    ensures !AllLegsShort(points0, maxLeg, dist)
    ensures |CandidatePool(rows) - (exclude + {rows[at].ident})| < |CandidatePool(rows) - exclude|
  {
    BookkeepingInsert(rows, points0, names0, points, names, airports, coords, airportNames,
                      exclude, chosen, positions, i, at);
    PoolShrinks(rows, exclude, at);
    NearestSplitsAppend(rows, Endpoints(names0), chosen, airports, legs, maxLeg, dist, points[i], points[i + 1], at);
    LongLegNotShort(points, i, maxLeg, dist);
    LegsBoundedInsert(points, i, Position(rows[at]), maxLeg, rows, exclude, exclude + {rows[at].ident}, dist);
    assert exclude == Endpoints(names0) + Elements(airports);
    SplitHistoryAppend(rows, Endpoints(names0), points0, names0, points, names, airports, coords, legs,
                       history, nameHistory, splitAt, maxLeg, dist, i, Position(rows[at]), rows[at].ident);
  }

  /**
   * The diversion loop: any leg longer than `maxLeg` gets the nearest unused
   * eligible airport after its start, and the new (shorter or not) leg is
   * checked again without moving on.
   */
  method InsertDiversions(rows: seq<AirportRow>, points0: seq<Point>, names0: seq<string>, maxLeg: real, dist: DistFn)
    returns (points: seq<Point>, names: seq<string>,
             overflownAirports: seq<string>, overflownCoords: seq<Point>, overflownNames: seq<string>,
             exclude: set<string>, ghost chosen: seq<nat>, ghost positions: seq<nat>,
             ghost legs: seq<(Point, Point)>, ghost history: seq<seq<Point>>,
             ghost nameHistory: seq<seq<string>>, ghost splitAt: seq<nat>)
    requires |points0| == |names0| >= 2
    ensures Bookkeeping(rows, points0, names0, points, names, overflownAirports, overflownCoords, overflownNames,
                        exclude, chosen, positions)
    ensures LegsBounded(points, |points| - 1, maxLeg, rows, exclude, dist)
    // each airport went into a leg longer than `maxLeg`, and is the one nearest that leg's midpoint
    ensures |legs| == |chosen| && NearestSplits(rows, Endpoints(names0), chosen, overflownAirports, legs, maxLeg, dist)
    // ... and that leg was a leg of the route at the time, the first one still too long
    ensures SplitHistory(rows, Endpoints(names0), points0, names0, points, names, overflownAirports, overflownCoords,
                         legs, history, nameHistory, splitAt, maxLeg, dist)
    // a route with no long leg is left alone
    ensures AllLegsShort(points0, maxLeg, dist) ==> points == points0 && names == names0 && overflownAirports == []
  {
    points, names := points0, names0;
    overflownAirports, overflownCoords, overflownNames := [], [], [];
    exclude := {names0[0], names0[|names0| - 1]};
    chosen, legs, history, nameHistory, splitAt := [], [], [points0], [names0], [];
    positions := seq(|points0|, k requires 0 <= k < |points0| => k);
    BookkeepingInit(rows, points0, names0, positions);
    var i: nat := 0;
    while i < |points| - 1
      invariant Bookkeeping(rows, points0, names0, points, names, overflownAirports, overflownCoords, overflownNames,
                            exclude, chosen, positions)
      invariant 0 <= i < |points|
      invariant LegsBounded(points, i, maxLeg, rows, exclude, dist)
      invariant |legs| == |chosen| && NearestSplits(rows, Endpoints(names0), chosen, overflownAirports, legs, maxLeg, dist)
      invariant SplitHistory(rows, Endpoints(names0), points0, names0, points, names, overflownAirports,
                             overflownCoords, legs, history, nameHistory, splitAt, maxLeg, dist)
      invariant AllLegsShort(points0, maxLeg, dist) ==> points == points0 && names == names0 && overflownAirports == []
      decreases |CandidatePool(rows) - exclude|, |points| - i
    {
      var d := dist(points[i], points[i + 1]);
      if d > maxLeg {
        var mid := Midpoint(points[i], points[i + 1]);
        var nearest;
        ghost var at;
        nearest, at := FindNearestAirport(rows, mid, exclude, dist);
        if nearest.Some? {
          var c := nearest.value;
          DiversionStep(rows, points0, names0, points, names, overflownAirports, overflownCoords, overflownNames,
                        exclude, chosen, positions, legs, history, nameHistory, splitAt, i, maxLeg, dist, at);
          var row := Lookup(rows, c.ident);
          legs, splitAt := legs + [(points[i], points[i + 1])], splitAt + [i];
          history := history + [InsertAt(points, i + 1, c.position)];
          nameHistory := nameHistory + [InsertAt(names, i + 1, c.ident)];
          chosen, positions := chosen + [at], Shifted(positions, i + 1);
          points, names := InsertAt(points, i + 1, c.position), InsertAt(names, i + 1, c.ident);
          overflownAirports, overflownCoords := overflownAirports + [c.ident], overflownCoords + [c.position];
          overflownNames, exclude := overflownNames + [row.value.name], exclude + {c.ident};
          continue;
        }
      }
      LegsBoundedStep(points, i, maxLeg, rows, exclude, dist);
      i := i + 1;
    }
  }

  // ---------------------------------------------------------------- segments and totals

  /** The segment list: one per leg, the first `climb`, the last `descent`, the rest `cruise`. */
  method BuildSegments(points: seq<Point>, detourAdded: bool, avoidAirspaces: bool) returns (segments: seq<Segment>)
    requires |points| >= 2
    ensures |segments| == |points| - 1
    ensures forall k :: 0 <= k < |segments| ==> segments[k].start == points[k] && segments[k].end == points[k + 1]
    ensures segments[0].kind == if detourAdded then (if avoidAirspaces then Airspace else Terrain) else Climb
    ensures |segments| >= 2 ==> segments[|segments| - 1].kind == Descent
    ensures forall k :: 0 < k < |segments| - 1 ==> segments[k].kind == Cruise
  {
    segments := [];
    for i := 0 to |points| - 1
      invariant |segments| == i
      invariant forall k :: 0 <= k < i ==> segments[k].start == points[k] && segments[k].end == points[k + 1]
      invariant i > 0 ==> segments[0].kind == if detourAdded then (if avoidAirspaces then Airspace else Terrain) else Climb
      invariant forall k :: 0 < k < i ==> segments[k].kind == if k == |points| - 2 then Descent else Cruise
    {
      var kind := Cruise;
      if i == 0 {
        kind := Climb;
      } else if i == |points| - 2 {
        kind := Descent;
      }
      if detourAdded && i == 0 {
        kind := if avoidAirspaces then Airspace else Terrain;
      }
      segments := segments + [Segment(points[i], points[i + 1], kind)];
    }
  }

  /** Sum of `dist` over the segments, in order. */
  function SegmentsLength(segments: seq<Segment>, dist: DistFn): real
    decreases |segments|
  {
    if segments == [] then 0.0
    else SegmentsLength(segments[..|segments| - 1], dist) + dist(segments[|segments| - 1].start, segments[|segments| - 1].end)
  }

  /** The total over the segments is the path length over the points they join. */
  lemma {:induction false} SegmentsLengthIsPathLength(points: seq<Point>, segments: seq<Segment>, dist: DistFn)
    requires |points| >= 1 && |segments| == |points| - 1
    requires forall k :: 0 <= k < |segments| ==> segments[k].start == points[k] && segments[k].end == points[k + 1]
    ensures SegmentsLength(segments, dist) == PathLength(points, dist)
  {
    if segments != [] {
      SegmentsLengthIsPathLength(points[..|points| - 1], segments[..|segments| - 1], dist);
    }
  }

  /** The `total_dist` loop. */
  method TotalDistance(points: seq<Point>, dist: DistFn) returns (total: real)
    requires |points| >= 2
    ensures total == PathLength(points, dist)
  {
    total := 0.0;
    for i := 0 to |points| - 1
      invariant total == PathLength(points[..i + 1], dist)
    {
      assert points[..i + 2][..i + 1] == points[..i + 1];
      total := total + dist(points[i], points[i + 1]);
    }
    assert points[..|points|] == points;
  }

  // ---------------------------------------------------------------- the whole route

  /** The leg bound and reuse facts of the final route, seen through its segments. */
  ghost predicate SegmentLegsBounded(segments: seq<Segment>, maxLeg: real, rows: seq<AirportRow>,
                                     exclude: set<string>, dist: DistFn)
  {
    forall k :: 0 <= k < |segments| ==>
      dist(segments[k].start, segments[k].end) <= maxLeg || Exhausted(rows, exclude)
  }

  /** Every overflown airport is a valid ICAO code and neither endpoint. */
  lemma ChosenAreValid(rows: seq<AirportRow>, endpoints: set<string>, chosen: seq<nat>,
                       airports: seq<string>, coords: seq<Point>, names: seq<string>)
    requires |chosen| == |airports| == |coords| == |names|
    requires ChosenRows(rows, endpoints, chosen, airports, coords, names)
    ensures forall k :: 0 <= k < |airports| ==> IsValidIcao(airports[k]) && airports[k] !in endpoints
  {
    forall k | 0 <= k < |airports|
      ensures IsValidIcao(airports[k]) && airports[k] !in endpoints
    {
      assert Eligible(rows[chosen[k]], endpoints);
    }
  }

  /** The leg bound on the points carries over to the segments built on them. */
  lemma SegmentsInheritBound(points: seq<Point>, segments: seq<Segment>, maxLeg: real, rows: seq<AirportRow>,
                             exclude: set<string>, dist: DistFn)
    requires |segments| == |points| - 1
    requires forall k :: 0 <= k < |segments| ==> segments[k].start == points[k] && segments[k].end == points[k + 1]
    requires LegsBounded(points, |points| - 1, maxLeg, rows, exclude, dist)
    ensures SegmentLegsBounded(segments, maxLeg, rows, exclude, dist)
  {
    forall k | 0 <= k < |segments|
      ensures dist(segments[k].start, segments[k].end) <= maxLeg || Exhausted(rows, exclude)
    {
      assert segments[k].start == points[k] && segments[k].end == points[k + 1];
    }
  }

  /**
   * The final route is the route after the detour step with the overflown airports inserted: the
   * original entries keep their order, every name stays paired with its point, and each overflown
   * entry comes from the table.
   */
  ghost predicate Diverted(points: seq<Point>, names: seq<string>,
                           airports: seq<string>, coords: seq<Point>, airportNames: seq<string>,
                           rows: seq<AirportRow>, endpoints: set<string>,
                           initialPoints: seq<Point>, initialNames: seq<string>, maxLeg: real, dist: DistFn)
    requires |points| == |names| && |initialPoints| == |initialNames| && |airports| == |coords| == |airportNames|
  {
    && multiset(Zip(names, points)) == multiset(Zip(initialNames, initialPoints)) + multiset(Zip(airports, coords))
    && (exists positions :: Embeds(positions, initialPoints, initialNames, points, names))
    && (exists chosen, legs, history, nameHistory, splitAt ::
          Diversions(rows, endpoints, initialPoints, initialNames, points, names, airports, coords, airportNames,
                     chosen, legs, history, nameHistory, splitAt, maxLeg, dist))
    && (AllLegsShort(initialPoints, maxLeg, dist) ==> points == initialPoints && names == initialNames && airports == [])
  }

  /** `Diverted` from its witnesses: the loop's embedding, chosen rows, split legs and route history. */
  lemma DivertedIntro(points: seq<Point>, names: seq<string>,
                      airports: seq<string>, coords: seq<Point>, airportNames: seq<string>,
                      rows: seq<AirportRow>, endpoints: set<string>,
                      initialPoints: seq<Point>, initialNames: seq<string>, maxLeg: real, dist: DistFn,
                      positions: seq<nat>, chosen: seq<nat>, legs: seq<(Point, Point)>,
                      history: seq<seq<Point>>, nameHistory: seq<seq<string>>, splitAt: seq<nat>)
    requires |points| == |names| && |initialPoints| == |initialNames| && |airports| == |coords| == |airportNames|
    requires multiset(Zip(names, points)) == multiset(Zip(initialNames, initialPoints)) + multiset(Zip(airports, coords))
    requires Embeds(positions, initialPoints, initialNames, points, names)
    requires Diversions(rows, endpoints, initialPoints, initialNames, points, names, airports, coords, airportNames,
                        chosen, legs, history, nameHistory, splitAt, maxLeg, dist)
    requires AllLegsShort(initialPoints, maxLeg, dist) ==> points == initialPoints && names == initialNames && airports == []
    ensures Diverted(points, names, airports, coords, airportNames, rows, endpoints, initialPoints, initialNames, maxLeg, dist)
  {
  }

  /**
   * The overflown airports, each from table row `chosen[k]` with its position and table name, and
   * each the nearest eligible airport to the midpoint of the long leg `legs[k]` it split. That leg
   * was leg `splitAt[k]` of the route `history[k]` at the time, which runs from `initialPoints` to
   * `points` one insertion at a time; `nameHistory` does the same for the names, with each code
   * inserted at the same index as its point.
   */
  ghost predicate Diversions(rows: seq<AirportRow>, endpoints: set<string>,
                             initialPoints: seq<Point>, initialNames: seq<string>,
                             points: seq<Point>, routeNames: seq<string>,
                             airports: seq<string>, coords: seq<Point>, names: seq<string>,
                             chosen: seq<nat>, legs: seq<(Point, Point)>,
                             history: seq<seq<Point>>, nameHistory: seq<seq<string>>, splitAt: seq<nat>,
                             maxLeg: real, dist: DistFn)
  {
    && |chosen| == |legs| == |airports| == |coords| == |names|
    && ChosenRows(rows, endpoints, chosen, airports, coords, names)
    && NearestSplits(rows, endpoints, chosen, airports, legs, maxLeg, dist)
    && SplitHistory(rows, endpoints, initialPoints, initialNames, points, routeNames, airports, coords, legs,
                    history, nameHistory, splitAt, maxLeg, dist)
  }

  /**
   * Each diversion went into the first leg of the route at the time that was longer than `maxLeg`:
   * the airport found for it shows that the table was not exhausted, so every earlier leg was short.
   */
  lemma SplitIsFirstLongLeg(rows: seq<AirportRow>, endpoints: set<string>,
                            initialPoints: seq<Point>, initialNames: seq<string>,
                            points: seq<Point>, routeNames: seq<string>,
                            airports: seq<string>, coords: seq<Point>, names: seq<string>,
                            chosen: seq<nat>, legs: seq<(Point, Point)>,
                            history: seq<seq<Point>>, nameHistory: seq<seq<string>>, splitAt: seq<nat>,
                            maxLeg: real, dist: DistFn, k: nat)
    requires Diversions(rows, endpoints, initialPoints, initialNames, points, routeNames, airports, coords, names,
                        chosen, legs, history, nameHistory, splitAt, maxLeg, dist)
    requires k < |airports|
    ensures splitAt[k] + 1 < |history[k]|
    ensures dist(history[k][splitAt[k]], history[k][splitAt[k] + 1]) > maxLeg
    ensures forall j :: 0 <= j < splitAt[k] ==> dist(history[k][j], history[k][j + 1]) <= maxLeg
    ensures history[k + 1] == InsertAt(history[k], splitAt[k] + 1, coords[k])
    ensures |nameHistory[k]| == |history[k]|
    ensures nameHistory[k + 1] == InsertAt(nameHistory[k], splitAt[k] + 1, airports[k])
  {
    var exclude := endpoints + Elements(airports[..k]);
    assert SplitStep(history[k], nameHistory[k], splitAt[k], legs[k], coords[k], airports[k],
                     history[k + 1], nameHistory[k + 1], maxLeg, rows, exclude, dist);
    assert NearestRow(rows, Midpoint(legs[k].0, legs[k].1), exclude, chosen[k], dist);
    assert !Exhausted(rows, exclude) by {
      assert Eligible(rows[chosen[k]], exclude);
    }
    assert LegsBounded(history[k], splitAt[k], maxLeg, rows, exclude, dist);
  }

  /** No diversion is inserted into a route whose legs are all short enough: the loop stops there. */
  lemma DivertedRouteHadLongLeg(rows: seq<AirportRow>, endpoints: set<string>,
                                initialPoints: seq<Point>, initialNames: seq<string>,
                                points: seq<Point>, routeNames: seq<string>,
                                airports: seq<string>, coords: seq<Point>, names: seq<string>,
                                chosen: seq<nat>, legs: seq<(Point, Point)>,
                                history: seq<seq<Point>>, nameHistory: seq<seq<string>>, splitAt: seq<nat>,
                                maxLeg: real, dist: DistFn, k: nat)
    requires Diversions(rows, endpoints, initialPoints, initialNames, points, routeNames, airports, coords, names,
                        chosen, legs, history, nameHistory, splitAt, maxLeg, dist)
    requires k < |airports|
    ensures !AllLegsShort(history[k], maxLeg, dist)
  {
    SplitIsFirstLongLeg(rows, endpoints, initialPoints, initialNames, points, routeNames, airports, coords, names,
                        chosen, legs, history, nameHistory, splitAt, maxLeg, dist, k);
    LongLegNotShort(history[k], splitAt[k], maxLeg, dist);
  }

  /** The points a segment list passes through: every start, then the last end. */
  function Waypoints(segments: seq<Segment>): (r: seq<Point>)
    requires |segments| >= 1
    ensures |r| == |segments| + 1
    ensures forall k :: 0 <= k < |segments| ==> r[k] == segments[k].start
    ensures r[|segments|] == segments[|segments| - 1].end
  {
    seq(|segments|, k requires 0 <= k < |segments| => segments[k].start) + [segments[|segments| - 1].end]
  }

  /** Segments built on a list of points pass through exactly those points. */
  lemma WaypointsOfSegments(points: seq<Point>, segments: seq<Segment>)
    requires |segments| == |points| - 1 >= 1
    requires forall k :: 0 <= k < |segments| ==> segments[k].start == points[k] && segments[k].end == points[k + 1]
    ensures Waypoints(segments) == points
  {
    var w := Waypoints(segments);
    forall k | 0 <= k < |points|
      ensures w[k] == points[k]
    {
      if k == |segments| {
        assert segments[k - 1].end == points[k];
      }
    }
  }

  /** The `route` names and the `overflown_*` lists of a plan between `originName` and `destinationName`. */
  ghost predicate RouteNames(route: seq<string>, overflownAirports: seq<string>, overflownCoords: seq<Point>,
                             overflownNames: seq<string>, originName: string, destinationName: string)
  {
    // endpoints
    && |route| >= 2 && route[0] == originName && route[|route| - 1] == destinationName
    // names: the endpoints, at most one DETOUR, and the overflown airports
    && (|| multiset(route) == multiset([originName, destinationName]) + multiset(overflownAirports)
        || multiset(route) == multiset([originName, DetourName, destinationName]) + multiset(overflownAirports))
    // overflown airports: parallel lists, distinct, valid, never an endpoint
    && |overflownAirports| == |overflownCoords| == |overflownNames|
    && Distinct(overflownAirports)
    && (forall k :: 0 <= k < |overflownAirports| ==>
          && IsValidIcao(overflownAirports[k])
          && overflownAirports[k] != originName
          && overflownAirports[k] != destinationName)
  }

  /**
   * The waypoint part of `calculate_route`: the route starts as origin and destination, receives at
   * most one DETOUR point and then the diversion airports.
   */
  method PlanWaypoints(origin: Point, destination: Point, originName: string, destinationName: string,
                       req: RouteRequest, rows: seq<AirportRow>,
                       airspaceCentroid: (Point, Point) -> Option<Point>, elevationAt: Point -> real,
                       dist: DistFn)
    returns (points: seq<Point>, names: seq<string>, detourAdded: bool,
             overflownAirports: seq<string>, overflownCoords: seq<Point>, overflownNames: seq<string>,
             exclude: set<string>)
    ensures detourAdded <==> req.avoidAirspaces && airspaceCentroid(origin, destination).Some?
    ensures |points| == |names| >= 2
    ensures points[0] == origin && points[|points| - 1] == destination
    ensures RouteNames(names, overflownAirports, overflownCoords, overflownNames, originName, destinationName)
    ensures exclude == {originName, destinationName} + Elements(overflownAirports)
    ensures LegsBounded(points, |points| - 1, req.maxLegDistance, rows, exclude, dist)
    ensures var initial := DetourRoute(origin, destination, originName, destinationName, req.avoidAirspaces,
                                       req.avoidTerrain, req.altitude, airspaceCentroid, elevationAt);
            Diverted(points, names, overflownAirports, overflownCoords, overflownNames, rows,
                     {originName, destinationName}, initial.0, initial.1, req.maxLegDistance, dist)
  {
    points, names, detourAdded := ApplyDetours(origin, destination, originName, destinationName,
                                               req.avoidAirspaces, req.avoidTerrain, req.altitude,
                                               airspaceCentroid, elevationAt);
    assert names == [originName, destinationName] || names == [originName, DetourName, destinationName];
    assert names[0] == originName && names[|names| - 1] == destinationName;
    assert points[0] == origin && points[|points| - 1] == destination;
    ghost var points0, names0 := points, names;
    ghost var chosen, positions, legs, history, nameHistory, splitAt;
    points, names, overflownAirports, overflownCoords, overflownNames, exclude,
      chosen, positions, legs, history, nameHistory, splitAt :=
      InsertDiversions(rows, points, names, req.maxLegDistance, dist);
    ChosenAreValid(rows, {originName, destinationName}, chosen, overflownAirports, overflownCoords, overflownNames);
    DivertedIntro(points, names, overflownAirports, overflownCoords, overflownNames, rows,
                  {originName, destinationName}, points0, names0, req.maxLegDistance, dist,
                  positions, chosen, legs, history, nameHistory, splitAt);
  }

  /**
   * What a successful response of `calculate_route` promises about its route, given the upper-cased
   * endpoint codes.
   */
  ghost predicate ValidRoute(r: RouteResponse, originName: string, destinationName: string, req: RouteRequest,
                             rows: seq<AirportRow>, airspaceCentroid: (Point, Point) -> Option<Point>,
                             elevationAt: Point -> real, dist: DistFn)
    requires r.Planned?
  {
    && RouteNames(r.route, r.overflownAirports, r.overflownCoords, r.overflownNames, originName, destinationName)
    // segments: one per leg, contiguous, from origin to destination
    && |r.segments| == |r.route| - 1
    // the waypoints: the detour step's route with the overflown airports inserted
    && (var initial := DetourRoute(r.originCoords, r.destinationCoords, originName, destinationName,
                                   req.avoidAirspaces, req.avoidTerrain, req.altitude, airspaceCentroid, elevationAt);
        Diverted(Waypoints(r.segments), r.route, r.overflownAirports, r.overflownCoords, r.overflownNames, rows,
                 {originName, destinationName}, initial.0, initial.1, req.maxLegDistance, dist))
    && r.segments[0].start == r.originCoords
    && r.segments[|r.segments| - 1].end == r.destinationCoords
    && (forall k :: 0 <= k < |r.segments| - 1 ==> r.segments[k].end == r.segments[k + 1].start)
    // segment types; `terrain` never occurs
    && r.segments[0].kind == (if req.avoidAirspaces && airspaceCentroid(r.originCoords, r.destinationCoords).Some?
                              then Airspace else Climb)
    && (|r.segments| >= 2 ==> r.segments[|r.segments| - 1].kind == Descent)
    && (forall k :: 0 < k < |r.segments| - 1 ==> r.segments[k].kind == Cruise)
    && (forall k :: 0 <= k < |r.segments| ==> r.segments[k].kind != Terrain)
    // every leg is short enough unless no unused eligible airport is left
    && SegmentLegsBounded(r.segments, req.maxLegDistance, rows,
                          {originName, destinationName} + Elements(r.overflownAirports), dist)
    // totals
    && r.distanceNm == SegmentsLength(r.segments, dist)
    && r.timeHr == TravelTime(r.distanceNm, SpeedInKnots(req.speed, req.speedUnit))
  }

  /**
   * A direct route whose one leg is short enough, asked for without avoidance, comes back as exactly
   * the two endpoints with nothing overflown.
   */
  lemma ShortDirectRouteIsDirect(r: RouteResponse, originName: string, destinationName: string, req: RouteRequest,
                                 rows: seq<AirportRow>, airspaceCentroid: (Point, Point) -> Option<Point>,
                                 elevationAt: Point -> real, dist: DistFn)
    requires r.Planned? && ValidRoute(r, originName, destinationName, req, rows, airspaceCentroid, elevationAt, dist)
    requires !req.avoidAirspaces && !req.avoidTerrain
    requires dist(r.originCoords, r.destinationCoords) <= req.maxLegDistance
    ensures r.route == [originName, destinationName] && r.overflownAirports == []
    ensures |r.segments| == 1 && r.segments[0].start == r.originCoords && r.segments[0].end == r.destinationCoords
  {
    var initial := DetourRoute(r.originCoords, r.destinationCoords, originName, destinationName,
                               req.avoidAirspaces, req.avoidTerrain, req.altitude, airspaceCentroid, elevationAt);
    assert initial.0 == [r.originCoords, r.destinationCoords];
    assert AllLegsShort(initial.0, req.maxLegDistance, dist);
  }

  /** `calculate_route` once both endpoints are known. */
  method BuildRoute(origin: Point, destination: Point, originName: string, destinationName: string,
                    req: RouteRequest, rows: seq<AirportRow>,
                    airspaceCentroid: (Point, Point) -> Option<Point>, elevationAt: Point -> real,
                    dist: DistFn)
    returns (r: RouteResponse)
    ensures r.Planned? && r.originCoords == origin && r.destinationCoords == destination
    ensures ValidRoute(r, originName, destinationName, req, rows, airspaceCentroid, elevationAt, dist)
  {
    var points, names, detourAdded, overflownAirports, overflownCoords, overflownNames, exclude :=
      PlanWaypoints(origin, destination, originName, destinationName, req, rows,
                    airspaceCentroid, elevationAt, dist);
    var segments := BuildSegments(points, detourAdded, req.avoidAirspaces);
    var total := TotalDistance(points, dist);
    SegmentsLengthIsPathLength(points, segments, dist);
    SegmentsInheritBound(points, segments, req.maxLegDistance, rows, exclude, dist);
    WaypointsOfSegments(points, segments);
    var speed := SpeedInKnots(req.speed, req.speedUnit);
    r := Planned(names, total, TravelTime(total, speed), overflownAirports, origin, destination,
               overflownCoords, overflownNames, segments);
  }

  /** `calculate_route` */
  method CalculateRoute(req: RouteRequest, airports: seq<AirportRow>,
                        airspaceCentroid: (Point, Point) -> Option<Point>, elevationAt: Point -> real,
                        dist: DistFn)
    returns (r: RouteResponse)
    ensures r.RouteError? <==> GetAirportInfo(airports, req.origin).Failure? || GetAirportInfo(airports, req.destination).Failure?
    ensures r.RouteError? ==> r.message == InvalidEndpointMessage
    ensures r.Planned? ==>
              && GetAirportInfo(airports, req.origin).Success?
              && GetAirportInfo(airports, req.destination).Success?
              && r.originCoords == Coords(GetAirportInfo(airports, req.origin).value)
              && r.destinationCoords == Coords(GetAirportInfo(airports, req.destination).value)
              && ValidRoute(r, Upper(req.origin), Upper(req.destination), req, airports, airspaceCentroid, elevationAt, dist)
  {
    var originInfo := GetAirportInfo(airports, req.origin);
    var destInfo := GetAirportInfo(airports, req.destination);
    if originInfo.Failure? || destInfo.Failure? {
      return RouteError(InvalidEndpointMessage);
    }
    r := BuildRoute(Coords(originInfo.value), Coords(destInfo.value), Upper(req.origin), Upper(req.destination),
                    req, airports, airspaceCentroid, elevationAt, dist);
  }
}
