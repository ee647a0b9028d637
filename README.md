# xctry-planner route builder, in Dafny

This project models the route builder of the xctry-planner backend. `POST /route` (`calculate_route` in
`backend/main.py`) takes an origin and a destination ICAO code, a speed with its unit, a cruise altitude, two
avoidance flags and a maximum leg length. It builds a cross-country route in these steps:

1. It looks up both endpoints in the airport table. `get_airport_info` upper-cases the key, and the route
   fails with one fixed message if either endpoint is unknown.
2. It starts from the direct two-point route. It inserts at most one `DETOUR` point at index 1: either the
   offset centroid of the largest airspace the direct line crosses, or the route's midpoint moved 0.2° north
   when the terrain there is too high.
3. While an eligible airport not yet used remains, it splits each leg longer than `max_leg_distance`. It
   inserts the public, open airport with a valid ICAO code, not yet on the route, that is nearest the leg's
   midpoint, then checks the new leg again. A long leg for which no such airport is left stays as it is.
4. It tags one segment per leg as `climb`, `cruise`, `descent` or `airspace`.
5. It adds up the leg distances and divides by the speed, which it first converts from mph when asked.

Modules, one concern each:

| module | file | contents |
|---|---|---|
| `Wrappers` | `wrappers.dfy` | `Option` and `Result` |
| `Lists` | `lists.dfy` | Python's `list.insert` as `InsertAt`, `Zip`, `Distinct`, `Elements` |
| `Geo` | `geo.dfy` | points, the midpoint, the distance function as a parameter, the length of a polyline |
| `Airports` | `airports.dfy` | the airport table as a sequence of rows, `get_airport_info`, `is_valid_icao`, the candidate filter, `find_nearest_airport` as a method with a loop |
| `Route` | `route.dfy` | the detour step, the diversion `while` loop, the segment loop, the distance loop and `calculate_route` itself |

Parameters stand in for everything the code gets from outside:

- **Distance.** `haversine` becomes `dist: (Point, Point) -> real`, with no property assumed.
- **Airspace.** The shapely step "largest intersected airspace, then its centroid" becomes
  `airspaceCentroid: (Point, Point) -> Option<Point>`, which is `None` when the line crosses no airspace.
- **Elevation.** The OpenTopography request becomes `elevationAt: Point -> real`, which is 0 when the call fails.
- **Airport table.** The pandas table is given as a sequence of rows, indexed by `ident`.

The source's loops are `method`s with loop invariants:

- `find_nearest_airport`;
- the diversion loop;
- the segment loop;
- the distance loop.

Each method's ensures states what the loop computes:
- `TotalDistance` is equal to the function `PathLength`;
- `FindNearestAirport` is stated through the predicates `Exhausted` and `NearestRow`;
- the diversion loop is stated through `Bookkeeping`, `LegsBounded`, `NearestSplits` and `SplitHistory`, the
  record of the route's points and names before each split, and it leaves a route with no long leg unchanged;
- `BuildSegments` is stated pointwise, segment by segment.

Lemmas state what those functions and predicates mean. The two detour `insert`s are a `method` too, with no
loop. `ApplyDetours` is proved equal to the closed form `DetourRoute`.

`max_leg_distance` is used as given, with no clamping to any range.

## Model

| member | source | states |
|---|---|---|
| Airports.LookupFindsFirst | backend/main.py:37 | a lookup by key fails exactly when no row carries the key; otherwise it returns the first row that does |
| Airports.GetAirportInfo | backend/main.py:35-46 | fails exactly when no row has the upper-cased code; the error text is `Airport <icao> not found` with the code as given; a success returns the upper-cased code with that row's name, latitude, longitude and elevation |
| Airports.GetAirportInfoCaseInsensitive | backend/main.py:37-39 | a code and its upper-cased form both succeed or both fail, and give the same record on success |
| Airports.IsValidIcaoExactly | backend/main.py:124-131 | `is_valid_icao` accepts exactly the 4-character all-alphanumeric strings whose first character is not a digit; the `US-` clause rejects nothing |
| Airports.ExhaustedGrows | backend/main.py:161-169 | once no eligible airport is left, adding more excluded codes leaves none |
| Airports.FindNearestAirport | backend/main.py:132-145 | returns nothing exactly when no row is eligible (public type, valid ICAO, not closed, not excluded); otherwise returns an eligible row's position and ident, never an excluded one, at minimal distance to the query point, and strictly nearer than every earlier eligible row (first wins ties) |
| Lists.InsertAt | backend/main.py:164-165 | `list.insert(j, x)`: one longer, `x` at `j`, the prefix kept, the suffix shifted by one, the multiset grown by `x` |
| Route.InsertTwo | backend/main.py:93-94 | inserting at index 1 of a two-element list gives `[first, x, second]` |
| Route.TravelTime | backend/main.py:194 | for a nonzero speed, time × speed equals the distance; for a zero speed the time is 0 |
| Route.ApplyDetours | backend/main.py:77-119 | the flag is set exactly when airspace avoidance is on and an airspace is crossed, and then the route is origin, offset centroid, destination; otherwise the terrain detour at the midpoint 0.2° north is inserted exactly when terrain avoidance is on, the elevation and altitude are both nonzero and the elevation exceeds altitude − 1000; otherwise the route stays direct; names follow with `DETOUR` at index 1; the result equals the closed form `DetourRoute` of the inputs and the two oracles |
| Route.DetourRoute | backend/main.py:78-119 | the route after the avoidance steps has as many names as points, at least two, and runs from the origin to the destination under their names |
| Route.BookkeepingInit | backend/main.py:147-152 | before the diversion loop the lists are as given, nothing is overflown and only the two endpoints are excluded |
| Route.BookkeepingInsert | backend/main.py:162-171 | one `continue` step keeps the loop's bookkeeping: names and points aligned, endpoints fixed, overflown lists parallel and distinct, each drawn from an eligible row with its table name, the exclude set equal to the endpoints plus the overflown codes, the original points kept in order |
| Route.PoolShrinks | backend/main.py:164-171 | each `continue` removes one code from the finite set of not-yet-excluded candidate airports, which with `i += 1` makes the loop terminate |
| Route.LegsBoundedStep | backend/main.py:156-172 | advancing `i` past a leg keeps "every checked leg is short enough or no airport is left" |
| Route.LegsBoundedInsert | backend/main.py:164-171 | inserting after leg `i` keeps the bound on the legs before `i` |
| Route.InsertDiversions | backend/main.py:147-172 | the diversion loop terminates. It keeps a record of the route's points and names before each split. The k-th overflown airport went after leg `splitAt[k]` of the route at that moment, and its code went into the names at the same index. That leg was longer than `max_leg`, and every leg before it was short. The airport is the row `find_nearest_airport` answers for that leg's midpoint, with the endpoints and the earlier airports excluded. A route with no long leg is returned unchanged with nothing overflown. Afterwards every leg is at most `max_leg` long, or no eligible unused airport remains, so `find_nearest_airport` returns nothing. The bookkeeping above holds for the final lists |
| Route.DiversionStep | backend/main.py:156-171 | one `continue` of the diversion loop keeps the bookkeeping, the leg bound and the record of splits, shows that the original route had a long leg, and removes one airport from the candidate pool |
| Route.NearestSplitsAppend | backend/main.py:157-169 | recording the leg just split and the airport chosen for it keeps the record of all earlier splits |
| Route.SplitHistoryAppend | backend/main.py:156-169 | inserting an airport after leg `i` of the current route, with every leg before `i` checked, extends the record of routes before each split by that route's points and names, its leg `i`, the inserted point and the inserted code |
| Route.SplitHistoryFixesNames | backend/main.py:164-165 | `route_points` and `route_names` receive their inserts at the same index, so the record of splits determines the names: two name lists with the same starting names, point history, split indices and overflown codes are equal |
| Route.SplitIsFirstLongLeg | backend/main.py:156-172 | in the recorded history, each diversion was inserted after the first leg of the route at that moment that was longer than `max_leg`: that leg was too long, every earlier one was short enough, and the names of the route received the airport's code at the same index |
| Route.DivertedRouteHadLongLeg | backend/main.py:156-172 | no airport is inserted into a route whose legs are all short enough. Once the route has no long leg, nothing more is overflown |
| Route.ChosenAreValid | backend/main.py:132-166 | every overflown airport has a valid ICAO code and is neither endpoint |
| Route.WaypointsOfSegments | backend/main.py:174-188 | the segment list passes through exactly the route's points: every start, then the last end |
| Route.BuildSegments | backend/main.py:174-188 | one segment per leg, segment k from point k to point k+1; the first is `climb`, or `airspace`/`terrain` after an airspace detour; the last of two or more is `descent`; the rest are `cruise` |
| Route.TotalDistance | backend/main.py:190-193 | the accumulated total equals the polyline length, the sum of `dist` over consecutive points |
| Route.SegmentsLengthIsPathLength | backend/main.py:184-193 | the sum of segment lengths equals the polyline length of the points |
| Route.SegmentsInheritBound | backend/main.py:156-187 | the leg bound on the points holds for the segments built from them |
| Geo.PathLengthInsert | backend/main.py:164-193 | inserting p into leg j−1..j changes the total distance by dist(a, p) + dist(p, b) − dist(a, b) |
| Geo.InsertNeverShortens | backend/main.py:164-193 | where the triangle inequality holds for the affected points, an inserted diversion never shortens the route |
| Route.PlanWaypoints | backend/main.py:77-172 | the route runs from origin to destination. Its names are the two endpoints, at most one `DETOUR` and the overflown airports. The overflown lists are parallel and distinct. Each overflown entry is an eligible table row's code, position and table name. The route's points and names are `DetourRoute` of the inputs with the overflown airports' positions and codes inserted one at a time, each at the same index in both. Each went after the first too-long leg of the route at that moment. It is the nearest eligible unused airport to that leg's midpoint. The original entries keep their order, and every name stays paired with its point. When `DetourRoute` has no long leg it is the final route and nothing is overflown. Legs are bounded as above |
| Route.BuildRoute | backend/main.py:73-206 | a response built from two known endpoints satisfies everything `PlanWaypoints` states, read off the response's own `route`, segment points and `overflown_*` lists. It also satisfies the segment and total properties: the airspace detour's flag decides the first segment's tag, and `terrain` never occurs. The time is `TravelTime` of the total distance at `SpeedInKnots`: the speed times 0.868976 when the unit is `mph`, the speed as given otherwise |
| Route.ShortDirectRouteIsDirect | backend/main.py:147-188 | a successful response without avoidance whose direct leg is at most `max_leg_distance` is exactly origin and destination, with no overflown airports and a single segment between the two |
| Route.CalculateRoute | backend/main.py:66-206 | the response is an error exactly when either endpoint lookup fails, with the fixed message; otherwise the coordinates come from the two lookups and the route satisfies everything `BuildRoute` states |

## Left out

- The FastAPI app, CORS middleware, `/`, `/airport/{icao}`, `/weather`, `/airspaces` and `/terrain-profile` endpoints: transport and network plumbing.
- Loading the airport CSV and the airspace GeoJSON: the table is a parameter, given as a sequence of rows.
- Shapely's `intersects`, `area.argmax` and `centroid`: replaced by the `airspaceCentroid` oracle.
- The OpenTopography HTTP call with `asyncio.run`: replaced by the `elevationAt` oracle, which returns 0 to model a failed call.
- The trigonometry inside `haversine`: distance is an uninterpreted parameter, so symmetry and the triangle inequality are not assumed. `Geo.InsertNeverShortens` takes the triangle inequality as a precondition.
- Floating point: coordinates, distances and times are exact reals. The `round(..., 1)` and `round(..., 2)` of the response are not modelled.
- Text: `str.upper`, `str.isalnum` and `str.isdigit` are modelled on ASCII only, while Python applies them to all of Unicode. The `isinstance(ident, str)` test is always true for a string-typed `ident`.
- Table lookup: `airports_df.loc[...]` is modelled as "the first row with that ident", which matches pandas when the index is unique. Duplicate index entries, where pandas returns several rows, are not modelled.
- Missing columns and empty cells: a row's `type` and `scheduled_service` are plain strings, so neither an absent column nor an empty cell is modelled. For an absent column `row.get(..., default)` supplies the default. For an empty `type` cell pandas reads NaN, and `startswith` then raises out of `calculate_route`.
- VFR altitude selection, magnetic heading and per-leg weather: the code modelled here does not compute them.
- `backend/update_data.py` (file download and disk writes) is not part of this model, and neither are the HTTP-client tests.
- Route.CalculateRoute: `distanceNm` and `timeHr` are stated as exact reals, not as the values the response rounds to one and two decimals.
