/**
 * The airport table: lookup by identifier (`get_airport_info`) and the
 * nearest-diversion-airport search (`find_nearest_airport` with its
 * `is_valid_icao` filter), both in backend/main.py.
 */
module Airports {
  import opened Wrappers
  import opened Geo

  /** One row of the airports table, whose index column is `ident`. */
  datatype AirportRow = AirportRow(
    ident: string,
    name: string,
    latitudeDeg: real,
    longitudeDeg: real,
    elevationFt: real,
    kind: string,             // the `type` column
    scheduledService: string)

  /** What `get_airport_info` returns on success. */
  datatype AirportInfo = AirportInfo(icao: string, name: string, lat: real, lon: real, elevation: real)

  /** What `find_nearest_airport` returns: `(lat, lon, ident)`. */
  datatype Candidate = Candidate(position: Point, ident: string)

  function Position(row: AirportRow): Point {
    Point(row.latitudeDeg, row.longitudeDeg)
  }

  function Coords(info: AirportInfo): Point {
    Point(info.lat, info.lon)
  }

  // ---------------------------------------------------------------- characters

  predicate IsDigit(c: char) {
    '0' <= c <= '9'
  }

  predicate IsLetter(c: char) {
    'A' <= c <= 'Z' || 'a' <= c <= 'z'
  }

  predicate IsAlnum(c: char) {
    IsLetter(c) || IsDigit(c)
  }

  /** `str.isalnum()`: non-empty and every character a letter or digit. */
  predicate AllAlnum(s: string) {
    |s| > 0 && forall k :: 0 <= k < |s| ==> IsAlnum(s[k])
  }

  function UpperChar(c: char): char {
    if 'a' <= c <= 'z' then (c as int - 32) as char else c
  }

  /** `str.upper()` */
  function Upper(s: string): string {
    seq(|s|, k requires 0 <= k < |s| => UpperChar(s[k]))
  }

  predicate StartsWith(s: string, prefix: string) {
    |prefix| <= |s| && s[..|prefix|] == prefix
  }

  lemma UpperIdempotent(s: string)
    ensures Upper(Upper(s)) == Upper(s)
  {
  }

  // ---------------------------------------------------------------- lookup

  /** Lookup by the table's `ident` index: the first row with that identifier. */
  function Lookup(rows: seq<AirportRow>, key: string): Option<AirportRow> {
    if rows == [] then None
    else if rows[0].ident == key then Some(rows[0])
    else Lookup(rows[1..], key)
  }

  /** Lookup finds a row exactly when one has the key, and then the first such row. */
  lemma {:induction false} LookupFindsFirst(rows: seq<AirportRow>, key: string)
    ensures Lookup(rows, key).None? <==> forall k :: 0 <= k < |rows| ==> rows[k].ident != key
    ensures Lookup(rows, key).Some? ==>
              exists k :: 0 <= k < |rows| && rows[k] == Lookup(rows, key).value && rows[k].ident == key
                          && forall j :: 0 <= j < k ==> rows[j].ident != key
  {
    if rows != [] && rows[0].ident != key {
      LookupFindsFirst(rows[1..], key);
      if Lookup(rows, key).Some? {
        var k :| 0 <= k < |rows[1..]| && rows[1..][k] == Lookup(rows, key).value && rows[1..][k].ident == key
                 && forall j :: 0 <= j < k ==> rows[1..][j].ident != key;
        forall j | 0 <= j < k + 1 ensures rows[j].ident != key {
          if j > 0 { assert rows[j] == rows[1..][j - 1]; }
        }
        assert rows[k + 1] == rows[1..][k];
      }
    }
  }

  /** `get_airport_info`: upper-cases the code and looks it up; an unknown code is an error. */
  function GetAirportInfo(rows: seq<AirportRow>, icao: string): (r: Result<AirportInfo, string>)
    ensures r.Failure? <==> forall k :: 0 <= k < |rows| ==> rows[k].ident != Upper(icao)
    ensures r.Failure? ==> r.error == "Airport " + icao + " not found"
    ensures r.Success? ==> exists k :: 0 <= k < |rows| && rows[k].ident == Upper(icao)
                                       && r.value == AirportInfo(Upper(icao), rows[k].name, rows[k].latitudeDeg,
                                                                 rows[k].longitudeDeg, rows[k].elevationFt)
  {
    LookupFindsFirst(rows, Upper(icao));
    match Lookup(rows, Upper(icao))
    case None => Failure("Airport " + icao + " not found")
    case Some(row) =>
      Success(AirportInfo(Upper(icao), row.name, row.latitudeDeg, row.longitudeDeg, row.elevationFt))
  }

  /** Identifier matching is case-insensitive: a code and its upper-cased form find the same airport. */
  lemma {:induction false} GetAirportInfoCaseInsensitive(rows: seq<AirportRow>, icao: string)
    ensures GetAirportInfo(rows, Upper(icao)).Success? == GetAirportInfo(rows, icao).Success?
    ensures GetAirportInfo(rows, icao).Success? ==> GetAirportInfo(rows, Upper(icao)) == GetAirportInfo(rows, icao)
  {
    UpperIdempotent(icao);
  }

  // ---------------------------------------------------------------- diversion candidates

  /** `is_valid_icao` as written, `'US-'` clause included. */
  predicate IsValidIcao(ident: string) {
    && |ident| == 4
    && AllAlnum(ident)
    && !StartsWith(ident, "US-")
    && !IsDigit(ident[0])
  }

  /** The `'US-'` clause never rejects anything: `'-'` is not alphanumeric. */
  lemma IsValidIcaoExactly(ident: string)
    ensures IsValidIcao(ident) <==> |ident| == 4 && (forall k :: 0 <= k < 4 ==> IsAlnum(ident[k])) && !IsDigit(ident[0])
  {
    assert StartsWith(ident, "US-") ==> ident[2] == "US-"[2];
  }

  predicate IsPublicKind(kind: string) {
    StartsWith(kind, "large_airport") || StartsWith(kind, "medium_airport") || StartsWith(kind, "small_airport")
  }

  /** The filters of `find_nearest_airport` that do not depend on the exclude set. */
  predicate IsDiversionCandidate(row: AirportRow) {
    IsPublicKind(row.kind) && IsValidIcao(row.ident) && row.scheduledService != "closed"
  }

  /** A row `find_nearest_airport` may return for the given exclude set. */
  predicate Eligible(row: AirportRow, exclude: set<string>) {
    row.ident !in exclude && IsDiversionCandidate(row)
  }

  /** No row passes the filters: `find_nearest_airport` returns None. */
  predicate Exhausted(rows: seq<AirportRow>, exclude: set<string>) {
    forall k :: 0 <= k < |rows| ==> !Eligible(rows[k], exclude)
  }

  /** Excluding more airports cannot make a row eligible again. */
  lemma ExhaustedGrows(rows: seq<AirportRow>, exclude: set<string>, more: set<string>)
    requires Exhausted(rows, exclude) && exclude <= more
    ensures Exhausted(rows, more)
  {
  }

  /** The identifiers of all rows that pass the static filters: the pool diversions draw from. */
  function CandidatePool(rows: seq<AirportRow>): set<string> {
    set k | 0 <= k < |rows| && IsDiversionCandidate(rows[k]) :: rows[k].ident
  }

  /**
   * Row `at` is what `find_nearest_airport` answers for query point `q`: an eligible row at minimal
   * distance, strictly nearer than every eligible row before it (the first one wins a tie).
   */
  predicate NearestRow(rows: seq<AirportRow>, q: Point, exclude: set<string>, at: nat, dist: DistFn) {
    && at < |rows| && Eligible(rows[at], exclude)
    && (forall j :: 0 <= j < |rows| && Eligible(rows[j], exclude) ==>
          dist(q, Position(rows[at])) <= dist(q, Position(rows[j])))
    && (forall j :: 0 <= j < at && Eligible(rows[j], exclude) ==>
          dist(q, Position(rows[at])) < dist(q, Position(rows[j])))
  }

  /**
   * `find_nearest_airport`: scans the rows in table order, keeps the first one
   * strictly closer than every earlier one. `at` is the index of the chosen row.
   */
  method FindNearestAirport(rows: seq<AirportRow>, q: Point, exclude: set<string>, dist: DistFn)
    returns (nearest: Option<Candidate>, ghost at: nat)
    ensures nearest.None? <==> Exhausted(rows, exclude)
    ensures nearest.Some? ==> NearestRow(rows, q, exclude, at, dist)
                              && nearest.value == Candidate(Position(rows[at]), rows[at].ident)
    ensures nearest.Some? ==> nearest.value.ident !in exclude
  {
    // `min_dist` starts at +infinity in the source; here `nearest.None?` plays that role.
    var minDist := 0.0;
    nearest, at := None, 0;
    for k := 0 to |rows|
      invariant nearest.None? <==> forall j :: 0 <= j < k ==> !Eligible(rows[j], exclude)
      invariant nearest.Some? ==> at < k && Eligible(rows[at], exclude)
                                  && nearest.value == Candidate(Position(rows[at]), rows[at].ident)
                                  && minDist == dist(q, Position(rows[at]))
      invariant nearest.Some? ==> forall j :: 0 <= j < k && Eligible(rows[j], exclude) ==>
                                    minDist <= dist(q, Position(rows[j]))
      invariant nearest.Some? ==> forall j :: 0 <= j < at && Eligible(rows[j], exclude) ==>
                                    minDist < dist(q, Position(rows[j]))
    {
      if Eligible(rows[k], exclude) {
        var d := dist(q, Position(rows[k]));
        if nearest.None? || d < minDist {
          minDist := d;
          nearest, at := Some(Candidate(Position(rows[k]), rows[k].ident)), k;
        }
      }
    }
  }
}
