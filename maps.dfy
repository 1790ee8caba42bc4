/**
 * The map endpoints of `dashboard/views/maps.py`: the hexagon-size table, the
 * bind parameters the three views hand to the JinjaSQL observation filter, what
 * that SQL filter selects, and the clean per-observation filter semantics the
 * other endpoints share with it.
 */
module Maps {
  import opened Wrappers
  import opened Dates
  import opened Records
  import opened RequestFilters

  // ---------------------------------------------------------------- hexagon sizes

  const ZoomToHexSizeMultiplier := 2

  /** Hexagon edge in metres for zoom levels 0 to 20, before the multiplier, in zoom order. */
  const BaselineSizes: seq<int> := [
    640000, 320000, 160000, 80000, 40000, 20000, 10000, 5000, 2500, 1250, 675,
    335, 160, 80, 40, 20, 10, 5, 5, 5, 5]

  /** `ZOOM_TO_HEX_SIZE_BASELINE`: zoom level to hexagon edge. */
  const ZoomToHexSizeBaseline: map<int, int> := map z | 0 <= z < |BaselineSizes| :: BaselineSizes[z]

  const ZoomToHexSize: map<int, int> :=
    map z | z in ZoomToHexSizeBaseline :: ZoomToHexSizeBaseline[z] * ZoomToHexSizeMultiplier

  /** The table covers exactly zooms 0 to 20, doubles the baseline and never grows with the zoom. */
  lemma HexSizeTable()
    ensures forall z :: z in ZoomToHexSize <==> 0 <= z <= 20
    ensures forall z :: z in ZoomToHexSize ==> ZoomToHexSize[z] == 2 * ZoomToHexSizeBaseline[z] && ZoomToHexSize[z] >= 10
    ensures forall z :: 0 <= z < 20 ==> ZoomToHexSize[z + 1] <= ZoomToHexSize[z]
  {
  }

  // ---------------------------------------------------------------- bind parameters

  /**
   * `sql_params`, the dictionary a view binds into the JinjaSQL template: one
   * field per key a template reads, `None` for a key the dictionary does not
   * hold. Every view binds the four id lists. A date is bound as its
   * `%Y-%m-%d` text, `Format(d)`, which the template reads back with `TO_DATE`.
   */
  datatype SqlParams = SqlParams(
    speciesIds: seq<int>, datasetsIds: seq<int>, areaIds: seq<int>, initialDataImportIds: seq<int>,
    status: Option<string>, userId: Option<int>, startDate: Option<Date>, endDate: Option<Date>,
    zoom: Option<int>, x: Option<int>, y: Option<int>,
    hexSizeMeters: Option<int>, gridExtentViewport: Option<bool>)

  /** Why a map view gives no result. */
  datatype MapsError =
    | BadValue(cause: RequestError)  // `int()` or `strptime()` refused a filter value
    | KeyError(zoom: int)             // `ZOOM_TO_HEX_SIZE[zoom]` for a zoom outside the table
    | NoResponse                      // the view returned None (no zoom given)

  /** The status filter reaches the SQL: a non-empty status and a signed-in user. */
  predicate StatusApplies(f: Filters, user: User) {
    f.status.Some? && f.status.value != "" && user.Authenticated?
  }

  /** `sql_params` carries the filters `f` of `user`: lists always, status and user only together, dates only when set. */
  predicate EncodesFilters(p: SqlParams, f: Filters, user: User) {
    && p.speciesIds == f.speciesIds
    && p.datasetsIds == f.datasetsIds
    && p.areaIds == f.areaIds
    && p.initialDataImportIds == f.initialDataImportIds
    && p.status == (if StatusApplies(f, user) then Some(f.status.value) else None)
    && p.userId == (if StatusApplies(f, user) then Some(user.pk as int) else None)
    && p.startDate == f.startDate
    && p.endDate == f.endDate
  }

  /** Decoded filters hold only real calendar dates. */
  predicate DatesValid(f: Filters) {
    (f.startDate.Some? ==> Valid(f.startDate.value)) && (f.endDate.Some? ==> Valid(f.endDate.value))
  }

  lemma DecodedDatesValid(q: QueryDict)
    requires DecodeFilters(q).Ok?
    ensures DatesValid(DecodeFilters(q).value)
  {
  }

  /**
   * The parameter dictionary the three views build: a literal with the id lists
   * and the view's own entries, then `status` and `user_id` when the status is
   * truthy and the user signed in, then each date that is set.
   */
  function BuildSqlParams(f: Filters, user: User, zoom: Option<int>, x: Option<int>, y: Option<int>,
                        hexSizeMeters: Option<int>, gridExtentViewport: Option<bool>): (p: SqlParams)
    ensures EncodesFilters(p, f, user)
    ensures p.zoom == zoom && p.x == x && p.y == y
    ensures p.hexSizeMeters == hexSizeMeters && p.gridExtentViewport == gridExtentViewport
  {
    var applies := f.status.Some? && f.status.value != "" && user.Authenticated?;
    SqlParams(f.speciesIds, f.datasetsIds, f.areaIds, f.initialDataImportIds,
              if applies then Some(f.status.value) else None,
              if applies then Some(user.pk) else None,
              if f.startDate.Some? then Some(f.startDate.value) else None,
              if f.endDate.Some? then Some(f.endDate.value) else None,
              zoom, x, y, hexSizeMeters, gridExtentViewport)
  }

  /** `mvt_tiles_observations`: the parameters of the non-aggregated tile query. */
  method MvtTilesObservations(r: Request, zoom: int, x: int, y: int) returns (res: Result<SqlParams, MapsError>)
    ensures FiltersFromRequest(r).Err? ==> res == Err(BadValue(FiltersFromRequest(r).error))
    ensures FiltersFromRequest(r).Ok? ==> res.Ok?
    ensures res.Ok? ==>
      && EncodesFilters(res.value, FiltersFromRequest(r).value, r.user)
      && DatesValid(FiltersFromRequest(r).value)
      && res.value.zoom == Some(zoom) && res.value.x == Some(x) && res.value.y == Some(y)
      && res.value.hexSizeMeters.None? && res.value.gridExtentViewport.None?
  {
    var decoded := FiltersFromRequest(r);
    if decoded.Err? {
      return Err(BadValue(decoded.error));
    }
    DecodedDatesValid(QueryDictFor(r));
    var p := BuildSqlParams(decoded.value, r.user, Some(zoom), Some(x), Some(y), None, None);
    return Ok(p);
  }

  /** `mvt_tiles_observations_hexagon_grid_aggregated`: a zoom outside the table raises KeyError after the filters are read. */
  method MvtTilesHexagonGridAggregated(r: Request, zoom: int, x: int, y: int) returns (res: Result<SqlParams, MapsError>)
    ensures FiltersFromRequest(r).Err? ==> res == Err(BadValue(FiltersFromRequest(r).error))
    ensures FiltersFromRequest(r).Ok? && !(0 <= zoom <= 20) ==> res == Err(KeyError(zoom))
    ensures res.Ok? <==> FiltersFromRequest(r).Ok? && 0 <= zoom <= 20
    ensures res.Ok? ==>
      && EncodesFilters(res.value, FiltersFromRequest(r).value, r.user)
      && DatesValid(FiltersFromRequest(r).value)
      && res.value.hexSizeMeters == Some(2 * ZoomToHexSizeBaseline[zoom])
      && res.value.gridExtentViewport == Some(true)
      && res.value.zoom == Some(zoom) && res.value.x == Some(x) && res.value.y == Some(y)
  {
    HexSizeTable();
    var decoded := FiltersFromRequest(r);
    if decoded.Err? {
      return Err(BadValue(decoded.error));
    }
    DecodedDatesValid(QueryDictFor(r));
    if zoom !in ZoomToHexSize {
      return Err(KeyError(zoom));
    }
    var p := BuildSqlParams(decoded.value, r.user, Some(zoom), Some(x), Some(y), Some(ZoomToHexSize[zoom]), Some(true));
    return Ok(p);
  }

  /**
   * `observation_min_max_in_hex_grid_json`: without a `zoom` the view returns
   * nothing; otherwise the filters are read, then the hexagon size looked up.
   */
  method ObservationMinMaxInHexGrid(r: Request) returns (res: Result<SqlParams, MapsError>)
    ensures ExtractInt(QueryDictFor(r), "zoom").Err? ==> res == Err(BadValue(ExtractInt(QueryDictFor(r), "zoom").error))
    ensures ExtractInt(QueryDictFor(r), "zoom") == Ok(None) ==> res == Err(NoResponse)
    ensures res.Ok? <==> (ExtractInt(QueryDictFor(r), "zoom").Ok? && ExtractInt(QueryDictFor(r), "zoom").value.Some?
      && FiltersFromRequest(r).Ok? && 0 <= ExtractInt(QueryDictFor(r), "zoom").value.value <= 20)
    ensures res.Ok? ==>
      && EncodesFilters(res.value, FiltersFromRequest(r).value, r.user)
      && DatesValid(FiltersFromRequest(r).value)
      && res.value.hexSizeMeters == Some(2 * ZoomToHexSizeBaseline[ExtractInt(QueryDictFor(r), "zoom").value.value])
      && res.value.gridExtentViewport == Some(false)
      && res.value.zoom.None? && res.value.x.None? && res.value.y.None?
  {
    HexSizeTable();
    var zoom := ExtractInt(QueryDictFor(r), "zoom");
    if zoom.Err? {
      return Err(BadValue(zoom.error));
    }
    if zoom.value.None? {
      return Err(NoResponse);
    }
    var z := zoom.value.value;
    var decoded := FiltersFromRequest(r);
    if decoded.Err? {
      return Err(BadValue(decoded.error));
    }
    DecodedDatesValid(QueryDictFor(r));
    if z !in ZoomToHexSize {
      return Err(KeyError(z));
    }
    var p := BuildSqlParams(decoded.value, r.user, None, None, None, Some(ZoomToHexSize[z]), Some(false));
    return Ok(p);
  }

  // ---------------------------------------------------------------- the SQL filter as written

  /** The status as the template compares it; a missing one renders falsy. */
  function StatusOf(p: SqlParams): string {
    if p.status.Some? then p.status.value else ""
  }

  /** `TO_DATE({{ date }}, 'YYYY-MM-DD')` on a bound date's text. */
  function ReadBack(d: Option<Date>): Option<Date> {
    if d.Some? && Valid(d.value) then Parse(Format(d.value)) else None
  }

  function UserIdOf(p: SqlParams): int {
    if p.userId.Some? then p.userId.value else -1
  }

  /** Views of `observation` by `user`: the rows the `seen` INNER JOIN keeps. */
  function ViewCount(views: seq<ViewRow>, observation: nat, user: int): (n: nat)
    ensures n <= |views|
    ensures n > 0 <==> user >= 0 && HasView(views, observation, user)
  {
    if views == [] then 0
    else
      var rest := ViewCount(views[1..], observation, user);
      assert forall i :: 1 <= i < |views| ==> views[i] == views[1..][i - 1];
      (if views[0].observation == observation && views[0].user == user then 1 else 0) + rest
  }

  /** Rows of the `areas` cross join that keep `o`: the selected areas it lies within. */
  function AreaCount(areas: seq<AreaRow>, ids: seq<int>, o: ObservationRow, within: (ObservationRow, AreaRow) -> bool): (n: nat)
    ensures n <= |areas|
    ensures n > 0 <==> exists i :: 0 <= i < |areas| && areas[i].pk in ids && within(o, areas[i])
  {
    if areas == [] then 0
    else
      var rest := AreaCount(areas[1..], ids, o, within);
      assert forall i :: 1 <= i < |areas| ==> areas[i] == areas[1..][i - 1];
      (if areas[0].pk in ids && within(o, areas[0]) then 1 else 0) + rest
  }

  /** The WHERE conditions that do not join: every clause is emitted only when its parameter is truthy. */
  predicate WhereHolds(p: SqlParams, o: ObservationRow, views: seq<ViewRow>) {
    && (p.speciesIds == [] || o.species in p.speciesIds)
    && (p.datasetsIds == [] || o.sourceDataset in p.datasetsIds)
    && (p.startDate.None? || (ReadBack(p.startDate).Some? && OnOrBefore(ReadBack(p.startDate).value, o.date)))
    && (p.endDate.None? || (ReadBack(p.endDate).Some? && OnOrBefore(o.date, ReadBack(p.endDate).value)))
    && (p.initialDataImportIds == [] || o.initialDataImport in p.initialDataImportIds)
    && (StatusOf(p) == "unseen" ==> !(UserIdOf(p) >= 0 && HasView(views, o.pk, UserIdOf(p))))
  }

  /**
   * `JINJASQL_FRAGMENT_FILTER_OBSERVATIONS` as written: how many result rows
   * observation `o` yields. The `seen` join contributes one row per matching view
   * and the `areas` cross join one row per selected area containing `o`.
   */
  function TemplateRows(p: SqlParams, o: ObservationRow, views: seq<ViewRow>, areas: seq<AreaRow>,
                        within: (ObservationRow, AreaRow) -> bool): nat
  {
    if !WhereHolds(p, o, views) then 0
    else
      (if StatusOf(p) == "seen" then ViewCount(views, o.pk, UserIdOf(p)) else 1)
      * (if p.areaIds != [] then AreaCount(areas, p.areaIds, o, within) else 1)
  }

  // ---------------------------------------------------------------- the filter semantics

  /** `seen` keeps what the user viewed, `unseen` what they did not; any other status, or an anonymous user, filters nothing. */
  predicate StatusHolds(status: Option<string>, user: User, o: ObservationRow, views: seq<ViewRow>) {
    if status.Some? && status.value != "" && user.Authenticated? then
      && (status.value == "seen" ==> HasView(views, o.pk, user.pk))
      && (status.value == "unseen" ==> !HasView(views, o.pk, user.pk))
    else true
  }

  /**
   * Observation `o` passes filters `f` for `user`: each non-empty dimension is a
   * conjunct, dates are inclusive bounds, selected areas are OR-ed.
   */
  predicate Matches(f: Filters, user: User, o: ObservationRow, views: seq<ViewRow>, areas: seq<AreaRow>,
                    within: (ObservationRow, AreaRow) -> bool) {
    && (f.speciesIds == [] || o.species in f.speciesIds)
    && (f.datasetsIds == [] || o.sourceDataset in f.datasetsIds)
    && (f.startDate.None? || OnOrBefore(f.startDate.value, o.date))
    && (f.endDate.None? || OnOrBefore(o.date, f.endDate.value))
    && (f.areaIds == [] || exists i :: 0 <= i < |areas| && areas[i].pk in f.areaIds && within(o, areas[i]))
    && (f.initialDataImportIds == [] || o.initialDataImport in f.initialDataImportIds)
    && StatusHolds(f.status, user, o, views)
  }

  /** The SQL the views run selects an observation exactly when it matches the filters they decoded. */
  lemma TemplateSelectsMatches(p: SqlParams, f: Filters, user: User, o: ObservationRow, views: seq<ViewRow>,
                               areas: seq<AreaRow>, within: (ObservationRow, AreaRow) -> bool)
    requires EncodesFilters(p, f, user) && DatesValid(f)
    ensures TemplateRows(p, o, views, areas, within) > 0 <==> Matches(f, user, o, views, areas, within)
  {
    if f.startDate.Some? {
      ParseFormat(f.startDate.value);
    }
    if f.endDate.Some? {
      ParseFormat(f.endDate.value);
    }
    assert StatusOf(p) == (if StatusApplies(f, user) then f.status.value else "");
    assert StatusApplies(f, user) ==> UserIdOf(p) == user.pk;
  }

  /** The SQL yields `o` twice when it lies in two selected areas: the cross join multiplies rows. */
  lemma TemplateCountsOverlapTwice(p: SqlParams, f: Filters, user: User, o: ObservationRow, views: seq<ViewRow>,
                                   areas: seq<AreaRow>, within: (ObservationRow, AreaRow) -> bool, i: nat, j: nat)
    requires EncodesFilters(p, f, user) && DatesValid(f) && Matches(f, user, o, views, areas, within)
    requires i < j < |areas| && areas[i].pk in f.areaIds && areas[j].pk in f.areaIds
    requires within(o, areas[i]) && within(o, areas[j])
    requires !(StatusApplies(f, user) && f.status.value == "seen")
    ensures TemplateRows(p, o, views, areas, within) >= 2
  {
    TemplateSelectsMatches(p, f, user, o, views, areas, within);
    AreaCountAtLeastTwo(areas, f.areaIds, o, within, i, j);
    assert StatusOf(p) == (if StatusApplies(f, user) then f.status.value else "");
  }

  lemma {:induction false} AreaCountAtLeastTwo(areas: seq<AreaRow>, ids: seq<int>, o: ObservationRow,
                                               within: (ObservationRow, AreaRow) -> bool, i: nat, j: nat)
    requires i < j < |areas| && areas[i].pk in ids && areas[j].pk in ids
    requires within(o, areas[i]) && within(o, areas[j])
    ensures AreaCount(areas, ids, o, within) >= 2
    decreases i
  {
    if i == 0 {
      assert areas[1..][j - 1] == areas[j];
      assert AreaCount(areas[1..], ids, o, within) > 0;
    } else {
      assert areas[1..][i - 1] == areas[i] && areas[1..][j - 1] == areas[j];
      AreaCountAtLeastTwo(areas[1..], ids, o, within, i - 1, j - 1);
    }
  }

  /** The observations of the table that match, in table order, each once. */
  function Filtered(f: Filters, user: User, observations: seq<ObservationRow>, views: seq<ViewRow>,
                    areas: seq<AreaRow>, within: (ObservationRow, AreaRow) -> bool): (r: seq<ObservationRow>)
    ensures |r| <= |observations|
    ensures forall o :: o in r <==> o in observations && Matches(f, user, o, views, areas, within)
  {
    if observations == [] then []
    else
      (if Matches(f, user, observations[0], views, areas, within) then [observations[0]] else [])
      + Filtered(f, user, observations[1..], views, areas, within)
  }

  /**
   * The count of a hexagon as the aggregated grid computes it: `COUNT(*)` over the
   * filter's rows whose location lies in the hexagon (`inHex`).
   */
  function HexCountAsWritten(p: SqlParams, observations: seq<ObservationRow>, views: seq<ViewRow>,
                             areas: seq<AreaRow>, within: (ObservationRow, AreaRow) -> bool,
                             inHex: ObservationRow -> bool): nat
  {
    if observations == [] then 0
    else
      (if inHex(observations[0]) then TemplateRows(p, observations[0], views, areas, within) else 0)
      + HexCountAsWritten(p, observations[1..], views, areas, within, inHex)
  }

  /** The positions of `s` that hold an observation `keep` accepts. */
  function KeptPositions(s: seq<ObservationRow>, keep: ObservationRow -> bool): set<int> {
    set k | 0 <= k < |s| && keep(s[k])
  }

  /** Dropping the last observation drops at most its own position. */
  lemma KeptPositionsOfPrefix(s: seq<ObservationRow>, keep: ObservationRow -> bool)
    requires s != []
    ensures var m := |s| - 1;
      KeptPositions(s, keep) == KeptPositions(s[..m], keep) + (if keep(s[m]) then {m} else {})
      && m !in KeptPositions(s[..m], keep)
  {
    var m := |s| - 1;
    forall k | 0 <= k < m
      ensures s[..m][k] == s[k]
    {
    }
  }

  /** How many positions of `s` hold an observation `keep` accepts. */
  function CountWhere(s: seq<ObservationRow>, keep: ObservationRow -> bool): (n: nat)
    ensures n <= |s|
    ensures n == |KeptPositions(s, keep)|
  {
    if s == [] then 0
    else
      var m := |s| - 1;
      KeptPositionsOfPrefix(s, keep);
      CountWhere(s[..m], keep) + if keep(s[m]) then 1 else 0
  }

  /** The intended hexagon count: matching observations in the hexagon, each counted once. */
  function HexCount(f: Filters, user: User, observations: seq<ObservationRow>, views: seq<ViewRow>,
                    areas: seq<AreaRow>, within: (ObservationRow, AreaRow) -> bool,
                    inHex: ObservationRow -> bool): (n: nat)
    ensures n <= |observations|
    ensures n == |set k | 0 <= k < |observations| && inHex(observations[k]) && Matches(f, user, observations[k], views, areas, within)|
  {
    var keep := o => inHex(o) && Matches(f, user, o, views, areas, within);
    assert KeptPositions(observations, keep)
        == (set k | 0 <= k < |observations| && inHex(observations[k]) && Matches(f, user, observations[k], views, areas, within));
    CountWhere(observations, keep)
  }

  /**
   * Two global areas that both contain the only observation: the grid reports 2
   * for its hexagon where one observation lies.
   */
  lemma HexCountDoubleCountsOverlap(o: ObservationRow)
    ensures var f := Filters([], [], None, None, [1, 2], None, []);
      var p := SqlParams([], [], [1, 2], [], None, None, None, None, None, None, None, None, None);
      var areas := [AreaRow(1, None, "a", ""), AreaRow(2, None, "b", "")];
      var within := (_: ObservationRow, _: AreaRow) => true;
      var inHex := (_: ObservationRow) => true;
      && EncodesFilters(p, f, Anonymous)
      && HexCountAsWritten(p, [o], [], areas, within, inHex) == 2
      && HexCount(f, Anonymous, [o], [], areas, within, inHex) == 1
  {
    var f := Filters([], [], None, None, [1, 2], None, []);
    var p := SqlParams([], [], [1, 2], [], None, None, None, None, None, None, None, None, None);
    var areas := [AreaRow(1, None, "a", ""), AreaRow(2, None, "b", "")];
    var within := (_: ObservationRow, _: AreaRow) => true;
    assert AreaCount(areas[1..], [1, 2], o, within) == 1;
    assert Matches(f, Anonymous, o, [], areas, within) by {
      assert areas[0].pk in f.areaIds && within(o, areas[0]);
    }
    var inHex := (_: ObservationRow) => true;
    assert (set k | 0 <= k < |[o]| && inHex([o][k]) && Matches(f, Anonymous, [o][k], [], areas, within)) == {0};
  }
}
