/**
 * The older endpoints of `dashboard/views/api.py`: the data page (every result
 * through `as_dict`), the areas a user may list, and one area as GeoJSON.
 * `dashboard/views/internal_api.py` repeats `areas_list_json` and
 * `area_geojson` word for word.
 */
module Api {
  import opened Wrappers
  import opened JsonValues
  import opened Records
  import opened RequestFilters
  import opened ObservationQuery
  import opened Listing
  import opened DataPage

  /** `filtered_observations_data_page_json`: the page, every observation through `as_dict(for_user)`. */
  function DataPageJson(r: Request, t: Tables): (res: Result<Json, ViewError>)
    requires DatesOfTableValid(t)
    ensures res.Ok? <==> ObservationsPage(r, t).Ok?
    ensures res.Err? ==> res.error == ObservationsPage(r, t).error
    ensures res.Ok? ==>
      var page := ObservationsPage(r, t).value;
      res.value == PageResponse(page, NormalResults(page, t, r.user))
  {
    match ObservationsPage(r, t)
    case Err(e) => Err(e)
    case Ok(page) =>
      Ok(PageResponse(page, NormalResults(page, t, r.user)))
  }

  /** A page number below 1 or past the last page serves the last page. */
  lemma OutOfRangeServesLastPage(r: Request, t: Tables)
    requires ObservationsPage(r, t).Ok?
    requires ExtractInt(QueryDictFor(r), "page_number").value.Some?
    requires var n := ExtractInt(QueryDictFor(r), "page_number").value.value;
      n < 1 || n > ObservationsPage(r, t).value.numPages
    ensures ObservationsPage(r, t).value.number == ObservationsPage(r, t).value.numPages
  {
  }

  // ---------------------------------------------------------------- areas

  /** `Area.objects.available_to(user)`: the areas the user may see, in table order. */
  function AvailableAreas(areas: seq<AreaRow>, u: User): (r: seq<AreaRow>)
    ensures |r| <= |areas|
    ensures forall a :: a in r <==> a in areas && IsAvailableTo(a, u)
  {
    if areas == [] then []
    else (if IsAvailableTo(areas[0], u) then [areas[0]] else []) + AvailableAreas(areas[1..], u)
  }

  /** `areas_list_json`: `to_dict(include_geojson=False)` of every area available to the user. */
  function AreasListJson(areas: seq<AreaRow>, u: User): (j: Json)
    ensures j.JArray? && |j.items| == |AvailableAreas(areas, u)|
    ensures forall i :: 0 <= i < |j.items| ==> j.items[i] == AreaToDict(AvailableAreas(areas, u)[i], false)
  {
    var available := AvailableAreas(areas, u);
    JArray(seq(|available|, i requires 0 <= i < |available| => AreaToDict(available[i], false)))
  }

  /** An anonymous visitor's list holds only global areas, and every one of them. */
  lemma AnonymousListsGlobalAreas(areas: seq<AreaRow>, a: AreaRow)
    ensures a in AvailableAreas(areas, Anonymous) <==> a in areas && IsGlobal(a)
  {
    AnonymousSeesGlobalAreasOnly(a);
  }

  /** A user's list never holds another user's area. */
  lemma NoForeignAreaListed(areas: seq<AreaRow>, pk: nat, a: AreaRow)
    requires a in AvailableAreas(areas, Authenticated(pk))
    ensures a.owner.None? || a.owner == Some(pk)
  {
    AvailabilityForUser(a, pk);
  }

  /** The answers of `area_geojson`. */
  datatype AreaResponse =
    | NotFound                 // `get_object_or_404` found no area with that id
    | Forbidden                // `HttpResponseForbidden()`: status 403, empty body
    | GeoJson(body: string)    // `serialize("geojson", [area])`, as application/json

  /** The area with primary key `id`, if the table holds one. */
  function AreaWithPk(areas: seq<AreaRow>, id: nat): (r: Option<AreaRow>)
    ensures r.Some? <==> exists i :: 0 <= i < |areas| && areas[i].pk == id
    ensures r.Some? ==> r.value in areas && r.value.pk == id
  {
    if areas == [] then None
    else if areas[0].pk == id then Some(areas[0])
    else
      var r := AreaWithPk(areas[1..], id);
      assert forall i :: 1 <= i < |areas| ==> areas[i] == areas[1..][i - 1];
      r
  }

  /** `area_geojson`: 404 for an unknown id, 403 for an area not available to the user, else its GeoJSON. */
  function AreaGeojson(areas: seq<AreaRow>, id: nat, u: User, serialize: AreaRow -> string): (r: AreaResponse)
    ensures r.NotFound? <==> AreaWithPk(areas, id).None?
    ensures r.Forbidden? <==> AreaWithPk(areas, id).Some? && !IsAvailableTo(AreaWithPk(areas, id).value, u)
    ensures r.GeoJson? ==> IsAvailableTo(AreaWithPk(areas, id).value, u) && r.body == serialize(AreaWithPk(areas, id).value)
  {
    match AreaWithPk(areas, id)
    case None => NotFound
    case Some(a) => if IsAvailableTo(a, u) then GeoJson(serialize(a)) else Forbidden
  }

  /** Whatever the id, an anonymous visitor never receives a user-specific area. */
  lemma AnonymousNeverGetsPrivateArea(areas: seq<AreaRow>, id: nat, serialize: AreaRow -> string)
    requires AreaGeojson(areas, id, Anonymous, serialize).GeoJson?
    ensures IsGlobal(AreaWithPk(areas, id).value)
  {
    AnonymousSeesGlobalAreasOnly(AreaWithPk(areas, id).value);
  }
}
