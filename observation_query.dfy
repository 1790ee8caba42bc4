/**
 * `filtered_observations_from_request` of `dashboard/views/helpers.py`: the
 * observations a request's filters select, over in-memory tables.
 */
module ObservationQuery {
  import opened Wrappers
  import opened Records
  import opened RequestFilters
  import opened Maps
  import opened QueryOrdering

  /**
   * The tables the endpoints read. `within` is PostGIS's `ST_Within`;
   * `speciesName` and `datasetName` follow an observation's foreign keys;
   * `orderings` is what `order_by` accepts: the ordering a field name (with an
   * optional leading `-`) stands for, or `None` for a name that is no field.
   */
  datatype Tables = Tables(
    observations: seq<ObservationRow>,
    views: seq<ViewRow>,
    areas: seq<AreaRow>,
    within: (ObservationRow, AreaRow) -> bool,
    speciesName: nat -> string,
    datasetName: nat -> string,
    orderings: string -> Option<Ordering<ObservationRow>>)

  /**
   * The observations the request selects, in table order: decoding errors
   * propagate; otherwise exactly the rows that match the decoded filters for the
   * request's user (anonymous visitors get no status filtering).
   */
  function FilteredObservations(r: Request, t: Tables): (res: Result<seq<ObservationRow>, RequestError>)
    ensures res.Err? <==> FiltersFromRequest(r).Err?
    ensures res.Err? ==> res.error == FiltersFromRequest(r).error
    ensures res.Ok? ==> forall o :: o in res.value <==>
      o in t.observations && Matches(FiltersFromRequest(r).value, r.user, o, t.views, t.areas, t.within)
  {
    match FiltersFromRequest(r)
    case Err(e) => Err(e)
    case Ok(f) => Ok(Filtered(f, r.user, t.observations, t.views, t.areas, t.within))
  }
}
