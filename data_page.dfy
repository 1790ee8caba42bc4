/**
 * What `filtered_observations_data_page_json` and
 * `filtered_observations_monthly_histogram_json` do alike in
 * `dashboard/views/api.py` and `dashboard/views/internal_api.py`: read `limit`
 * and `page_number`, filter, paginate, and shape the page and the histogram.
 */
module DataPage {
  import opened Wrappers
  import opened Text
  import opened Dates
  import opened JsonValues
  import opened Records
  import opened RequestFilters
  import opened ObservationQuery
  import Maps
  import opened Listing
  import opened MonthlyHistogram
  import opened QueryOrdering

  /** Why a data page view raises instead of answering. */
  datatype ViewError =
    | BadValue(cause: RequestError)           // `int()` or `strptime()` refused a parameter
    | FieldError(name: string)                // `order_by` on a name that is no field
    // A `limit` of zero or below. `get_page` catches `PageNotAnInteger` and
    // `EmptyPage` for the page number; for a negative `limit`, `InvalidPerPage`
    // stands for both the `EmptyPage` and the negative slice it can end in.
    | PaginatorFailed(reason: PaginatorError)
    | UnboundLocalError                       // `results` never assigned: a `mode` other than normal or short

  const DefaultLimit := 50

  /** `limit`: the parsed integer, or 50 when absent, `""` or `"null"`. */
  function LimitOf(q: QueryDict): (res: Result<int, RequestError>)
    ensures IsNoValue(GetLast(q, "limit")) ==> res == Ok(DefaultLimit)
    ensures !IsNoValue(GetLast(q, "limit")) ==>
      (res.Ok? <==> ParseInt(GetLast(q, "limit").value).Some?)
      && (res.Ok? ==> res.value == ParseInt(GetLast(q, "limit").value).value)
  {
    match ExtractInt(q, "limit")
    case Err(e) => Err(e)
    case Ok(None) => Ok(DefaultLimit)
    case Ok(Some(n)) => Ok(n)
  }

  /**
   * The selected observations in the order the `order` URL parameter asks for:
   * filter errors first; then, when `order` is given, the rows sorted by the
   * field it names, or a `FieldError` when it names none.
   */
  function OrderedObservations(r: Request, t: Tables): Result<seq<ObservationRow>, ViewError> {
    match FilteredObservations(r, t)
    case Err(e) => Err(BadValue(e))
    case Ok(observations) =>
      match GetLast(r.get, "order")
      case None => Ok(observations)
      case Some(name) =>
        match t.orderings(name)
        case None => Err(FieldError(name))
        case Some(before) => Ok(SortBy(observations, before))
  }

  /** Without `order` the rows keep table order; a name that is no field fails. */
  lemma OrderedObservationsUnsorted(r: Request, t: Tables)
    requires FiltersFromRequest(r).Ok?
    ensures GetLast(r.get, "order").None? ==> OrderedObservations(r, t) == Ok(FilteredObservations(r, t).value)
    ensures GetLast(r.get, "order").Some? && t.orderings(GetLast(r.get, "order").value).None? ==>
      OrderedObservations(r, t) == Err(FieldError(GetLast(r.get, "order").value))
  {
  }

  /** With a field's ordering, the rows are the selected ones, sorted by it. */
  lemma OrderedObservationsSorted(r: Request, t: Tables, name: string, before: Ordering<ObservationRow>)
    requires FiltersFromRequest(r).Ok?
    requires GetLast(r.get, "order") == Some(name) && t.orderings(name) == Some(before)
    ensures OrderedObservations(r, t).Ok?
    ensures multiset(OrderedObservations(r, t).value) == multiset(FilteredObservations(r, t).value)
    ensures TotalPreorder(before) ==> SortedBy(OrderedObservations(r, t).value, before)
  {
    var s := FilteredObservations(r, t).value;
    assert OrderedObservations(r, t) == Ok(SortBy(s, before));
    if TotalPreorder(before) {
      SortBySorted(s, before);
    }
  }

  /**
   * The page both views serve: `limit`, then `page_number`, then the filters
   * are read, each failure raising in that order; `order_by` then refuses an
   * unknown field; then the paginator runs over the ordered observations.
   */
  function ObservationsPage(r: Request, t: Tables): (res: Result<Page<ObservationRow>, ViewError>)
    ensures LimitOf(QueryDictFor(r)).Err? ==> res == Err(BadValue(LimitOf(QueryDictFor(r)).error))
    ensures (LimitOf(QueryDictFor(r)).Ok? && ExtractInt(QueryDictFor(r), "page_number").Ok?
             && OrderedObservations(r, t).Err?) ==> res == Err(OrderedObservations(r, t).error)
    ensures res.Ok? <==>
      && LimitOf(QueryDictFor(r)).Ok? && LimitOf(QueryDictFor(r)).value > 0
      && ExtractInt(QueryDictFor(r), "page_number").Ok?
      && OrderedObservations(r, t).Ok?
    ensures res.Ok? ==>
      var limit := LimitOf(QueryDictFor(r)).value;
      var observations := OrderedObservations(r, t).value;
      && res.value.count == |observations|
      && res.value.numPages == NumPages(|observations|, limit)
      && res.value.number == PageNumber(ExtractInt(QueryDictFor(r), "page_number").value, res.value.numPages)
      && res.value.objects == PageSlice(observations, limit, res.value.number)
    ensures res.Ok? ==> forall o :: o in res.value.objects ==> o in t.observations
  {
    var q := QueryDictFor(r);
    match LimitOf(q)
    case Err(e) => Err(BadValue(e))
    case Ok(limit) =>
      match ExtractInt(q, "page_number")
      case Err(e) => Err(BadValue(e))
      case Ok(pageNumber) =>
        match OrderedObservations(r, t)
        case Err(e) => Err(e)
        case Ok(observations) =>
          match GetPage(observations, limit, pageNumber)
          case Err(e) => Err(PaginatorFailed(e))
          case Ok(page) =>
            assert forall i :: 0 <= i < |page.objects| ==> page.objects[i] in observations;
            OrderedAreSelected(r, t);
            Ok(page)
  }

  /** Ordering keeps the selected rows: each ordered row is a selected one. */
  lemma OrderedAreSelected(r: Request, t: Tables)
    requires OrderedObservations(r, t).Ok?
    ensures FiltersFromRequest(r).Ok?
    ensures forall o :: o in OrderedObservations(r, t).value ==> o in FilteredObservations(r, t).value
  {
    var order := GetLast(r.get, "order");
    if order.Some? {
      var s := FilteredObservations(r, t).value;
      forall o | o in OrderedObservations(r, t).value
        ensures o in s
      {
        assert o in multiset(SortBy(s, t.orderings(order.value).value));
      }
    }
  }

  /** Every observation of a served page is one the filters select. */
  lemma PageObjectsMatch(r: Request, t: Tables, i: nat)
    requires ObservationsPage(r, t).Ok? && i < |ObservationsPage(r, t).value.objects|
    ensures var o := ObservationsPage(r, t).value.objects[i];
      o in t.observations && Maps.Matches(FiltersFromRequest(r).value, r.user, o, t.views, t.areas, t.within)
  {
    var observations := OrderedObservations(r, t).value;
    var page := ObservationsPage(r, t).value;
    assert page.objects[i] == observations[Bottom(page.number, LimitOf(QueryDictFor(r)).value) + i];
    OrderedAreSelected(r, t);
  }

  /**
   * The response dictionary: `firstPage` is `page_range.start`, always 1, and
   * `lastPage` is `page_range.stop - 1`, the page count.
   */
  function PageResponse(page: Page<ObservationRow>, results: seq<Json>): (j: Json)
    ensures j.JObject? && Keys(j.members) == ["results", "pageNumber", "firstPage", "lastPage", "totalResultsCount"]
  {
    JObject([
      ("results", JArray(results)),
      ("pageNumber", JInt(page.number)),
      ("firstPage", JInt(1)),
      ("lastPage", JInt(page.numPages)),
      ("totalResultsCount", JInt(page.count))
    ])
  }

  /** Each member of the response holds what its key names. */
  lemma PageResponseMembers(page: Page<ObservationRow>, results: seq<Json>)
    ensures var m := PageResponse(page, results).members;
      && Get(m, "results") == Some(JArray(results))
      && Get(m, "pageNumber") == Some(JInt(page.number))
      && Get(m, "lastPage") == Some(JInt(page.numPages))
      && Get(m, "totalResultsCount") == Some(JInt(page.count))
  {
    var m := PageResponse(page, results).members;
    assert m[..4][..3][..2][..1] == [m[0]];
    assert Get(m[..4][..3][..2], "results") == Some(JArray(results));
    assert Get(m[..4][..3], "results") == Some(JArray(results));
    assert Get(m[..4], "results") == Some(JArray(results));
    assert Get(m[..4][..3], "pageNumber") == Some(JInt(page.number));
    assert Get(m[..4], "pageNumber") == Some(JInt(page.number));
  }

  /** `as_dict(for_user=request.user)` of each observation of the page, in page order. */
  function NormalResults(page: Page<ObservationRow>, t: Tables, u: User): (rs: seq<Json>)
    requires forall o :: o in page.objects ==> Valid(o.date)
    ensures |rs| == |page.objects|
    ensures forall i :: 0 <= i < |rs| ==>
      rs[i] == AsDict(page.objects[i], t.speciesName(page.objects[i].species),
                      t.datasetName(page.objects[i].sourceDataset), t.views, u)
  {
    seq(|page.objects|, i requires 0 <= i < |page.objects| =>
      AsDict(page.objects[i], t.speciesName(page.objects[i].species),
             t.datasetName(page.objects[i].sourceDataset), t.views, u))
  }

  /** The table holds real calendar dates, as a `DateField` does. */
  predicate DatesOfTableValid(t: Tables) {
    forall o :: o in t.observations ==> Valid(o.date)
  }

  // ---------------------------------------------------------------- the monthly histogram

  function DatesOf(observations: seq<ObservationRow>): (ds: seq<Date>)
    ensures |ds| == |observations|
    ensures forall i :: 0 <= i < |ds| ==> ds[i] == observations[i].date
  {
    seq(|observations|, i requires 0 <= i < |observations| => observations[i].date)
  }

  /**
   * `filtered_observations_monthly_histogram_json`: the filtered observations
   * grouped by month, one `{"year", "month", "count"}` per month holding one,
   * chronologically; filter errors propagate.
   */
  function MonthlyHistogramJson(r: Request, t: Tables): (res: Result<Json, RequestError>)
    ensures res.Err? <==> FiltersFromRequest(r).Err?
    ensures res.Ok? ==> res.value == HistogramJson(Histogram(DatesOf(FilteredObservations(r, t).value)))
  {
    match FilteredObservations(r, t)
    case Err(e) => Err(e)
    case Ok(observations) => Ok(HistogramJson(Histogram(DatesOf(observations))))
  }

  /**
   * Each entry of the histogram counts the selected observations of its month,
   * and is at least one.
   */
  lemma HistogramEntryCounts(r: Request, t: Tables, i: nat)
    requires FiltersFromRequest(r).Ok?
    requires i < |Histogram(DatesOf(FilteredObservations(r, t).value))|
    ensures var h := Histogram(DatesOf(FilteredObservations(r, t).value));
      h[i].count == Occurrences(DatesOf(FilteredObservations(r, t).value), h[i].month) > 0
  {
    BucketsAreNonEmpty(DatesOf(FilteredObservations(r, t).value), i);
  }
}
