/**
 * What both GBIF importers (`import_observations.py`, `import_occurrences.py`)
 * read from a Darwin Core archive's core row, and the conversions they apply:
 * `get_string_data` strips, `get_int_data` is `int()`, `get_float_data` is
 * `float()` (a parameter here: floating point is not modelled).
 */
module DwcRows {
  import opened Wrappers
  import opened Text
  import opened Dates
  import opened Records

  /** One core row: the raw text of each column the importers read. */
  datatype DwcRow = DwcRow(
    gbifId: string,
    occurrenceId: string,
    occurrenceStatus: string,
    year: string,
    month: string,
    day: string,
    decimalLongitude: string,
    decimalLatitude: string,
    coordinateUncertaintyInMeters: string,
    individualCount: string,
    datasetKey: string,
    datasetName: string,
    taxonKey: string,
    acceptedTaxonKey: string,
    speciesKey: string,
    locality: string,
    municipality: string,
    basisOfRecord: string,
    recordedBy: string,
    references: string)

  /** What an import raises. */
  datatype ImportError =
    | ValueError(text: string)        // `int()` or `datetime.date()` refused a value
    | KeyError                        // a hash-table lookup missed
    | CommandError(row: nat)          // the observation importer's report of a KeyError at that row
    | DoesNotExist                    // `Species.objects.get` found no row
    | MultipleObjectsReturned         // `Species.objects.get` found several rows

  /** `float(s)`: the parsed value, or None where Python raises ValueError. */
  type FloatParser = string -> Option<real>

  /** `get_int_data`: `int()` of the stripped text. */
  function GetInt(raw: string): (r: Result<int, ImportError>)
    ensures r.Ok? <==> ParseInt(Strip(raw)).Some?
    ensures r.Ok? ==> r.value == ParseInt(Strip(raw)).value
  {
    match ParseInt(Strip(raw))
    case None => Err(ValueError(Strip(raw)))
    case Some(n) => Ok(n)
  }

  /** `get_int_data` inside `try … except ValueError: None`. */
  function IntOrNone(raw: string): (r: Option<int>)
    ensures r == ParseInt(Strip(raw))
  {
    match GetInt(raw)
    case Ok(n) => Some(n)
    case Err(_) => None
  }

  /**
   * `Point(get_float_data(lon), get_float_data(lat))` inside `try … except
   * ValueError: None`: a point only when both coordinates parse.
   */
  function PointOf(row: DwcRow, parseFloat: FloatParser): (p: Option<Point>)
    ensures p.Some? <==> parseFloat(Strip(row.decimalLongitude)).Some? && parseFloat(Strip(row.decimalLatitude)).Some?
    ensures p.Some? ==> p.value == Point(parseFloat(Strip(row.decimalLongitude)).value, parseFloat(Strip(row.decimalLatitude)).value)
  {
    match (parseFloat(Strip(row.decimalLongitude)), parseFloat(Strip(row.decimalLatitude)))
    case (Some(lon), Some(lat)) => Some(Point(lon, lat))
    case _ => None
  }

  /** `datetime.date(year, month, day)`: ValueError outside the calendar. */
  function MakeDate(year: int, month: int, day: int): (r: Result<Date, ImportError>)
    ensures r.Ok? <==> Valid(Date(year, month, day))
    ensures r.Ok? ==> r.value == Date(year, month, day)
  {
    if Valid(Date(year, month, day)) then Ok(Date(year, month, day))
    else Err(ValueError(IntToString(year) + "-" + IntToString(month) + "-" + IntToString(day)))
  }
}
