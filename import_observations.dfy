/**
 * `dashboard/management/commands/import_observations.py`: building one
 * observation from a Darwin Core row, the chunked import loop, the dataset
 * and species hash tables `handle` prepares, and the clean-up after the import.
 */
module ImportObservations {
  import opened Wrappers
  import opened Text
  import opened Dates
  import opened Records
  import opened DwcRows
  import opened Database

  const BulkCreateChunkSize := 10000

  /** What `build_single_observation` reads besides the row. */
  datatype ImportContext = ImportContext(
    currentImport: nat,
    previousObservations: seq<ObservationRow>,  // the observation table while the rows are built
    hashDatasets: map<string, nat>,  // GBIF dataset key to dataset pk
    hashSpecies: map<int, nat>,      // GBIF taxon key to species pk
    sha1: string -> string,
    parseFloat: FloatParser)

  // ---------------------------------------------------------------- one row

  /**
   * `species_for_row`: taxonKey, acceptedTaxonKey and speciesKey are all parsed
   * first, then looked up in that order; a final miss is a KeyError.
   */
  function SpeciesForRow(row: DwcRow, hashSpecies: map<int, nat>): (r: Result<nat, ImportError>)
    ensures GetInt(row.taxonKey).Err? ==> r == Err(GetInt(row.taxonKey).error)
    ensures GetInt(row.taxonKey).Ok? && GetInt(row.acceptedTaxonKey).Err? ==> r == Err(GetInt(row.acceptedTaxonKey).error)
    ensures GetInt(row.taxonKey).Ok? && GetInt(row.acceptedTaxonKey).Ok? && GetInt(row.speciesKey).Err? ==>
      r == Err(GetInt(row.speciesKey).error)
    ensures r.Ok? <==>
      && GetInt(row.taxonKey).Ok? && GetInt(row.acceptedTaxonKey).Ok? && GetInt(row.speciesKey).Ok?
      && (GetInt(row.taxonKey).value in hashSpecies || GetInt(row.acceptedTaxonKey).value in hashSpecies
          || GetInt(row.speciesKey).value in hashSpecies)
    ensures r.Ok? && GetInt(row.taxonKey).value in hashSpecies ==>
      r.value == hashSpecies[GetInt(row.taxonKey).value]
    ensures r.Ok? && GetInt(row.taxonKey).value !in hashSpecies && GetInt(row.acceptedTaxonKey).value in hashSpecies ==>
      r.value == hashSpecies[GetInt(row.acceptedTaxonKey).value]
    ensures r.Ok? && GetInt(row.taxonKey).value !in hashSpecies && GetInt(row.acceptedTaxonKey).value !in hashSpecies ==>
      r.value == hashSpecies[GetInt(row.speciesKey).value]
  {
    var taxonKey :- GetInt(row.taxonKey);
    var acceptedTaxonKey :- GetInt(row.acceptedTaxonKey);
    var speciesKey :- GetInt(row.speciesKey);
    if taxonKey in hashSpecies then Ok(hashSpecies[taxonKey])
    else if acceptedTaxonKey in hashSpecies then Ok(hashSpecies[acceptedTaxonKey])
    else if speciesKey in hashSpecies then Ok(hashSpecies[speciesKey])
    else Err(KeyError)
  }

  /** A known taxonKey does not save a row whose speciesKey is not an integer. */
  lemma SpeciesKeysParsedEagerly(row: DwcRow, hashSpecies: map<int, nat>)
    requires GetInt(row.taxonKey).Ok? && GetInt(row.taxonKey).value in hashSpecies
    requires GetInt(row.speciesKey).Err?
    ensures SpeciesForRow(row, hashSpecies).Err?
  {
  }

  /** A row `build_single_observation` imports: a year, coordinates, an occurrenceID, a presence. */
  predicate IsAccepted(row: DwcRow, parseFloat: FloatParser) {
    && Strip(row.year) != ""
    && PointOf(row, parseFloat).Some?
    && Strip(row.occurrenceId) != ""
    && Strip(row.occurrenceStatus) == "PRESENT"
  }

  /** Month or day: the parsed value, or 1 when it does not parse. */
  function OrOne(raw: string): int {
    IntOrNone(raw).GetOr(1)
  }

  /**
   * `build_single_observation`: None for a skipped row (the
   * `SkippedObservationException`), otherwise the new observation, or what the
   * conversions raise. The primary key is 0 until `bulk_create` assigns one.
   */
  function BuildSingleObservation(row: DwcRow, ctx: ImportContext): (r: Result<Option<ObservationRow>, ImportError>)
  {
    if !IsAccepted(row, ctx.parseFloat) then Ok(None)
    else
      var year :- GetInt(row.year);
      var date :- MakeDate(year, OrOne(row.month), OrOne(row.day));
      var datasetKey := Strip(row.datasetKey);
      var gbifId :- GetInt(row.gbifId);
      var species :- SpeciesForRow(row, ctx.hashSpecies);
      if datasetKey !in ctx.hashDatasets then Err(KeyError)
      else
        var newObservation := ObservationRow(
          pk := 0,
          gbifId := IntToString(gbifId),
          occurrenceId := Strip(row.occurrenceId),
          stableId := BuildStableId(ctx.sha1, Strip(row.occurrenceId), datasetKey),
          species := species,
          location := PointOf(row, ctx.parseFloat),
          date := date,
          individualCount := IntOrNone(row.individualCount),
          locality := Strip(row.locality),
          municipality := Strip(row.municipality),
          basisOfRecord := Strip(row.basisOfRecord),
          recordedBy := Strip(row.recordedBy),
          coordinateUncertaintyInMeters := ctx.parseFloat(Strip(row.coordinateUncertaintyInMeters)),
          dataImport := ctx.currentImport,
          initialDataImport := ctx.currentImport,
          sourceDataset := ctx.hashDatasets[datasetKey]);
        Ok(Some(newObservation.(initialDataImport := InitialDataImportFor(ctx.previousObservations, newObservation))))
  }

  /** A row is skipped, rather than built or failed, exactly when it is not accepted. */
  lemma RejectedIffSkipped(row: DwcRow, ctx: ImportContext)
    ensures BuildSingleObservation(row, ctx) == Ok(None) <==> !IsAccepted(row, ctx.parseFloat)
  {
  }

  /** An accepted row is built exactly when its year, date, id, species and dataset all resolve. */
  lemma AcceptedRowBuilt(row: DwcRow, ctx: ImportContext)
    requires IsAccepted(row, ctx.parseFloat)
    ensures BuildSingleObservation(row, ctx).Ok? <==>
      && GetInt(row.year).Ok?
      && Valid(Date(GetInt(row.year).value, OrOne(row.month), OrOne(row.day)))
      && GetInt(row.gbifId).Ok?
      && SpeciesForRow(row, ctx.hashSpecies).Ok?
      && Strip(row.datasetKey) in ctx.hashDatasets
  {
  }

  /** An observation that is built carries the row's values, converted as the importer converts them. */
  lemma BuiltObservationFields(row: DwcRow, ctx: ImportContext)
    requires BuildSingleObservation(row, ctx).Ok? && BuildSingleObservation(row, ctx).value.Some?
    ensures var o := BuildSingleObservation(row, ctx).value.value;
      && o.date == Date(GetInt(row.year).value, OrOne(row.month), OrOne(row.day))
      && Valid(o.date)
      && o.location == PointOf(row, ctx.parseFloat)
      && o.individualCount == ParseInt(Strip(row.individualCount))
      && o.coordinateUncertaintyInMeters == ctx.parseFloat(Strip(row.coordinateUncertaintyInMeters))
      && o.occurrenceId == Strip(row.occurrenceId)
      && o.gbifId == IntToString(GetInt(row.gbifId).value)
      && o.species == SpeciesForRow(row, ctx.hashSpecies).value
      && o.sourceDataset == ctx.hashDatasets[Strip(row.datasetKey)]
      && o.stableId == BuildStableId(ctx.sha1, Strip(row.occurrenceId), Strip(row.datasetKey))
      && o.dataImport == ctx.currentImport
      && o.initialDataImport == InitialDataImportFor(ctx.previousObservations, o.(initialDataImport := ctx.currentImport))
      && o.locality == Strip(row.locality) && o.municipality == Strip(row.municipality)
      && o.basisOfRecord == Strip(row.basisOfRecord) && o.recordedBy == Strip(row.recordedBy)
  {
    assert IsAccepted(row, ctx.parseFloat);
    var year := GetInt(row.year).value;
    assert MakeDate(year, OrOne(row.month), OrOne(row.day)).Ok?;
    assert GetInt(row.gbifId).Ok? && SpeciesForRow(row, ctx.hashSpecies).Ok?;
  }

  /**
   * The initial import of a built observation (`set_or_migrate_initial_data_import`,
   * whose body is not part of this model, reconstructed as `InitialDataImportFor`):
   * when exactly one saved row from an older import carries the stable
   * identifier the observation gets, the observation takes over that row's
   * initial import.
   */
  lemma BuiltKeepsInitialDataImport(row: DwcRow, ctx: ImportContext, previous: ObservationRow)
    requires BuildSingleObservation(row, ctx).Ok? && BuildSingleObservation(row, ctx).value.Some?
    requires ObservationPksUnique(ctx.previousObservations)
    requires previous in ctx.previousObservations && previous.pk != 0
    requires previous.stableId == BuildStableId(ctx.sha1, Strip(row.occurrenceId), Strip(row.datasetKey))
    requires previous.dataImport < ctx.currentImport
    requires forall p :: p in ctx.previousObservations && p.pk != 0 && p.stableId == previous.stableId ==> p == previous
    ensures BuildSingleObservation(row, ctx).value.value.initialDataImport == previous.initialDataImport
  {
    BuiltObservationFields(row, ctx);
    var o := BuildSingleObservation(row, ctx).value.value;
    InitialDataImportKept(ctx.previousObservations, o.(initialDataImport := ctx.currentImport), previous);
  }

  /**
   * The other side of `BuiltKeepsInitialDataImport`: when no saved row carries
   * the stable identifier the observation gets, its initial import is the
   * current one.
   */
  lemma BuiltStartsInitialDataImport(row: DwcRow, ctx: ImportContext)
    requires BuildSingleObservation(row, ctx).Ok? && BuildSingleObservation(row, ctx).value.Some?
    requires forall p :: p in ctx.previousObservations && p.pk != 0 ==>
      p.stableId != BuildStableId(ctx.sha1, Strip(row.occurrenceId), Strip(row.datasetKey))
    ensures BuildSingleObservation(row, ctx).value.value.initialDataImport == ctx.currentImport
  {
    BuiltObservationFields(row, ctx);
    var o := BuildSingleObservation(row, ctx).value.value;
    InitialDataImportFresh(ctx.previousObservations, o.(initialDataImport := ctx.currentImport));
  }

  /** Month and day fall back to 1 each on its own: an unreadable month keeps the day. */
  lemma MonthAndDayDefaultIndependently(row: DwcRow, ctx: ImportContext)
    requires BuildSingleObservation(row, ctx).Ok? && BuildSingleObservation(row, ctx).value.Some?
    requires ParseInt(Strip(row.month)).None? && ParseInt(Strip(row.day)).Some?
    ensures BuildSingleObservation(row, ctx).value.value.date.month == 1
    ensures BuildSingleObservation(row, ctx).value.value.date.day == ParseInt(Strip(row.day)).value
  {
    BuiltObservationFields(row, ctx);
    assert OrOne(row.month) == 1 && OrOne(row.day) == ParseInt(Strip(row.day)).value;
  }

  // ---------------------------------------------------------------- the import loop

  /**
   * What importing the first `k` rows comes to: the observations built, in
   * row order, and the number of skipped rows; or the first error, a KeyError
   * being reported as a CommandError for its row.
   */
  function ImportOutcome(rows: seq<DwcRow>, k: nat, ctx: ImportContext): (r: Result<(seq<ObservationRow>, nat), ImportError>)
    requires k <= |rows|
  {
    if k == 0 then Ok(([], 0))
    else
      match ImportOutcome(rows, k - 1, ctx)
      case Err(e) => Err(e)
      case Ok(done) => Step(done, BuildSingleObservation(rows[k - 1], ctx), k - 1)
  }

  /** One more row: its observation is kept, or it counts as skipped, or the import stops. */
  function Step(done: (seq<ObservationRow>, nat), built: Result<Option<ObservationRow>, ImportError>, index: nat)
    : (r: Result<(seq<ObservationRow>, nat), ImportError>)
  {
    match built
    case Err(e) => Err(if e == KeyError then CommandError(index) else e)
    case Ok(None) => Ok((done.0, done.1 + 1))
    case Ok(Some(o)) => Ok((done.0 + [o], done.1))
  }

  /** Importing one more row after a prefix that succeeded. */
  lemma OutcomeStep(rows: seq<DwcRow>, k: nat, ctx: ImportContext, kept: seq<ObservationRow>, skipped: nat)
    requires k < |rows| && ImportOutcome(rows, k, ctx) == Ok((kept, skipped))
    ensures var built := BuildSingleObservation(rows[k], ctx);
      && (built.Err? ==> ImportOutcome(rows, k + 1, ctx) == Err(if built.error == KeyError then CommandError(k) else built.error))
      && (built == Ok(None) ==> ImportOutcome(rows, k + 1, ctx) == Ok((kept, skipped + 1)))
      && (built.Ok? && built.value.Some? ==> ImportOutcome(rows, k + 1, ctx) == Ok((kept + [built.value.value], skipped)))
  {
  }

  /** Once the first `k` rows fail, the whole import fails with that error. */
  lemma {:induction false} OutcomeErrorSticks(rows: seq<DwcRow>, k: nat, n: nat, ctx: ImportContext)
    requires k <= n <= |rows| && ImportOutcome(rows, k, ctx).Err?
    ensures ImportOutcome(rows, n, ctx) == ImportOutcome(rows, k, ctx)
    decreases n - k
  {
    if k < n {
      OutcomeErrorSticks(rows, k, n - 1, ctx);
    }
  }

  /** How many of the first `k` rows `build_single_observation` skips. */
  function CountRejected(rows: seq<DwcRow>, k: nat, parseFloat: FloatParser): (n: nat)
    requires k <= |rows|
    ensures n <= k
  {
    if k == 0 then 0
    else CountRejected(rows, k - 1, parseFloat) + if IsAccepted(rows[k - 1], parseFloat) then 0 else 1
  }

  /** The skipped counter is the number of rows that are not accepted. */
  lemma {:induction false} SkippedCountsRejected(rows: seq<DwcRow>, k: nat, ctx: ImportContext)
    requires k <= |rows| && ImportOutcome(rows, k, ctx).Ok?
    ensures ImportOutcome(rows, k, ctx).value.1 == CountRejected(rows, k, ctx.parseFloat)
  {
    if k > 0 {
      SkippedCountsRejected(rows, k - 1, ctx);
      var done := ImportOutcome(rows, k - 1, ctx).value;
      OutcomeStep(rows, k - 1, ctx, done.0, done.1);
      RejectedIffSkipped(rows[k - 1], ctx);
    }
  }

  /** The batches, one after the other. */
  function Flatten(batches: seq<seq<ObservationRow>>): (s: seq<ObservationRow>) {
    if batches == [] then [] else Flatten(batches[..|batches| - 1]) + batches[|batches| - 1]
  }

  /** The batches flushed before row `index`: one per multiple of 10000 below it, that is `index / 10000` rounded up. */
  function FlushesBefore(index: nat): nat {
    (index + BulkCreateChunkSize - 1) / BulkCreateChunkSize
  }

  /** `flushes` batches of 10000 rows cover the rows before `index`, and one fewer would not. */
  predicate FlushCountFits(flushes: int, index: nat) {
    (flushes - 1) * BulkCreateChunkSize < index <= flushes * BulkCreateChunkSize
  }

  /** Reading row `index` adds a flush exactly when `index` is a multiple of 10000. */
  lemma FlushCountStep(flushes: int, index: nat)
    requires FlushCountFits(flushes, index)
    ensures FlushCountFits(flushes + (if index % BulkCreateChunkSize == 0 then 1 else 0), index + 1)
  {
    var c := BulkCreateChunkSize;
    var q := index / c;
    assert index == q * c + index % c;
    if index % c == 0 {
      assert q == flushes;
    }
  }

  /** The count the loop keeps is the rounded-up quotient. */
  lemma FlushCountIsCeiling(flushes: int, index: nat)
    requires FlushCountFits(flushes, index)
    ensures flushes == FlushesBefore(index)
  {
    var c := BulkCreateChunkSize;
    var i := index + c - 1;
    assert i == (i / c) * c + i % c;
  }

  /** The most rows the buffer can hold before row `index` is read. */
  function BufferBound(index: nat): nat {
    if index == 0 then 0 else (index - 1) % BulkCreateChunkSize
  }

  /** A buffer within bound that grows by at most one row fits a batch, or the next bound. */
  lemma BufferStep(index: nat, size: nat)
    requires size <= BufferBound(index) + 1
    ensures index % BulkCreateChunkSize == 0 ==> size <= BulkCreateChunkSize
    ensures index % BulkCreateChunkSize != 0 ==> size <= BufferBound(index + 1)
  {
  }

  lemma PushKeepsFlattened(batches: seq<seq<ObservationRow>>, buffer: seq<ObservationRow>, kept: seq<ObservationRow>, o: ObservationRow)
    requires Flatten(batches) + buffer == kept
    ensures Flatten(batches) + (buffer + [o]) == kept + [o]
  {
    assert Flatten(batches) + (buffer + [o]) == Flatten(batches) + buffer + [o];
  }

  lemma FlushKeepsFlattened(batches: seq<seq<ObservationRow>>, buffer: seq<ObservationRow>)
    ensures Flatten(batches + [buffer]) + [] == Flatten(batches) + buffer
  {
    FlattenAppend(batches, buffer);
    assert Flatten(batches + [buffer]) + [] == Flatten(batches + [buffer]);
  }

  lemma FlattenAppend(batches: seq<seq<ObservationRow>>, b: seq<ObservationRow>)
    ensures Flatten(batches + [b]) == Flatten(batches) + b
  {
    assert (batches + [b])[..|batches|] == batches;
  }

  /**
   * `_import_all_observations_from_dwca`: each row is built; the buffer is
   * handed to `batch_insert_observations` after every row whose index is a
   * multiple of 10000, and once more at the end. Returns the batches and the
   * skipped counter.
   */
  method ImportAllObservationsFromDwca(rows: seq<DwcRow>, ctx: ImportContext)
    returns (r: Result<(seq<seq<ObservationRow>>, nat), ImportError>)
    ensures r.Ok? <==> ImportOutcome(rows, |rows|, ctx).Ok?
    ensures r.Err? ==> r.error == ImportOutcome(rows, |rows|, ctx).error
    ensures r.Ok? ==>
      && Flatten(r.value.0) == ImportOutcome(rows, |rows|, ctx).value.0
      && r.value.1 == ImportOutcome(rows, |rows|, ctx).value.1
      && (forall b :: b in r.value.0 ==> |b| <= BulkCreateChunkSize)
      && |r.value.0| == FlushesBefore(|rows|) + 1
  {
    var skipped: nat := 0;
    var buffer: seq<ObservationRow> := [];
    var batches: seq<seq<ObservationRow>> := [];
    assert Flatten(batches) + buffer == [];
    for index := 0 to |rows|
      invariant Imported(rows, ctx, index, batches, buffer, skipped)
    {
      var built := BuildSingleObservation(rows[index], ctx);
      if built.Err? {
        ErrorStopsImport(rows, ctx, index, batches, buffer, skipped);
        return Err(if built.error == KeyError then CommandError(index) else built.error);
      }
      ReadRowKeepsImported(rows, ctx, index, batches, buffer, skipped);
      if built.value.None? {
        skipped := skipped + 1;
      } else {
        buffer := buffer + [built.value.value];
      }
      if index % BulkCreateChunkSize == 0 {
        batches := batches + [buffer];
        buffer := [];
      }
    }
    FlattenAppend(batches, buffer);
    FlushCountIsCeiling(|batches|, |rows|);
    batches := batches + [buffer];
    return Ok((batches, skipped));
  }

  /**
   * The loop's state before row `index`: the rows read so far were imported,
   * their observations are the flushed batches followed by the buffer, every
   * batch fits a bulk insert, and the batch count matches the rows read.
   */
  ghost predicate Imported(rows: seq<DwcRow>, ctx: ImportContext, index: nat,
                           batches: seq<seq<ObservationRow>>, buffer: seq<ObservationRow>, skipped: nat)
  {
    && index <= |rows|
    && ImportOutcome(rows, index, ctx) == Ok((Flatten(batches) + buffer, skipped))
    && (forall b :: b in batches ==> |b| <= BulkCreateChunkSize)
    && |buffer| <= BufferBound(index)
    && FlushCountFits(|batches|, index)
  }

  /** A row that fails to build ends the whole import with its error. */
  lemma ErrorStopsImport(rows: seq<DwcRow>, ctx: ImportContext, index: nat,
                         batches: seq<seq<ObservationRow>>, buffer: seq<ObservationRow>, skipped: nat)
    requires index < |rows| && Imported(rows, ctx, index, batches, buffer, skipped)
    requires BuildSingleObservation(rows[index], ctx).Err?
    ensures var e := BuildSingleObservation(rows[index], ctx).error;
      ImportOutcome(rows, |rows|, ctx) == Err(if e == KeyError then CommandError(index) else e)
  {
    OutcomeStep(rows, index, ctx, Flatten(batches) + buffer, skipped);
    OutcomeErrorSticks(rows, index + 1, |rows|, ctx);
  }

  /** A row that builds keeps the loop's state: counted if skipped, buffered if kept, flushed on a multiple of 10000. */
  lemma ReadRowKeepsImported(rows: seq<DwcRow>, ctx: ImportContext, index: nat,
                             batches: seq<seq<ObservationRow>>, buffer: seq<ObservationRow>, skipped: nat)
    requires index < |rows| && Imported(rows, ctx, index, batches, buffer, skipped)
    requires BuildSingleObservation(rows[index], ctx).Ok?
    ensures var built := BuildSingleObservation(rows[index], ctx).value;
      var counted := if built.None? then skipped + 1 else skipped;
      var filled := if built.None? then buffer else buffer + [built.value];
      if index % BulkCreateChunkSize == 0 then Imported(rows, ctx, index + 1, batches + [filled], [], counted)
      else Imported(rows, ctx, index + 1, batches, filled, counted)
  {
    var built := BuildSingleObservation(rows[index], ctx).value;
    var filled := if built.None? then buffer else buffer + [built.value];
    OutcomeStep(rows, index, ctx, Flatten(batches) + buffer, skipped);
    FlushCountStep(|batches|, index);
    BufferStep(index, |filled|);
    if built.Some? {
      PushKeepsFlattened(batches, buffer, Flatten(batches) + buffer, built.value);
    }
    if index % BulkCreateChunkSize == 0 {
      FlushKeepsFlattened(batches, filled);
    }
  }

  // ---------------------------------------------------------------- datasets

  /** A dict from dataset key to dataset name, in insertion order. */
  type DatasetTable = seq<(string, string)>

  function TableKeys(t: DatasetTable): set<string> {
    set i | 0 <= i < |t| :: t[i].0
  }

  predicate KeysUnique(t: DatasetTable) {
    forall i, j :: 0 <= i < j < |t| ==> t[i].0 != t[j].0
  }

  /** `d[key] = name`: the existing entry keeps its place, a new key goes last. */
  function Assign(t: DatasetTable, key: string, name: string): (r: DatasetTable)
    requires KeysUnique(t)
    ensures KeysUnique(r)
    ensures TableKeys(r) == TableKeys(t) + {key}
    ensures forall i :: 0 <= i < |r| && r[i].0 == key ==> r[i].1 == name
    ensures forall i :: 0 <= i < |t| && t[i].0 != key ==> i < |r| && r[i] == t[i]
    ensures forall i :: 0 <= i < |r| && r[i].0 != key ==> i < |t| && r[i] == t[i]
  {
    if exists i :: 0 <= i < |t| && t[i].0 == key then
      var i :| 0 <= i < |t| && t[i].0 == key;
      var r := t[i := (key, name)];
      assert TableKeys(r) == TableKeys(t) by {
        forall k | k in TableKeys(t) ensures k in TableKeys(r) {
          var j :| 0 <= j < |t| && t[j].0 == k;
          assert r[j].0 == k;
        }
      }
      r
    else
      var r := t + [(key, name)];
      assert TableKeys(r) == TableKeys(t) + {key} by {
        forall k | k in TableKeys(t) ensures k in TableKeys(r) {
          var j :| 0 <= j < |t| && t[j].0 == k;
          assert r[j].0 == k;
        }
        assert r[|t|].0 == key;
      }
      r
  }

  /** The name `d` holds for `key`, if any. */
  function NameFor(t: DatasetTable, key: string): (r: Option<string>)
    ensures r.Some? <==> key in TableKeys(t)
    ensures r.Some? ==> exists i :: 0 <= i < |t| && t[i] == (key, r.value)
  {
    if t == [] then None
    else if t[|t| - 1].0 == key then Some(t[|t| - 1].1)
    else
      var r := NameFor(t[..|t| - 1], key);
      assert TableKeys(t) == TableKeys(t[..|t| - 1]) + {t[|t| - 1].0} by {
        forall k | k in TableKeys(t) ensures k in TableKeys(t[..|t| - 1]) + {t[|t| - 1].0} {
          var j :| 0 <= j < |t| && t[j].0 == k;
          if j < |t| - 1 { assert t[..|t| - 1][j] == t[j]; }
        }
      }
      r
  }

  /** `datasets_referenced_in_dwca` after step 3.1: every row's key bound to its stripped name. */
  function ReferencedDatasets(rows: seq<DwcRow>): (t: DatasetTable)
    ensures KeysUnique(t)
  {
    if rows == [] then []
    else
      var row := rows[|rows| - 1];
      Assign(ReferencedDatasets(rows[..|rows| - 1]), Strip(row.datasetKey), Strip(row.datasetName))
  }

  /** Step 3.1: one pass over the rows, each assigning its dataset key. */
  method DatasetsReferencedInDwca(rows: seq<DwcRow>) returns (t: DatasetTable)
    ensures t == ReferencedDatasets(rows)
  {
    t := [];
    for k := 0 to |rows|
      invariant t == ReferencedDatasets(rows[..k])
    {
      assert rows[..k + 1][..k] == rows[..k];
      t := Assign(t, Strip(rows[k].datasetKey), Strip(rows[k].datasetName));
    }
    assert rows[..|rows|] == rows;
  }

  /** `j` is the last row carrying dataset key `key`. */
  predicate IsLastRowOf(rows: seq<DwcRow>, key: string, j: int) {
    0 <= j < |rows| && Strip(rows[j].datasetKey) == key
    && forall m :: j < m < |rows| ==> Strip(rows[m].datasetKey) != key
  }

  /** The dataset keys of the rows. */
  function RowKeys(rows: seq<DwcRow>): set<string> {
    set j | 0 <= j < |rows| :: Strip(rows[j].datasetKey)
  }

  /** The table holds exactly the dataset keys of the rows. */
  lemma {:induction false} ReferencedDatasetsKeys(rows: seq<DwcRow>)
    ensures TableKeys(ReferencedDatasets(rows)) == RowKeys(rows)
  {
    if rows != [] {
      var init := rows[..|rows| - 1];
      ReferencedDatasetsKeys(init);
      assert RowKeys(rows) == RowKeys(init) + {Strip(rows[|rows| - 1].datasetKey)} by {
        forall k | k in RowKeys(rows) ensures k in RowKeys(init) + {Strip(rows[|rows| - 1].datasetKey)} {
          var j :| 0 <= j < |rows| && Strip(rows[j].datasetKey) == k;
          if j < |rows| - 1 { assert init[j] == rows[j]; }
        }
        forall k | k in RowKeys(init) ensures k in RowKeys(rows) {
          var j :| 0 <= j < |init| && Strip(init[j].datasetKey) == k;
          assert init[j] == rows[j];
        }
      }
    }
  }

  /** Each key carries the name of the last row that has it: a later row overwrites an earlier one. */
  lemma {:induction false} ReferencedDatasetsLastNameWins(rows: seq<DwcRow>, key: string, j: nat)
    requires IsLastRowOf(rows, key, j)
    ensures NameFor(ReferencedDatasets(rows), key) == Some(Strip(rows[j].datasetName))
  {
    var init := rows[..|rows| - 1];
    var row := rows[|rows| - 1];
    if j == |rows| - 1 {
      NameForAssigned(ReferencedDatasets(init), key, Strip(row.datasetName));
    } else {
      assert IsLastRowOf(init, key, j) by {
        assert init[j] == rows[j];
        forall m | j < m < |init| ensures Strip(init[m].datasetKey) != key {
          assert init[m] == rows[m];
        }
      }
      ReferencedDatasetsLastNameWins(init, key, j);
      assert init[j] == rows[j];
      NameForUnchanged(ReferencedDatasets(init), Strip(row.datasetKey), Strip(row.datasetName), key);
    }
  }

  lemma NameForAssigned(t: DatasetTable, key: string, name: string)
    requires KeysUnique(t)
    ensures NameFor(Assign(t, key, name), key) == Some(name)
  {
    var r := Assign(t, key, name);
    var n := NameFor(r, key);
    var i :| 0 <= i < |r| && r[i] == (key, n.value);
  }

  lemma NameForUnchanged(t: DatasetTable, k: string, name: string, key: string)
    requires KeysUnique(t) && k != key
    ensures NameFor(Assign(t, k, name), key) == NameFor(t, key)
  {
    var r := Assign(t, k, name);
    var a := NameFor(r, key);
    var b := NameFor(t, key);
    if a.Some? {
      var i :| 0 <= i < |r| && r[i] == (key, a.value);
      var j :| 0 <= j < |t| && t[j] == (key, b.value);
      assert r[j] == t[j];
    }
  }

  /** Step 3.2: an empty name is replaced by the one the GBIF API gives for that key. */
  function FixedNames(t: DatasetTable, nameFromApi: string -> string): (r: DatasetTable)
    ensures |r| == |t|
    ensures forall i :: 0 <= i < |t| ==> r[i] == (t[i].0, if t[i].1 == "" then nameFromApi(t[i].0) else t[i].1)
  {
    seq(|t|, i requires 0 <= i < |t| => (t[i].0, if t[i].1 == "" then nameFromApi(t[i].0) else t[i].1))
  }

  method FixEmptyNames(t: DatasetTable, nameFromApi: string -> string) returns (r: DatasetTable)
    ensures r == FixedNames(t, nameFromApi)
  {
    r := t;
    for i := 0 to |t|
      invariant |r| == |t|
      invariant forall m :: 0 <= m < i ==> r[m] == FixedNames(t, nameFromApi)[m]
      invariant forall m :: i <= m < |t| ==> r[m] == t[m]
    {
      if r[i].1 == "" {
        r := r[i := (r[i].0, nameFromApi(r[i].0))];
      }
    }
  }

  /** Fixing names keeps the keys, and leaves no empty name the API could fill. */
  lemma FixedNamesKeepKeys(t: DatasetTable, nameFromApi: string -> string, i: nat)
    requires KeysUnique(t) && i < |t|
    ensures KeysUnique(FixedNames(t, nameFromApi)) && TableKeys(FixedNames(t, nameFromApi)) == TableKeys(t)
    ensures FixedNames(t, nameFromApi)[i].1 == "" ==> nameFromApi(t[i].0) == ""
  {
    var r := FixedNames(t, nameFromApi);
    assert forall k :: k in TableKeys(t) ==> k in TableKeys(r) by {
      forall k | k in TableKeys(t) ensures k in TableKeys(r) {
        var j :| 0 <= j < |t| && t[j].0 == k;
        assert r[j].0 == k;
      }
    }
  }

  predicate DatasetKeysUnique(datasets: seq<DatasetRow>) {
    forall i, j :: 0 <= i < j < |datasets| ==> datasets[i].gbifDatasetKey != datasets[j].gbifDatasetKey
  }

  /** The dataset with GBIF key `key` has primary key `pk` and name `name`. */
  predicate HoldsDataset(datasets: seq<DatasetRow>, pk: nat, name: string, key: string) {
    exists i :: 0 <= i < |datasets| && datasets[i] == DatasetRow(pk, name, key)
  }

  lemma TableKeysPrefix(t: DatasetTable, i: nat)
    requires i < |t|
    ensures TableKeys(t[..i + 1]) == TableKeys(t[..i]) + {t[i].0}
  {
    forall k | k in TableKeys(t[..i + 1]) ensures k in TableKeys(t[..i]) + {t[i].0} {
      var j :| 0 <= j < i + 1 && t[..i + 1][j].0 == k;
      if j < i { assert t[..i][j] == t[j]; }
    }
    forall k | k in TableKeys(t[..i]) ensures k in TableKeys(t[..i + 1]) {
      var j :| 0 <= j < i && t[..i][j].0 == k;
      assert t[..i + 1][j] == t[j];
    }
    assert t[..i + 1][i] == t[i];
  }

  /**
   * After the first `i` entries of `t`: the keys stay unique, `hash` binds
   * each key seen so far to the dataset holding that entry's name, and the
   * datasets of keys not seen yet are as they were in `initial`.
   */
  predicate DatasetProgress(t: DatasetTable, i: nat, initial: seq<DatasetRow>, datasets: seq<DatasetRow>,
                            hash: map<string, nat>) {
    && i <= |t|
    && DatasetKeysUnique(datasets)
    && hash.Keys == TableKeys(t[..i])
    && (forall m :: 0 <= m < i ==> HoldsDataset(datasets, hash[t[m].0], t[m].1, t[m].0))
    && |datasets| >= |initial|
    && (forall j :: 0 <= j < |initial| && initial[j].gbifDatasetKey !in TableKeys(t[..i]) ==>
          datasets[j] == initial[j])
  }

  /**
   * Step 3.3: `Dataset.objects.update_or_create(gbif_dataset_key=…, defaults={"name": …})`
   * for each entry, collecting `hash_table_datasets`.
   */
  method UpdateOrCreateDatasets(db: Db, t: DatasetTable) returns (hash: map<string, nat>)
    requires KeysUnique(t) && DatasetKeysUnique(db.datasets)
    modifies db`datasets, db`nextPk
    ensures DatasetKeysUnique(db.datasets)
    ensures hash.Keys == TableKeys(t)
    ensures forall i :: 0 <= i < |t| ==> HoldsDataset(db.datasets, hash[t[i].0], t[i].1, t[i].0)
    ensures forall j :: 0 <= j < |old(db.datasets)| && old(db.datasets)[j].gbifDatasetKey !in TableKeys(t) ==>
      j < |db.datasets| && db.datasets[j] == old(db.datasets)[j]
  {
    hash := map[];
    ghost var initial := db.datasets;
    assert t[..0] == [];
    for i := 0 to |t|
      invariant DatasetProgress(t, i, initial, db.datasets, hash)
    {
      ghost var before := db.datasets;
      var pk := UpdateOrCreateDataset(db, t[i].0, t[i].1);
      DatasetStep(t, i, initial, before, db.datasets, hash, pk);
      hash := hash[t[i].0 := pk];
    }
    assert t[..|t|] == t;
  }

  /** The loop invariant of `UpdateOrCreateDatasets` carries over one `update_or_create`. */
  lemma DatasetStep(t: DatasetTable, i: nat, initial: seq<DatasetRow>, before: seq<DatasetRow>, after: seq<DatasetRow>,
                    hashBefore: map<string, nat>, pk: nat)
    requires i < |t| && KeysUnique(t)
    requires DatasetProgress(t, i, initial, before, hashBefore)
    requires DatasetKeysUnique(after)
    requires HoldsDataset(after, pk, t[i].1, t[i].0) && |after| >= |before|
    requires forall j :: 0 <= j < |before| && before[j].gbifDatasetKey != t[i].0 ==> after[j] == before[j]
    ensures DatasetProgress(t, i + 1, initial, after, hashBefore[t[i].0 := pk])
  {
    TableKeysPrefix(t, i);
    var hash := hashBefore[t[i].0 := pk];
    forall m | 0 <= m < i + 1
      ensures HoldsDataset(after, hash[t[m].0], t[m].1, t[m].0)
    {
      if m < i {
        assert t[m].0 != t[i].0;
        var j :| 0 <= j < |before| && before[j] == DatasetRow(hashBefore[t[m].0], t[m].1, t[m].0);
        assert after[j] == before[j];
      }
    }
  }

  /** One `update_or_create`: rename the dataset holding `key`, or add one. */
  method UpdateOrCreateDataset(db: Db, key: string, name: string) returns (pk: nat)
    requires DatasetKeysUnique(db.datasets)
    modifies db`datasets, db`nextPk
    ensures DatasetKeysUnique(db.datasets)
    ensures HoldsDataset(db.datasets, pk, name, key)
    ensures |db.datasets| >= |old(db.datasets)|
    ensures forall j :: 0 <= j < |db.datasets| && db.datasets[j].gbifDatasetKey != key ==>
      j < |old(db.datasets)| && db.datasets[j] == old(db.datasets)[j]
    ensures forall j :: 0 <= j < |old(db.datasets)| && old(db.datasets)[j].gbifDatasetKey != key ==>
      db.datasets[j] == old(db.datasets)[j]
  {
    var i := 0;
    while i < |db.datasets| && db.datasets[i].gbifDatasetKey != key
      invariant 0 <= i <= |db.datasets|
      invariant forall j :: 0 <= j < i ==> db.datasets[j].gbifDatasetKey != key
    {
      i := i + 1;
    }
    if i < |db.datasets| {
      pk := db.datasets[i].pk;
      db.datasets := db.datasets[i := DatasetRow(pk, name, key)];
    } else {
      pk := db.nextPk;
      db.datasets := db.datasets + [DatasetRow(pk, name, key)];
      db.nextPk := db.nextPk + 1;
    }
    assert db.datasets[i] == DatasetRow(pk, name, key);
  }

  // ---------------------------------------------------------------- species

  /** `hash_table_species` after step 4: each taxon key bound to the last species carrying it. */
  function SpeciesTable(species: seq<SpeciesRow>): (h: map<int, nat>)
    ensures forall k :: k in h <==> exists i :: 0 <= i < |species| && species[i].gbifTaxonKey == k
  {
    if species == [] then map[]
    else
      var s := species[|species| - 1];
      var h := SpeciesTable(species[..|species| - 1]);
      assert forall i :: 0 <= i < |species| - 1 ==> species[..|species| - 1][i] == species[i];
      h[s.gbifTaxonKey := s.pk]
  }

  method BuildSpeciesTable(species: seq<SpeciesRow>) returns (h: map<int, nat>)
    ensures h == SpeciesTable(species)
  {
    h := map[];
    for i := 0 to |species|
      invariant h == SpeciesTable(species[..i])
    {
      assert species[..i + 1][..i] == species[..i];
      h := h[species[i].gbifTaxonKey := species[i].pk];
    }
    assert species[..|species|] == species;
  }

  /** With distinct taxon keys, the table gives back each species' own primary key. */
  lemma {:induction false} SpeciesTableLookup(species: seq<SpeciesRow>, i: nat)
    requires i < |species|
    requires forall a, b :: 0 <= a < b < |species| ==> species[a].gbifTaxonKey != species[b].gbifTaxonKey
    ensures SpeciesTable(species)[species[i].gbifTaxonKey] == species[i].pk
  {
    var last := |species| - 1;
    if i < last {
      var init := species[..last];
      assert init[i] == species[i];
      SpeciesTableLookup(init, i);
    }
  }

  // ---------------------------------------------------------------- clean-up

  predicate ObservationPkIn(pk: nat, observations: seq<ObservationRow>) {
    exists o :: o in observations && o.pk == pk
  }

  /** Rows whose observation survives; the others go with it (`on_delete=CASCADE`). */
  function CommentsOf(comments: seq<CommentRow>, observations: seq<ObservationRow>): (r: seq<CommentRow>)
    ensures forall c :: c in r <==> c in comments && ObservationPkIn(c.observation, observations)
  {
    if comments == [] then []
    else
      var last := comments[|comments| - 1];
      var init := comments[..|comments| - 1];
      assert comments == init + [last];
      CommentsOf(init, observations) + if ObservationPkIn(last.observation, observations) then [last] else []
  }

  function ViewsOf(views: seq<ViewRow>, observations: seq<ObservationRow>): (r: seq<ViewRow>)
    ensures forall v :: v in r <==> v in views && ObservationPkIn(v.observation, observations)
  {
    if views == [] then []
    else
      var last := views[|views| - 1];
      var init := views[..|views| - 1];
      assert views == init + [last];
      ViewsOf(init, observations) + if ObservationPkIn(last.observation, observations) then [last] else []
  }

  /** Keeping some of the views keeps one row per (observation, user). */
  lemma {:induction false} ViewsOfUnique(views: seq<ViewRow>, observations: seq<ObservationRow>)
    requires ViewsUnique(views)
    ensures ViewsUnique(ViewsOf(views, observations))
    decreases |views|
  {
    if views != [] {
      var last := views[|views| - 1];
      var init := views[..|views| - 1];
      assert views == init + [last];
      assert ViewsUnique(init);
      ViewsOfUnique(init, observations);
      var kept := ViewsOf(init, observations);
      if ObservationPkIn(last.observation, observations) {
        forall a | 0 <= a < |kept|
          ensures kept[a].observation != last.observation || kept[a].user != last.user
        {
          assert kept[a] in init;
          var i :| 0 <= i < |init| && init[i] == kept[a];
          assert views[i] == kept[a];
        }
        UniqueAppend(kept, last);
      } else {
        assert ViewsOf(views, observations) == kept + [];
      }
    }
  }

  /** A view whose (observation, user) pair is new keeps the rows unique. */
  lemma UniqueAppend(views: seq<ViewRow>, v: ViewRow)
    requires ViewsUnique(views)
    requires forall a :: 0 <= a < |views| ==> views[a].observation != v.observation || views[a].user != v.user
    ensures ViewsUnique(views + [v])
  {
    var r := views + [v];
    forall i, j | 0 <= i < j < |r|
      ensures r[i].observation != r[j].observation || r[i].user != r[j].user
    {
      assert r[i] == views[i];
      if j < |views| {
        assert r[j] == views[j];
      }
    }
  }

  /** Step 6: only the current import's observations remain, with their comments and views. */
  method DeletePreviousObservations(db: Db, current: nat)
    modifies db`observations, db`comments, db`views
    ensures db.observations == OfImport(old(db.observations), current)
    ensures db.comments == CommentsOf(old(db.comments), db.observations)
    ensures db.views == ViewsOf(old(db.views), db.observations)
    ensures forall o :: o in db.observations ==> o.dataImport == current
  {
    db.observations := OfImport(db.observations, current);
    db.comments := CommentsOf(db.comments, db.observations);
    db.views := ViewsOf(db.views, db.observations);
  }

  predicate DatasetUsed(pk: nat, observations: seq<ObservationRow>) {
    exists o :: o in observations && o.sourceDataset == pk
  }

  /** `alert.datasets.remove(dataset)` on every alert. */
  function Unreferenced(alerts: seq<AlertRow>, pk: nat): (r: seq<AlertRow>)
    ensures |r| == |alerts|
    ensures forall i :: 0 <= i < |alerts| ==> r[i] == alerts[i].(datasets := alerts[i].datasets - {pk})
  {
    seq(|alerts|, i requires 0 <= i < |alerts| => alerts[i].(datasets := alerts[i].datasets - {pk}))
  }

  /**
   * Step 8: every dataset with no observation left is first removed from the
   * alerts that reference it, then deleted; the others stay, in order.
   */
  method RemoveUnusedDatasets(db: Db)
    modifies db`datasets, db`alerts
    ensures forall d :: d in db.datasets <==> d in old(db.datasets) && DatasetUsed(d.pk, db.observations)
    ensures |db.alerts| == |old(db.alerts)|
    ensures forall i :: 0 <= i < |db.alerts| ==>
      db.alerts[i] == old(db.alerts)[i].(datasets := db.alerts[i].datasets)
      && db.alerts[i].datasets == old(db.alerts)[i].datasets - (set d | d in old(db.datasets) && !DatasetUsed(d.pk, db.observations) :: d.pk)
  {
    var all := db.datasets;
    var kept: seq<DatasetRow> := [];
    ghost var removed: set<nat> := {};
    for i := 0 to |all|
      invariant forall d :: d in kept <==> d in all[..i] && DatasetUsed(d.pk, db.observations)
      invariant removed == set d | d in all[..i] && !DatasetUsed(d.pk, db.observations) :: d.pk
      invariant |db.alerts| == |old(db.alerts)|
      invariant forall a :: 0 <= a < |db.alerts| ==>
        db.alerts[a] == old(db.alerts)[a].(datasets := old(db.alerts)[a].datasets - removed)
    {
      assert all[..i + 1] == all[..i] + [all[i]];
      var dataset := all[i];
      if !DatasetUsed(dataset.pk, db.observations) {
        db.alerts := Unreferenced(db.alerts, dataset.pk);
        removed := removed + {dataset.pk};
      } else {
        kept := kept + [dataset];
      }
    }
    assert all[..|all|] == all;
    db.datasets := kept;
  }
}
