/**
 * `dashboard/management/commands/import_occurrences.py`: the predicate of the
 * GBIF download request, the lazy species lookup, the rules by which one row
 * becomes an occurrence, the import loop and the transaction of `handle`.
 *
 * The `Occurrence` model this command writes to is not part of this model; an
 * occurrence is stored as an observation row holding the fields
 * `Occurrence.objects.create` is given, its other fields empty.
 */
module ImportOccurrences {
  import opened Wrappers
  import opened Text
  import opened Dates
  import opened JsonValues
  import opened Records
  import opened DwcRows
  import opened Database
  import ImportObservations

  // ---------------------------------------------------------------- the download predicate

  /** The taxon keys of the species, each written as `f"{s.gbif_taxon_key}"`, in order. */
  function TaxonKeyValues(species: seq<SpeciesRow>): (vs: seq<Json>)
    ensures |vs| == |species|
    ensures forall i :: 0 <= i < |vs| ==> vs[i] == JString(IntToString(species[i].gbifTaxonKey))
  {
    if species == [] then []
    else [JString(IntToString(species[0].gbifTaxonKey))] + TaxonKeyValues(species[1..])
  }

  function TaxonKeys(species: seq<SpeciesRow>): (ks: seq<int>)
    ensures |ks| == |species|
    ensures forall i :: 0 <= i < |ks| ==> ks[i] == species[i].gbifTaxonKey
  {
    if species == [] then [] else [species[0].gbifTaxonKey] + TaxonKeys(species[1..])
  }

  /** `build_gbif_predicate`: occurrences in the country whose taxon is one of the species. */
  function BuildGbifPredicate(countryCode: string, species: seq<SpeciesRow>): (j: Json)
    ensures j.JObject? && Keys(j.members) == ["predicate"]
  {
    JObject([("predicate", JObject([
      ("type", JString("and")),
      ("predicates", JArray([
        JObject([("type", JString("equals")), ("key", JString("COUNTRY")), ("value", JString(countryCode))]),
        JObject([("type", JString("in")), ("key", JString("TAXON_KEY")), ("values", JArray(TaxonKeyValues(species)))])
      ]))
    ]))])
  }

  /** `j[key]` when `j` is an object holding `key`. */
  function Member(j: Json, key: string): (v: Option<Json>)
    ensures v.Some? ==> j.JObject? && key in Keys(j.members)
  {
    if j.JObject? then Get(j.members, key) else None
  }

  /** `int()` of every value, each one a string, as GBIF reads the `in` values. */
  function ParseTaxonKeys(values: seq<Json>): (r: Option<seq<int>>)
    ensures r.Some? ==> |r.value| == |values|
  {
    if values == [] then Some([])
    else if values[0].JString? && ParseInt(values[0].s).Some? && ParseTaxonKeys(values[1..]).Some? then
      Some([ParseInt(values[0].s).value] + ParseTaxonKeys(values[1..]).value)
    else None
  }

  /**
   * How the download service reads such a predicate back: the country code and
   * the taxon keys, or None for anything not of that shape.
   */
  function DecodeGbifPredicate(j: Json): (r: Option<(string, seq<int>)>) {
    var p := Member(j, "predicate");
    if p.None? || Member(p.value, "type") != Some(JString("and")) then None
    else
      var parts := Member(p.value, "predicates");
      if parts.None? || !parts.value.JArray? || |parts.value.items| != 2 then None
      else
        var equals := parts.value.items[0];
        var inKeys := parts.value.items[1];
        var cc := Member(equals, "value");
        var values := Member(inKeys, "values");
        if || Member(equals, "type") != Some(JString("equals")) || Member(equals, "key") != Some(JString("COUNTRY"))
           || Member(inKeys, "type") != Some(JString("in")) || Member(inKeys, "key") != Some(JString("TAXON_KEY"))
           || cc.None? || !cc.value.JString? || values.None? || !values.value.JArray?
           || ParseTaxonKeys(values.value.items).None?
        then None
        else Some((cc.value.s, ParseTaxonKeys(values.value.items).value))
  }

  lemma {:induction false} ParseTaxonKeyValues(species: seq<SpeciesRow>)
    ensures ParseTaxonKeys(TaxonKeyValues(species)) == Some(TaxonKeys(species))
    decreases |species|
  {
    if species != [] {
      var vs := TaxonKeyValues(species);
      assert vs[1..] == TaxonKeyValues(species[1..]);
      ParseTaxonKeyValues(species[1..]);
      ParseIntOfIntToString(species[0].gbifTaxonKey);
    }
  }

  /** The request names the country and every species' taxon key, in order, and nothing else. */
  lemma GbifPredicateRoundTrip(countryCode: string, species: seq<SpeciesRow>)
    ensures DecodeGbifPredicate(BuildGbifPredicate(countryCode, species)) == Some((countryCode, TaxonKeys(species)))
  {
    var j := BuildGbifPredicate(countryCode, species);
    var equals := JObject([("type", JString("equals")), ("key", JString("COUNTRY")), ("value", JString(countryCode))]);
    var inKeys := JObject([("type", JString("in")), ("key", JString("TAXON_KEY")), ("values", JArray(TaxonKeyValues(species)))]);
    var p := JObject([("type", JString("and")), ("predicates", JArray([equals, inKeys]))]);
    assert [("predicate", p)][..0] == [];
    assert Member(j, "predicate") == Some(p);
    GetOfTwo(("type", JString("and")), ("predicates", JArray([equals, inKeys])));
    GetOfThree(("type", JString("equals")), ("key", JString("COUNTRY")), ("value", JString(countryCode)));
    GetOfThree(("type", JString("in")), ("key", JString("TAXON_KEY")), ("values", JArray(TaxonKeyValues(species))));
    ParseTaxonKeyValues(species);
  }

  // ---------------------------------------------------------------- species

  /** The species rows carrying taxon key `k`, in table order. */
  function WithTaxonKey(species: seq<SpeciesRow>, k: int): (r: seq<SpeciesRow>)
    ensures forall s :: s in r <==> s in species && s.gbifTaxonKey == k
    ensures |r| <= |species|
  {
    if species == [] then []
    else (if species[0].gbifTaxonKey == k then [species[0]] else []) + WithTaxonKey(species[1..], k)
  }

  /** `Species.objects.get(gbif_taxon_key=k)`. */
  function GetSpecies(species: seq<SpeciesRow>, k: int): (r: Result<SpeciesRow, ImportError>)
    ensures r.Ok? ==> r.value in species && r.value.gbifTaxonKey == k
    ensures r == Err(DoesNotExist) <==> forall s :: s in species ==> s.gbifTaxonKey != k
    ensures r.Err? ==> r.error == DoesNotExist || r.error == ImportError.MultipleObjectsReturned
  {
    var found := WithTaxonKey(species, k);
    if |found| == 0 then Err(DoesNotExist)
    else if |found| == 1 then Ok(found[0])
    else
      assert found[0] in found;
      Err(ImportError.MultipleObjectsReturned)
  }

  /** `gbif_taxon_key` is unique: at most one row carries each key. */
  predicate TaxonKeysUnique(species: seq<SpeciesRow>) {
    forall i, j :: 0 <= i < j < |species| ==> species[i].gbifTaxonKey != species[j].gbifTaxonKey
  }

  lemma {:induction false} UniqueKeyFoundOnce(species: seq<SpeciesRow>, i: nat)
    requires TaxonKeysUnique(species) && i < |species|
    ensures WithTaxonKey(species, species[i].gbifTaxonKey) == [species[i]]
    decreases |species|
  {
    var k := species[i].gbifTaxonKey;
    if i == 0 {
      var rest := WithTaxonKey(species[1..], k);
      if rest != [] {
        assert rest[0] in species[1..];
      }
    } else {
      assert species[1..][i - 1] == species[i];
      UniqueKeyFoundOnce(species[1..], i - 1);
    }
  }

  /** With the uniqueness the table keeps, `get` finds each species by its own key. */
  lemma GetSpeciesByOwnKey(species: seq<SpeciesRow>, i: nat)
    requires TaxonKeysUnique(species) && i < |species|
    ensures GetSpecies(species, species[i].gbifTaxonKey) == Ok(species[i])
  {
    UniqueKeyFoundOnce(species, i);
  }

  /**
   * `species_for_row`: the species of the row's taxonKey; only when none has
   * it is acceptedTaxonKey parsed and looked up. Several species with one key
   * raise at once.
   */
  function SpeciesForRow(row: DwcRow, species: seq<SpeciesRow>): (r: Result<SpeciesRow, ImportError>)
  {
    var taxonKey :- GetInt(row.taxonKey);
    match GetSpecies(species, taxonKey)
    case Err(DoesNotExist) =>
      var acceptedTaxonKey :- GetInt(row.acceptedTaxonKey);
      GetSpecies(species, acceptedTaxonKey)
    case other => other
  }

  /** A species found by taxonKey is the answer, whatever acceptedTaxonKey holds, even text `int()` refuses. */
  lemma TaxonKeyAnswersAlone(row: DwcRow, species: seq<SpeciesRow>)
    requires GetInt(row.taxonKey).Ok? && GetSpecies(species, GetInt(row.taxonKey).value).Ok?
    ensures SpeciesForRow(row, species) == GetSpecies(species, GetInt(row.taxonKey).value)
  {
  }

  /** When no species has the taxonKey, the answer is the acceptedTaxonKey's lookup, errors included. */
  lemma AcceptedTaxonKeyFallback(row: DwcRow, species: seq<SpeciesRow>)
    requires GetInt(row.taxonKey).Ok?
    requires forall s :: s in species ==> s.gbifTaxonKey != GetInt(row.taxonKey).value
    ensures GetInt(row.acceptedTaxonKey).Err? ==> SpeciesForRow(row, species) == Err(GetInt(row.acceptedTaxonKey).error)
    ensures GetInt(row.acceptedTaxonKey).Ok? ==>
      SpeciesForRow(row, species) == GetSpecies(species, GetInt(row.acceptedTaxonKey).value)
  {
  }

  /** An unreadable taxonKey is raised before any lookup. */
  lemma TaxonKeyParsedFirst(row: DwcRow, species: seq<SpeciesRow>)
    requires GetInt(row.taxonKey).Err?
    ensures SpeciesForRow(row, species) == Err(GetInt(row.taxonKey).error)
  {
  }

  /**
   * Unlike the observation importer, a row whose taxonKey is known is imported
   * even when its acceptedTaxonKey and speciesKey are not integers.
   */
  lemma LazierThanObservationImporter(row: DwcRow, species: seq<SpeciesRow>, i: nat)
    requires TaxonKeysUnique(species) && i < |species|
    requires GetInt(row.taxonKey) == Ok(species[i].gbifTaxonKey)
    requires GetInt(row.acceptedTaxonKey).Err?
    ensures SpeciesForRow(row, species) == Ok(species[i])
    ensures ImportObservations.SpeciesForRow(row, ImportObservations.SpeciesTable(species)).Err?
  {
    GetSpeciesByOwnKey(species, i);
  }

  // ---------------------------------------------------------------- one row

  /** A row `import_single_occurrence` imports: a year, coordinates and an occurrenceID. */
  predicate IsImported(row: DwcRow, parseFloat: FloatParser) {
    && Strip(row.year) != ""
    && PointOf(row, parseFloat).Some?
    && Strip(row.occurrenceId) != ""
  }

  /** occurrenceStatus plays no part: absent occurrences are imported too. */
  lemma StatusIgnored(row: DwcRow, parseFloat: FloatParser, status: string)
    ensures IsImported(row.(occurrenceStatus := status), parseFloat) <==> IsImported(row, parseFloat)
  {
  }

  /** Every row the observation importer accepts is imported here, and a row of absence is only imported here. */
  lemma ObservationImporterIsStricter(row: DwcRow, parseFloat: FloatParser)
    ensures ImportObservations.IsAccepted(row, parseFloat) ==> IsImported(row, parseFloat)
    ensures Strip(row.occurrenceStatus) != "PRESENT" ==> !ImportObservations.IsAccepted(row, parseFloat)
  {
  }

  /** Month then day, read in one `try`: if either is unreadable both become 1. */
  function MonthDay(row: DwcRow): (int, int) {
    match (GetInt(row.month), GetInt(row.day))
    case (Ok(month), Ok(day)) => (month, day)
    case _ => (1, 1)
  }

  lemma MonthDayJointReset(row: DwcRow)
    ensures GetInt(row.month).Ok? && GetInt(row.day).Ok? ==>
      MonthDay(row) == (ParseInt(Strip(row.month)).value, ParseInt(Strip(row.day)).value)
    ensures GetInt(row.month).Err? || GetInt(row.day).Err? ==> MonthDay(row) == (1, 1)
  {
  }

  /** Where the two importers part: an unreadable month loses the day here and keeps it there. */
  lemma DayLostWithMonth(row: DwcRow)
    requires GetInt(row.month).Err? && GetInt(row.day).Ok? && GetInt(row.day).value != 1
    ensures MonthDay(row).1 == 1
    ensures ImportObservations.OrOne(row.day) == GetInt(row.day).value
    ensures MonthDay(row).1 != ImportObservations.OrOne(row.day)
  {
  }

  /** `datetime.date(int(year_str), month, day)`. */
  function RowDate(row: DwcRow): (r: Result<Date, ImportError>) {
    var year :- GetInt(row.year);
    MakeDate(year, MonthDay(row).0, MonthDay(row).1)
  }

  /** What `Occurrence.objects.create` is given for one row, besides the import and the dataset. */
  datatype OccurrenceFields = OccurrenceFields(
    gbifId: int,
    occurrenceId: string,
    species: nat,
    location: Point,
    date: Date,
    datasetKey: string,
    datasetName: string)

  /**
   * `import_single_occurrence` without its writes: None for a row that is not
   * imported, otherwise the fields of the new occurrence, or the first error in
   * the order the source meets them (year, date, gbifID, species).
   */
  function BuildOccurrence(row: DwcRow, species: seq<SpeciesRow>, parseFloat: FloatParser): (r: Result<Option<OccurrenceFields>, ImportError>)
  {
    if !IsImported(row, parseFloat) then Ok(None)
    else
      var date :- RowDate(row);
      var gbifId :- GetInt(row.gbifId);
      var s :- SpeciesForRow(row, species);
      Ok(Some(OccurrenceFields(gbifId, Strip(row.occurrenceId), s.pk, PointOf(row, parseFloat).value, date,
                               Strip(row.datasetKey), Strip(row.datasetName))))
  }

  lemma NotImportedIffSkipped(row: DwcRow, species: seq<SpeciesRow>, parseFloat: FloatParser)
    ensures BuildOccurrence(row, species, parseFloat) == Ok(None) <==> !IsImported(row, parseFloat)
  {
  }

  /** An imported row fails exactly when its year, date, gbifID or species does. */
  lemma ImportedRowBuilt(row: DwcRow, species: seq<SpeciesRow>, parseFloat: FloatParser)
    requires IsImported(row, parseFloat)
    ensures BuildOccurrence(row, species, parseFloat).Ok? <==>
      RowDate(row).Ok? && GetInt(row.gbifId).Ok? && SpeciesForRow(row, species).Ok?
  {
  }

  /** The fields of a built occurrence come from the row as the source converts them. */
  lemma BuiltOccurrenceFields(row: DwcRow, species: seq<SpeciesRow>, parseFloat: FloatParser)
    requires BuildOccurrence(row, species, parseFloat).Ok? && BuildOccurrence(row, species, parseFloat).value.Some?
    ensures var f := BuildOccurrence(row, species, parseFloat).value.value;
      && f.date == Date(ParseInt(Strip(row.year)).value, MonthDay(row).0, MonthDay(row).1) && Valid(f.date)
      && Some(f.location) == PointOf(row, parseFloat)
      && f.occurrenceId == Strip(row.occurrenceId) && f.occurrenceId != ""
      && f.gbifId == ParseInt(Strip(row.gbifId)).value
      && f.species == SpeciesForRow(row, species).value.pk
      && f.datasetKey == Strip(row.datasetKey) && f.datasetName == Strip(row.datasetName)
  {
    assert IsImported(row, parseFloat);
    assert RowDate(row).Ok? && GetInt(row.gbifId).Ok? && SpeciesForRow(row, species).Ok?;
  }

  /** The row `Occurrence.objects.create` inserts; the stable identifier is the one `save` computes. */
  function OccurrenceRow(f: OccurrenceFields, pk: nat, dataset: nat, current: nat, sha1: string -> string): ObservationRow {
    ObservationRow(
      pk := pk,
      gbifId := IntToString(f.gbifId),
      occurrenceId := f.occurrenceId,
      stableId := BuildStableId(sha1, f.occurrenceId, f.datasetKey),
      species := f.species,
      location := Some(f.location),
      date := f.date,
      individualCount := None,
      locality := "",
      municipality := "",
      basisOfRecord := "",
      recordedBy := "",
      coordinateUncertaintyInMeters := None,
      dataImport := current,
      initialDataImport := current,
      sourceDataset := dataset)
  }

  // ---------------------------------------------------------------- the writes

  predicate HasDatasetKey(datasets: seq<DatasetRow>, key: string) {
    exists j :: 0 <= j < |datasets| && datasets[j].gbifDatasetKey == key
  }

  /** The dataset with primary key `pk` has GBIF key `key`. */
  predicate HoldsKey(datasets: seq<DatasetRow>, pk: nat, key: string) {
    exists j :: 0 <= j < |datasets| && datasets[j].pk == pk && datasets[j].gbifDatasetKey == key
  }

  predicate HoldsPk(datasets: seq<DatasetRow>, pk: nat) {
    exists j :: 0 <= j < |datasets| && datasets[j].pk == pk
  }

  /**
   * `Dataset.objects.get_or_create(gbif_dataset_key=key, defaults={"name": name})`:
   * an existing dataset is returned as it is, its name untouched; otherwise one
   * is created with that name.
   */
  method GetOrCreateDataset(db: Db, key: string, name: string) returns (pk: nat)
    requires ImportObservations.DatasetKeysUnique(db.datasets)
    modifies db`datasets, db`nextPk
    ensures ImportObservations.DatasetKeysUnique(db.datasets)
    ensures HoldsKey(db.datasets, pk, key)
    ensures HasDatasetKey(old(db.datasets), key) ==> db.datasets == old(db.datasets) && db.nextPk == old(db.nextPk)
    ensures !HasDatasetKey(old(db.datasets), key) ==>
      && db.datasets == old(db.datasets) + [DatasetRow(old(db.nextPk), name, key)]
      && pk == old(db.nextPk) && db.nextPk == old(db.nextPk) + 1
  {
    var i := 0;
    while i < |db.datasets| && db.datasets[i].gbifDatasetKey != key
      invariant 0 <= i <= |db.datasets|
      invariant forall j :: 0 <= j < i ==> db.datasets[j].gbifDatasetKey != key
    {
      i := i + 1;
    }
    if i < |db.datasets| {
      pk := db.datasets[i].pk;
    } else {
      pk := db.nextPk;
      db.datasets := db.datasets + [DatasetRow(pk, name, key)];
      db.nextPk := db.nextPk + 1;
    }
    assert db.datasets[i].pk == pk && db.datasets[i].gbifDatasetKey == key;
  }

  /**
   * What `migrate_linked_entities` did for the new row `o`: nothing when it
   * replaces no row or the replacement is refused; otherwise the comments, then
   * the views, of the replaced row moved to `o`.
   */
  predicate Linked(comments0: seq<CommentRow>, views0: seq<ViewRow>, comments: seq<CommentRow>, views: seq<ViewRow>,
                   observations: seq<ObservationRow>, o: ObservationRow, r: Result<(), MigrationError>) {
    var rep := ReplacedObservation(observations, o);
    && (rep.Err? ==> r == Err(Replacement(rep.error)) && comments == comments0 && views == views0)
    && (rep == Ok(None) ==> r == Ok(()) && comments == comments0 && views == views0)
    && (rep.Ok? && rep.value.Some? ==>
         && comments == RepointComments(comments0, rep.value.value.pk, o.pk)
         && (r.Ok? <==> !ViewConflict(views0, rep.value.value.pk, o.pk))
         && (r.Ok? ==> views == RepointViews(views0, rep.value.value.pk, o.pk))
         && (r.Err? ==> r.error == IntegrityError)
         && (r.Err? ==> exists k :: 0 <= k < |views0| && ConflictState(views0, views, rep.value.value.pk, o.pk, k)))
  }

  /** `Occurrence.objects.create(…)` then `new_occurrence.migrate_linked_entities()`. */
  method CreateOccurrence(db: Db, o: ObservationRow) returns (r: Result<(), MigrationError>)
    requires ViewsUnique(db.views)
    modifies db`observations, db`nextPk, db`comments, db`views
    ensures ViewsUnique(db.views)
    ensures db.observations == old(db.observations) + [o]
    ensures db.nextPk == old(db.nextPk) + 1
    ensures Linked(old(db.comments), old(db.views), db.comments, db.views, db.observations, o, r)
  {
    db.observations := db.observations + [o];
    db.nextPk := db.nextPk + 1;
    r := db.MigrateLinkedEntities(|db.observations| - 1);
  }

  /** Why the import of one row raises. */
  datatype OccurrenceError = RowError(rowCause: ImportError) | LinkError(linkCause: MigrationError)

  /**
   * The first half of `import_single_occurrence`: the dataset is got or created
   * once the date is known, and the new row is built; nothing is inserted yet.
   */
  method PrepareOccurrence(db: Db, row: DwcRow, current: nat, parseFloat: FloatParser)
    returns (r: Result<Option<ObservationRow>, ImportError>)
    requires ImportObservations.DatasetKeysUnique(db.datasets)
    modifies db`datasets, db`nextPk
    ensures ImportObservations.DatasetKeysUnique(db.datasets)
    ensures db.nextPk >= old(db.nextPk)
    ensures |db.datasets| >= |old(db.datasets)| && db.datasets[..|old(db.datasets)|] == old(db.datasets)
    ensures !IsImported(row, parseFloat) <==> r == Ok(None)
    ensures !IsImported(row, parseFloat) ==> db.datasets == old(db.datasets) && db.nextPk == old(db.nextPk)
    ensures var b := BuildOccurrence(row, db.species, parseFloat);
      b.Err? ==> r == Err(b.error)
    ensures IsImported(row, parseFloat) && RowDate(row).Ok? ==>
      HasDatasetKey(old(db.datasets), Strip(row.datasetKey)) ==> db.datasets == old(db.datasets)
    ensures IsImported(row, parseFloat) && RowDate(row).Ok? ==>
      !HasDatasetKey(old(db.datasets), Strip(row.datasetKey)) ==>
        db.datasets == old(db.datasets) + [DatasetRow(old(db.nextPk), Strip(row.datasetName), Strip(row.datasetKey))]
    ensures var b := BuildOccurrence(row, db.species, parseFloat);
      b.Ok? && b.value.Some? ==>
        && r.Ok? && r.value.Some?
        && r.value.value == OccurrenceRow(b.value.value, db.nextPk, r.value.value.sourceDataset, current, db.sha1)
        && HoldsKey(db.datasets, r.value.value.sourceDataset, b.value.value.datasetKey)
    ensures r.Ok? && r.value.Some? ==>
      && r.value.value.dataImport == current && r.value.value.occurrenceId == Strip(row.occurrenceId)
      && HoldsPk(db.datasets, r.value.value.sourceDataset)
      && BuiltFrom(r.value.value, row, db.species, parseFloat, current, db.sha1)
      && r.value.value.pk == db.nextPk
  {
    if !IsImported(row, parseFloat) {
      return Ok(None);
    }
    var date := RowDate(row);
    if date.Err? {
      return Err(date.error);
    }
    var dataset := GetOrCreateDataset(db, Strip(row.datasetKey), Strip(row.datasetName));
    var built := BuildOccurrence(row, db.species, parseFloat);
    if built.Err? {
      return Err(built.error);
    }
    return Ok(Some(OccurrenceRow(built.value.value, db.nextPk, dataset, current, db.sha1)));
  }

  /** `o` is the row's occurrence, of the current import, in a dataset that exists. */
  predicate AddedOccurrence(o: ObservationRow, row: DwcRow, datasets: seq<DatasetRow>, species: seq<SpeciesRow>,
                            parseFloat: FloatParser, current: nat, sha1: string -> string) {
    && o.dataImport == current && o.occurrenceId == Strip(row.occurrenceId)
    && HoldsPk(datasets, o.sourceDataset)
    && BuiltFrom(o, row, species, parseFloat, current, sha1)
  }

  /**
   * `import_single_occurrence(row, current_data_import)`: the row is prepared,
   * then the occurrence is created and takes over the comments and views of the
   * observation it replaces.
   */
  method ImportSingleOccurrence(db: Db, row: DwcRow, current: nat, parseFloat: FloatParser)
    returns (r: Result<(), OccurrenceError>)
    requires ImportObservations.DatasetKeysUnique(db.datasets) && ViewsUnique(db.views)
    modifies db`datasets, db`nextPk, db`observations, db`comments, db`views
    ensures ImportObservations.DatasetKeysUnique(db.datasets) && ViewsUnique(db.views)
    ensures db.nextPk >= old(db.nextPk)
    ensures |db.datasets| >= |old(db.datasets)| && db.datasets[..|old(db.datasets)|] == old(db.datasets)
    ensures !IsImported(row, parseFloat) ==>
      && r == Ok(()) && db.observations == old(db.observations)
      && db.datasets == old(db.datasets) && db.comments == old(db.comments) && db.views == old(db.views)
    ensures r.Err? && r.error.RowError? ==>
      db.observations == old(db.observations) && db.comments == old(db.comments) && db.views == old(db.views)
    ensures IsImported(row, parseFloat) && (r.Ok? || r.error.LinkError?) ==>
      && |db.observations| == |old(db.observations)| + 1
      && db.observations[..|old(db.observations)|] == old(db.observations)
      && AddedOccurrence(db.observations[|old(db.observations)|], row, db.datasets, db.species, parseFloat, current, db.sha1)
  {
    var prepared := PrepareOccurrence(db, row, current, parseFloat);
    if prepared.Err? {
      return Err(RowError(prepared.error));
    }
    if prepared.value.None? {
      assert !IsImported(row, parseFloat);
      return Ok(());
    }
    var o := prepared.value.value;
    assert IsImported(row, parseFloat) && AddedOccurrence(o, row, db.datasets, db.species, parseFloat, current, db.sha1);
    var linked := CreateOccurrence(db, o);
    assert db.observations[|old(db.observations)|] == o;
    r := if linked.Ok? then Ok(linked.value) else Err(LinkError(linked.error));
  }

  // ---------------------------------------------------------------- the import loop

  /** For each row, whether `import_single_occurrence` imports it. */
  function ImportedFlags(rows: seq<DwcRow>, parseFloat: FloatParser): (flags: seq<bool>)
    ensures |flags| == |rows|
  {
    if rows == [] then [] else [IsImported(rows[0], parseFloat)] + ImportedFlags(rows[1..], parseFloat)
  }

  lemma {:induction false} ImportedFlagAt(rows: seq<DwcRow>, parseFloat: FloatParser, i: nat)
    requires i < |rows|
    ensures ImportedFlags(rows, parseFloat)[i] == IsImported(rows[i], parseFloat)
  {
    if i > 0 {
      ImportedFlagAt(rows[1..], parseFloat, i - 1);
    }
  }

  /** The number of true flags among the first `k`. */
  function CountTrue(flags: seq<bool>, k: nat): (n: nat)
    requires k <= |flags|
    ensures n <= k
  {
    if k == 0 then 0 else CountTrue(flags, k - 1) + if flags[k - 1] then 1 else 0
  }

  /** `BuildOccurrence` of each row, in order. */
  function Builds(rows: seq<DwcRow>, species: seq<SpeciesRow>, parseFloat: FloatParser)
    : (bs: seq<Result<Option<OccurrenceFields>, ImportError>>)
    ensures |bs| == |rows|
  {
    if rows == [] then [] else [BuildOccurrence(rows[0], species, parseFloat)] + Builds(rows[1..], species, parseFloat)
  }

  lemma {:induction false} BuildsAt(rows: seq<DwcRow>, species: seq<SpeciesRow>, parseFloat: FloatParser, i: nat)
    requires i < |rows|
    ensures Builds(rows, species, parseFloat)[i] == BuildOccurrence(rows[i], species, parseFloat)
  {
    if i > 0 {
      BuildsAt(rows[1..], species, parseFloat, i - 1);
    }
  }

  /** The fields of a build that gives an occurrence, none otherwise. */
  function FieldsOf(b: Result<Option<OccurrenceFields>, ImportError>): (fields: seq<OccurrenceFields>)
    ensures |fields| <= 1
  {
    match b
    case Ok(Some(f)) => [f]
    case _ => []
  }

  /**
   * The fields of the occurrences the first `i` builds give, in row order: one
   * for each row `BuildOccurrence` builds, none for a row it skips or refuses.
   */
  function ImportedFields(builds: seq<Result<Option<OccurrenceFields>, ImportError>>, i: nat)
    : (fields: seq<OccurrenceFields>)
    requires i <= |builds|
    ensures |fields| <= i
  {
    if i == 0 then [] else ImportedFields(builds, i - 1) + FieldsOf(builds[i - 1])
  }

  /** `o` is the occurrence the row gives, whatever its primary key and dataset. */
  predicate BuiltFrom(o: ObservationRow, row: DwcRow, species: seq<SpeciesRow>, parseFloat: FloatParser,
                      current: nat, sha1: string -> string) {
    var b := BuildOccurrence(row, species, parseFloat);
    b.Ok? && b.value.Some? && o == OccurrenceRow(b.value.value, o.pk, o.sourceDataset, current, sha1)
  }

  /** `o` is the occurrence of `f`, whatever its primary key and dataset. */
  predicate IsOccurrenceOf(o: ObservationRow, f: OccurrenceFields, current: nat, sha1: string -> string) {
    o == OccurrenceRow(f, o.pk, o.sourceDataset, current, sha1)
  }

  /** The rows from index `base` on are the occurrences of `fields`, one each, in order. */
  predicate CreatedFrom(observations: seq<ObservationRow>, base: nat, fields: seq<OccurrenceFields>,
                        current: nat, sha1: string -> string)
    decreases |fields|
  {
    && base + |fields| == |observations|
    && (fields != [] ==>
          && IsOccurrenceOf(observations[|observations| - 1], fields[|fields| - 1], current, sha1)
          && CreatedFrom(observations[..|observations| - 1], base, fields[..|fields| - 1], current, sha1))
  }

  /** The `k`-th created row is the occurrence of the `k`-th fields. */
  lemma {:induction false} CreatedFromAt(observations: seq<ObservationRow>, base: nat, fields: seq<OccurrenceFields>,
                                         current: nat, sha1: string -> string, k: nat)
    requires CreatedFrom(observations, base, fields, current, sha1) && k < |fields|
    ensures observations[base + k] == OccurrenceRow(fields[k], observations[base + k].pk,
                                                    observations[base + k].sourceDataset, current, sha1)
    decreases |fields|
  {
    if k < |fields| - 1 {
      CreatedFromAt(observations[..|observations| - 1], base, fields[..|fields| - 1], current, sha1, k);
    }
  }

  /** The created rows, taken on their own, are the occurrences from index 0. */
  lemma {:induction false} CreatedFromShift(observations: seq<ObservationRow>, base: nat, fields: seq<OccurrenceFields>,
                                            current: nat, sha1: string -> string)
    requires CreatedFrom(observations, base, fields, current, sha1)
    ensures CreatedFrom(observations[base..], 0, fields, current, sha1)
    decreases |fields|
  {
    if fields != [] {
      var init := observations[..|observations| - 1];
      CreatedFromShift(init, base, fields[..|fields| - 1], current, sha1);
      var shifted := observations[base..];
      assert shifted[..|shifted| - 1] == init[base..];
      assert shifted[|shifted| - 1] == observations[|observations| - 1];
    }
  }

  /** The created occurrences extend by the row's occurrence when it is built, by nothing otherwise. */
  lemma CreatedFromStep(before: seq<ObservationRow>, after: seq<ObservationRow>, base: nat, fields: seq<OccurrenceFields>,
                        added: seq<OccurrenceFields>, current: nat, sha1: string -> string)
    requires CreatedFrom(before, base, fields, current, sha1)
    requires |added| <= 1
    requires added == [] ==> after == before
    requires added != [] ==>
      && |after| == |before| + 1 && after[..|before|] == before
      && IsOccurrenceOf(after[|before|], added[0], current, sha1)
    ensures CreatedFrom(after, base, fields + added, current, sha1)
  {
    if added == [] {
      assert fields + added == fields;
    } else {
      var next := fields + added;
      assert next[..|next| - 1] == fields && next[|next| - 1] == added[0];
    }
  }

  /** The rows from index `base` on: all of the current import, each in a dataset that exists. */
  predicate CreatedRows(observations: seq<ObservationRow>, datasets: seq<DatasetRow>, base: nat, current: nat) {
    && base <= |observations|
    && forall k :: base <= k < |observations| ==>
         observations[k].dataImport == current && HoldsPk(datasets, observations[k].sourceDataset)
  }

  /**
   * The state after the first `i` rows of an import that started from
   * `start`: the keys stay unique, the earlier rows are kept and one
   * observation of the current import was added per imported row so far.
   */
  predicate Progress(observations: seq<ObservationRow>, datasets: seq<DatasetRow>, views: seq<ViewRow>,
                     start: seq<ObservationRow>, flags: seq<bool>, i: nat, current: nat) {
    && i <= |flags|
    && ImportObservations.DatasetKeysUnique(datasets) && ViewsUnique(views)
    && |observations| == |start| + CountTrue(flags, i)
    && observations[..|start|] == start
    && CreatedRows(observations, datasets, |start|, current)
  }

  /** `Progress` after `i` rows, the created rows being the occurrences of those rows. */
  ghost predicate ImportedSoFar(observations: seq<ObservationRow>, datasets: seq<DatasetRow>, views: seq<ViewRow>,
                                builds: seq<Result<Option<OccurrenceFields>, ImportError>>,
                                sha1: string -> string, start: seq<ObservationRow>, flags: seq<bool>, i: nat, current: nat) {
    && i <= |builds|
    && Progress(observations, datasets, views, start, flags, i, current)
    && CreatedFrom(observations, |start|, ImportedFields(builds, i), current, sha1)
  }

  /**
   * `_import_all_occurrences_from_dwca`: every row in turn, the first error
   * ending the import. On success one occurrence was added per imported row.
   */
  method ImportAllOccurrencesFromDwca(db: Db, rows: seq<DwcRow>, current: nat, parseFloat: FloatParser)
    returns (r: Result<(), OccurrenceError>)
    requires ImportObservations.DatasetKeysUnique(db.datasets) && ViewsUnique(db.views)
    modifies db`datasets, db`nextPk, db`observations, db`comments, db`views
    ensures ImportObservations.DatasetKeysUnique(db.datasets) && ViewsUnique(db.views)
    ensures db.nextPk >= old(db.nextPk)
    ensures r.Ok? ==>
      ImportedSoFar(db.observations, db.datasets, db.views, Builds(rows, db.species, parseFloat), db.sha1,
                    old(db.observations), ImportedFlags(rows, parseFloat), |rows|, current)
  {
    ghost var flags := ImportedFlags(rows, parseFloat);
    ghost var builds := Builds(rows, db.species, parseFloat);
    ghost var start := db.observations;
    assert start[..|start|] == start && CountTrue(flags, 0) == 0 && ImportedFields(builds, 0) == [];
    var i := 0;
    while i < |rows|
      invariant 0 <= i <= |rows|
      invariant db.nextPk >= old(db.nextPk)
      invariant ImportedSoFar(db.observations, db.datasets, db.views, builds, db.sha1,
                              start, flags, i, current)
    {
      var one := ImportRowAt(db, rows, i, current, parseFloat, start, flags, builds);
      if one.Err? {
        return Err(one.error);
      }
      i := i + 1;
    }
    return Ok(());
  }

  /** The `i`-th turn of the import loop: the progress is extended by row `i`, or the import fails. */
  method ImportRowAt(db: Db, rows: seq<DwcRow>, i: nat, current: nat, parseFloat: FloatParser,
                     ghost start: seq<ObservationRow>, ghost flags: seq<bool>,
                     ghost builds: seq<Result<Option<OccurrenceFields>, ImportError>>)
    returns (r: Result<(), OccurrenceError>)
    requires i < |rows| && flags == ImportedFlags(rows, parseFloat) && builds == Builds(rows, db.species, parseFloat)
    requires ImportedSoFar(db.observations, db.datasets, db.views, builds, db.sha1,
                           start, flags, i, current)
    modifies db`datasets, db`nextPk, db`observations, db`comments, db`views
    ensures ImportObservations.DatasetKeysUnique(db.datasets) && ViewsUnique(db.views)
    ensures db.nextPk >= old(db.nextPk)
    ensures r.Ok? ==> ImportedSoFar(db.observations, db.datasets, db.views, builds, db.sha1,
                                    start, flags, i + 1, current)
  {
    ghost var before, datasetsBefore, viewsBefore := db.observations, db.datasets, db.views;
    ImportedFlagAt(rows, parseFloat, i);
    BuildsAt(rows, db.species, parseFloat, i);
    BuildFieldsOf(rows[i], db.species, parseFloat);
    r := ImportSingleOccurrence(db, rows[i], current, parseFloat);
    if r.Ok? {
      ImportedSoFarStep(before, db.observations, datasetsBefore, db.datasets, viewsBefore, db.views,
                        builds, db.sha1, start, flags, i, current);
    }
  }

  /** A skipped row gives no fields; an added occurrence is the occurrence of the row's fields. */
  lemma BuildFieldsOf(row: DwcRow, species: seq<SpeciesRow>, parseFloat: FloatParser)
    ensures !IsImported(row, parseFloat) ==> FieldsOf(BuildOccurrence(row, species, parseFloat)) == []
    ensures forall o, current, sha1 :: BuiltFrom(o, row, species, parseFloat, current, sha1) ==>
      && FieldsOf(BuildOccurrence(row, species, parseFloat)) == [BuildOccurrence(row, species, parseFloat).value.value]
      && IsOccurrenceOf(o, BuildOccurrence(row, species, parseFloat).value.value, current, sha1)
  {
  }

  /** One more row keeps the progress, whether it was imported or skipped. */
  lemma ImportedSoFarStep(before: seq<ObservationRow>, after: seq<ObservationRow>,
                          datasetsBefore: seq<DatasetRow>, datasetsAfter: seq<DatasetRow>,
                          viewsBefore: seq<ViewRow>, viewsAfter: seq<ViewRow>,
                          builds: seq<Result<Option<OccurrenceFields>, ImportError>>, sha1: string -> string,
                          start: seq<ObservationRow>, flags: seq<bool>, i: nat, current: nat)
    requires ImportedSoFar(before, datasetsBefore, viewsBefore, builds, sha1, start, flags, i, current)
    requires i < |flags| && i < |builds|
    requires ImportObservations.DatasetKeysUnique(datasetsAfter) && ViewsUnique(viewsAfter)
    requires |datasetsAfter| >= |datasetsBefore| && datasetsAfter[..|datasetsBefore|] == datasetsBefore
    requires !flags[i] ==> after == before && FieldsOf(builds[i]) == []
    requires flags[i] ==>
      && |after| == |before| + 1 && after[..|before|] == before
      && after[|before|].dataImport == current && HoldsPk(datasetsAfter, after[|before|].sourceDataset)
      && |FieldsOf(builds[i])| == 1 && IsOccurrenceOf(after[|before|], FieldsOf(builds[i])[0], current, sha1)
    ensures ImportedSoFar(after, datasetsAfter, viewsAfter, builds, sha1, start, flags, i + 1, current)
  {
    CreatedRowsStep(before, after, datasetsBefore, datasetsAfter, |start|, current, flags[i]);
    CreatedFromStep(before, after, |start|, ImportedFields(builds, i), FieldsOf(builds[i]), current, sha1);
  }

  /** The created rows stay created, and stay in existing datasets, when one more row is added or none. */
  lemma CreatedRowsStep(before: seq<ObservationRow>, after: seq<ObservationRow>,
                        datasetsBefore: seq<DatasetRow>, datasetsAfter: seq<DatasetRow>,
                        base: nat, current: nat, added: bool)
    requires CreatedRows(before, datasetsBefore, base, current)
    requires |datasetsAfter| >= |datasetsBefore| && datasetsAfter[..|datasetsBefore|] == datasetsBefore
    requires !added ==> after == before
    requires added ==>
      && |after| == |before| + 1 && after[..|before|] == before
      && after[|before|].dataImport == current && HoldsPk(datasetsAfter, after[|before|].sourceDataset)
    ensures CreatedRows(after, datasetsAfter, base, current)
    ensures after[..base] == before[..base]
  {
    forall k | base <= k < |after|
      ensures after[k].dataImport == current && HoldsPk(datasetsAfter, after[k].sourceDataset)
    {
      if k < |before| {
        assert after[k] == before[k];
        var j :| 0 <= j < |datasetsBefore| && datasetsBefore[j].pk == before[k].sourceDataset;
        assert datasetsAfter[j] == datasetsBefore[j];
      }
    }
    if added {
      assert after[..base] == after[..|before|][..base];
    }
  }

  // ---------------------------------------------------------------- handle

  /** Every row comes from an import whose key is below `next`, as sequence keys are. */
  predicate ImportsBefore(observations: seq<ObservationRow>, next: nat) {
    forall o :: o in observations ==> o.dataImport < next
  }

  /**
   * When no earlier row belongs to the current import, deleting the other
   * imports' rows leaves exactly the created occurrences.
   */
  lemma DeletionKeepsCreated(saved: seq<ObservationRow>, observations: seq<ObservationRow>,
                             fields: seq<OccurrenceFields>, current: nat, sha1: string -> string)
    requires |observations| >= |saved| && observations[..|saved|] == saved
    requires CreatedFrom(observations, |saved|, fields, current, sha1)
    ensures ImportsBefore(saved, current) ==>
      CreatedFrom(OfImport(observations, current), 0, fields, current, sha1)
  {
    var created := observations[|saved|..];
    CreatedFromShift(observations, |saved|, fields, current, sha1);
    if ImportsBefore(saved, current) {
      assert observations == saved + created;
      forall o | o in created
        ensures o.dataImport == current
      {
        var k :| 0 <= k < |created| && created[k] == o;
        CreatedFromAt(observations, |saved|, fields, current, sha1, k);
      }
      OfImportAppend(saved, created, current);
      OfImportAllOrNone(saved, current);
      OfImportAllOrNone(created, current);
      assert OfImport(observations, current) == created;
    }
  }

  /**
   * Steps 2 to 4 of `handle`, inside `transaction.atomic()`: a new `DataImport`
   * started at `start` takes the download id, every row is imported, the
   * occurrences of earlier imports are deleted and the import is completed at
   * `end`. An error rolls every table back; the primary-key sequence is not
   * rolled back, as PostgreSQL sequences are not.
   */
  method Handle(db: Db, rows: seq<DwcRow>, parseFloat: FloatParser, downloadId: string, start: Timestamp, end: Timestamp)
    returns (r: Result<nat, OccurrenceError>)
    requires ImportObservations.DatasetKeysUnique(db.datasets) && ViewsUnique(db.views)
    modifies db`datasets, db`nextPk, db`observations, db`comments, db`views, db`dataImports
    ensures ImportObservations.DatasetKeysUnique(db.datasets) && ViewsUnique(db.views)
    ensures r.Err? ==>
      && db.datasets == old(db.datasets) && db.observations == old(db.observations)
      && db.comments == old(db.comments) && db.views == old(db.views) && db.dataImports == old(db.dataImports)
    ensures r.Ok? ==>
      && r.value == old(db.nextPk)
      && (forall o :: o in db.observations ==> o.dataImport == r.value)
      && |db.dataImports| == |old(db.dataImports)| + 1
      && db.dataImports[..|old(db.dataImports)|] == old(db.dataImports)
      && db.dataImports[|old(db.dataImports)|] ==
           DataImportRow(r.value, start, Some(end), true, downloadId, CountOfImport(db.observations, r.value))
    ensures r.Ok? && ImportsBefore(old(db.observations), old(db.nextPk)) ==>
      CreatedFrom(db.observations, 0, ImportedFields(Builds(rows, db.species, parseFloat), |rows|), r.value, db.sha1)
  {
    var savedDatasets, savedObservations, savedComments, savedViews, savedImports :=
      db.datasets, db.observations, db.comments, db.views, db.dataImports;
    var current := db.nextPk;
    db.nextPk := db.nextPk + 1;
    db.dataImports := db.dataImports + [DataImportRow(current, start, None, false, downloadId, 0)];
    var imported := ImportAllOccurrencesFromDwca(db, rows, current, parseFloat);
    if imported.Err? {
      db.datasets, db.observations, db.comments, db.views, db.dataImports :=
        savedDatasets, savedObservations, savedComments, savedViews, savedImports;
      return Err(imported.error);
    }
    ghost var views := db.views;
    ghost var fields := ImportedFields(Builds(rows, db.species, parseFloat), |rows|);
    ghost var all := db.observations;
    ImportObservations.DeletePreviousObservations(db, current);
    if ImportsBefore(savedObservations, current) {
      DeletionKeepsCreated(savedObservations, all, fields, current, db.sha1);
      assert CreatedFrom(db.observations, 0, fields, current, db.sha1);
    }
    ImportObservations.ViewsOfUnique(views, db.observations);
    db.CompleteImport(|db.dataImports| - 1, end);
    return Ok(current);
  }
}
