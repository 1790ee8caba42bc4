/**
 * The rows of the dashboard's database tables (`dashboard/models.py`) and the
 * model methods that only compute: area availability, the stable identifier,
 * the replaced-observation decision, `Observation.as_dict`, `Area.to_dict` and
 * the `Alert.*_list` summaries.
 */
module Records {
  import opened Wrappers
  import opened Text
  import opened Dates
  import opened JsonValues

  /** A moment as the server clock gives it; clocks are parameters of the model. */
  type Timestamp = int

  /** `request.user`: Django's `AnonymousUser`, or a signed-in `User` known by its primary key. */
  datatype User = Anonymous | Authenticated(pk: nat)

  datatype SpeciesRow = SpeciesRow(pk: nat, name: string, gbifTaxonKey: int, group: string)

  datatype DatasetRow = DatasetRow(pk: nat, name: string, gbifDatasetKey: string)

  datatype DataImportRow = DataImportRow(
    pk: nat,
    start: Timestamp,
    end: Option<Timestamp>,
    completed: bool,
    gbifDownloadId: string,
    importedObservationsCounter: int)

  /** A location as `lonlat_4326_tuple` reports it (longitude, latitude in EPSG:4326). */
  datatype Point = Point(lon: real, lat: real)

  datatype ObservationRow = ObservationRow(
    pk: nat,
    gbifId: string,
    occurrenceId: string,
    stableId: string,
    species: nat,
    location: Option<Point>,
    date: Date,
    individualCount: Option<int>,
    locality: string,
    municipality: string,
    basisOfRecord: string,
    recordedBy: string,
    coordinateUncertaintyInMeters: Option<real>,
    dataImport: nat,
    /** The import that first brought this observation in (as reconstructed by `InitialDataImportFor`). */
    initialDataImport: nat,
    sourceDataset: nat)

  datatype CommentRow = CommentRow(pk: nat, observation: nat, author: nat, text: string, createdAt: Timestamp)

  /** One `ObservationView`: the first time `user` opened the details of `observation`. */
  datatype ViewRow = ViewRow(pk: nat, observation: nat, user: nat, timestamp: Timestamp)

  /** An `Area`; its multipolygon only matters through its GeoJSON text and the within relation. */
  datatype AreaRow = AreaRow(pk: nat, owner: Option<nat>, name: string, geojson: string)

  datatype AlertRow = AlertRow(
    pk: nat,
    user: nat,
    name: string,
    species: set<nat>,
    datasets: set<nat>,
    areas: set<nat>,
    emailNotificationsFrequency: string)

  // ---------------------------------------------------------------- Area

  predicate IsGlobal(a: AreaRow) {
    a.owner.None?
  }

  predicate IsUserSpecific(a: AreaRow) {
    !IsGlobal(a)
  }

  /** An anonymous user owns nothing: `AnonymousUser` never equals a `User` row. */
  predicate IsOwnedBy(a: AreaRow, u: User) {
    IsUserSpecific(a) && u.Authenticated? && a.owner == Some(u.pk)
  }

  predicate IsAvailableTo(a: AreaRow, u: User) {
    IsGlobal(a) || IsOwnedBy(a, u)
  }

  /** Anonymous visitors see the global areas and nothing else. */
  lemma AnonymousSeesGlobalAreasOnly(a: AreaRow)
    ensures IsAvailableTo(a, Anonymous) <==> IsGlobal(a)
  {
  }

  /** A signed-in user sees the global areas and exactly the areas they own. */
  lemma AvailabilityForUser(a: AreaRow, pk: nat)
    ensures IsAvailableTo(a, Authenticated(pk)) <==> a.owner.None? || a.owner == Some(pk)
  {
  }

  /** A user-specific area is available to its owner only. */
  lemma UserSpecificAreaHasOneReader(a: AreaRow, u1: User, u2: User)
    requires IsUserSpecific(a) && IsAvailableTo(a, u1) && IsAvailableTo(a, u2)
    ensures u1 == u2
  {
  }

  /** `Area.to_dict(include_geojson)`. */
  function AreaToDict(a: AreaRow, includeGeojson: bool): (r: Json)
    ensures r.JObject?
    ensures Keys(r.members) == ["id", "name", "isUserSpecific"] + (if includeGeojson then ["geojson_str"] else [])
    ensures Get(r.members, "isUserSpecific") == Some(JBool(a.owner.Some?))
  {
    var base := [("id", JInt(a.pk)), ("name", JString(a.name)), ("isUserSpecific", JBool(IsUserSpecific(a)))];
    JObject(base + if includeGeojson then [("geojson_str", JString(a.geojson))] else [])
  }

  // ---------------------------------------------------------------- stable identifier

  /** The text `build_stable_id` hashes. */
  function StableIdInput(occurrenceId: string, datasetKey: string): string {
    "occ_id: " + occurrenceId + " d_id: " + datasetKey
  }

  /** `Observation.build_stable_id`, SHA-1 (hex digest of the UTF-8 bytes) being the parameter `sha1`. */
  function BuildStableId(sha1: string -> string, occurrenceId: string, datasetKey: string): string {
    sha1(StableIdInput(occurrenceId, datasetKey))
  }

  /**
   * The hashed text determines the pair it was built from as long as dataset keys
   * hold no space (GBIF dataset keys are UUIDs): equal inputs mean equal pairs.
   */
  lemma StableIdInputInjective(o1: string, k1: string, o2: string, k2: string)
    requires ' ' !in k1 && ' ' !in k2
    requires StableIdInput(o1, k1) == StableIdInput(o2, k2)
    ensures o1 == o2 && k1 == k2
  {
    var s := StableIdInput(o1, k1);
    assert s == StableIdInput(o2, k2);
    assert s[|s| - |k1| - 1] == ' ' && s[|s| - |k1|..] == k1;
    assert s[|s| - |k2| - 1] == ' ' && s[|s| - |k2|..] == k2;
    assert |k1| == |k2|;
    assert k1 == k2;
    assert s[..|s| - |k1|] == "occ_id: " + o1 + " d_id: ";
    assert s[..|s| - |k2|] == "occ_id: " + o2 + " d_id: ";
    assert o1 == s[8..|s| - |k1| - 7];
    assert o2 == s[8..|s| - |k2| - 7];
  }

  /** Without that proviso two different pairs hash the same text. */
  lemma StableIdInputAmbiguous()
    ensures StableIdInput("a d_id: b", "c") == StableIdInput("a", "b d_id: c")
  {
  }

  // ---------------------------------------------------------------- replaced observation

  datatype ReplacementError = OtherIdenticalObservationIsNewer | MultipleObjectsReturned

  /** `get_identical_observations`: the other rows sharing `self`'s stable identifier. */
  function IdenticalObservations(all: seq<ObservationRow>, self: ObservationRow): (r: seq<ObservationRow>)
    ensures forall o :: o in r <==> o in all && o.pk != self.pk && o.stableId == self.stableId
    ensures |r| <= |all|
  {
    if all == [] then []
    else
      (if all[0].pk != self.pk && all[0].stableId == self.stableId then [all[0]] else [])
      + IdenticalObservations(all[1..], self)
  }

  predicate IsIdentical(o: ObservationRow, self: ObservationRow) {
    o.pk != self.pk && o.stableId == self.stableId
  }

  /** `Observation.replaced_observation`. */
  function ReplacedObservation(all: seq<ObservationRow>, self: ObservationRow): (r: Result<Option<ObservationRow>, ReplacementError>)
    ensures r == Ok(None) <==> forall o :: o in all ==> !IsIdentical(o, self)
    ensures r.Ok? && r.value.Some? ==>
      && r.value.value in all
      && IsIdentical(r.value.value, self)
      && r.value.value.dataImport < self.dataImport
    ensures r == Err(MultipleObjectsReturned) <==> |IdenticalObservations(all, self)| >= 2
    ensures r == Err(OtherIdenticalObservationIsNewer) ==>
      exists o :: o in all && IsIdentical(o, self) && o.dataImport >= self.dataImport
  {
    var identical := IdenticalObservations(all, self);
    if |identical| == 0 then Ok(None)
    else if |identical| == 1 then
      var theOtherOne := identical[0];
      if theOtherOne.dataImport < self.dataImport then Ok(Some(theOtherOne))
      else Err(OtherIdenticalObservationIsNewer)
    else
      assert identical[0] in identical;
      Err(MultipleObjectsReturned)
  }

  /** When a row comes back, it is the only other row with the same stable identifier. */
  lemma ReplacedObservationIsTheOnlyOne(all: seq<ObservationRow>, self: ObservationRow, o: ObservationRow)
    requires ReplacedObservation(all, self).Ok? && ReplacedObservation(all, self).value.Some?
    requires o in all && IsIdentical(o, self)
    ensures o == ReplacedObservation(all, self).value.value
  {
    var identical := IdenticalObservations(all, self);
    assert o in identical;
  }

  /**
   * `Observation.set_or_migrate_initial_data_import`, whose body is not part of
   * this model, reconstructed from its name and from `replaced_observation`:
   * the initial import of the row `o` replaces, or `o`'s own import when it
   * replaces none or `replaced_observation` raises. The lookup is by the stable
   * identifier `o` already carries.
   */
  function InitialDataImportFor(all: seq<ObservationRow>, o: ObservationRow): nat {
    match ReplacedObservation(all, o)
    case Ok(Some(replaced)) => replaced.initialDataImport
    case _ => o.dataImport
  }

  /**
   * In that reconstruction, a row with the same stable identifier from one
   * older import passes its initial import on.
   */
  lemma InitialDataImportKept(all: seq<ObservationRow>, o: ObservationRow, previous: ObservationRow)
    requires ObservationPksUnique(all)
    requires previous in all && IsIdentical(previous, o) && previous.dataImport < o.dataImport
    requires forall p :: p in all && IsIdentical(p, o) ==> p == previous
    ensures InitialDataImportFor(all, o) == previous.initialDataImport
  {
    var identical := IdenticalObservations(all, o);
    assert previous in identical;
    IdenticalPksUnique(all, o);
    forall i | 0 <= i < |identical|
      ensures identical[i] == previous
    {
      assert identical[i] in identical;
    }
    assert |identical| >= 2 ==> identical[0].pk == identical[1].pk;
    assert ReplacedObservation(all, o) == Ok(Some(previous));
  }

  /** Primary keys of a table are distinct. */
  predicate ObservationPksUnique(all: seq<ObservationRow>) {
    forall i, j :: 0 <= i < j < |all| ==> all[i].pk != all[j].pk
  }

  lemma {:induction false} IdenticalPksUnique(all: seq<ObservationRow>, o: ObservationRow)
    requires ObservationPksUnique(all)
    ensures ObservationPksUnique(IdenticalObservations(all, o))
    decreases |all|
  {
    if all != [] {
      var rest := IdenticalObservations(all[1..], o);
      PksUniqueTail(all);
      IdenticalPksUnique(all[1..], o);
      if IsIdentical(all[0], o) {
        PksUniqueCons(all[0], rest);
        assert IdenticalObservations(all, o) == [all[0]] + rest;
      } else {
        assert IdenticalObservations(all, o) == rest;
      }
    }
  }

  /** The rows after the first keep distinct keys, none of them the first row's. */
  lemma PksUniqueTail(all: seq<ObservationRow>)
    requires all != [] && ObservationPksUnique(all)
    ensures ObservationPksUnique(all[1..])
    ensures forall p :: p in all[1..] ==> p.pk != all[0].pk
  {
    forall i, j | 0 <= i < j < |all[1..]|
      ensures all[1..][i].pk != all[1..][j].pk
    {
      assert all[1..][i] == all[i + 1] && all[1..][j] == all[j + 1];
    }
    forall p | p in all[1..]
      ensures p.pk != all[0].pk
    {
      var k :| 0 <= k < |all[1..]| && all[1..][k] == p;
      assert all[k + 1] == p;
    }
  }

  /** A row whose key none of the others has keeps the keys distinct. */
  lemma PksUniqueCons(x: ObservationRow, rest: seq<ObservationRow>)
    requires ObservationPksUnique(rest)
    requires forall p :: p in rest ==> p.pk != x.pk
    ensures ObservationPksUnique([x] + rest)
  {
    var r := [x] + rest;
    forall i, j | 0 <= i < j < |r|
      ensures r[i].pk != r[j].pk
    {
      assert r[j] == rest[j - 1];
      if i > 0 {
        assert r[i] == rest[i - 1];
      } else {
        assert rest[j - 1] in rest;
      }
    }
  }

  /** In that reconstruction, a row that no other row shares an identifier with starts its own history. */
  lemma InitialDataImportFresh(all: seq<ObservationRow>, o: ObservationRow)
    requires forall p :: p in all ==> !IsIdentical(p, o)
    ensures InitialDataImportFor(all, o) == o.dataImport
  {
  }

  // ---------------------------------------------------------------- views and as_dict

  predicate HasView(views: seq<ViewRow>, observation: nat, user: nat) {
    exists i :: 0 <= i < |views| && views[i].observation == observation && views[i].user == user
  }

  function CoordinateJson(c: Option<real>): Json {
    match c
    case None => JNull
    case Some(r) => JReal(r)
  }

  /** The eight members every `as_dict` result has, `date` last. */
  function ObservationMembers(o: ObservationRow, speciesName: string, datasetName: string): (d: seq<(string, Json)>)
    requires Valid(o.date)
    ensures |d| == 8 && d[1] == ("stableId", JString(o.stableId))
    ensures d[7].0 == "date" && d[7].1.JString? && Parse(d[7].1.s) == Some(o.date)
    ensures forall i :: 0 <= i < |d| ==> d[i].0 != "viewedByCurrentUser"
  {
    ParseFormat(o.date);
    var lat := CoordinateJson(if o.location.Some? then Some(o.location.value.lat) else None);
    var lon := CoordinateJson(if o.location.Some? then Some(o.location.value.lon) else None);
    [
      ("id", JInt(o.pk)),
      ("stableId", JString(o.stableId)),
      ("gbifId", JString(o.gbifId)),
      ("lat", lat),
      ("lon", lon),
      ("speciesName", JString(speciesName)),
      ("datasetName", JString(datasetName)),
      ("date", JString(Format(o.date)))
    ]
  }

  /**
   * `Observation.as_dict(for_user)`: species and dataset names come through the
   * foreign keys; `viewedByCurrentUser` is present for signed-in users only.
   */
  function AsDict(o: ObservationRow, speciesName: string, datasetName: string, views: seq<ViewRow>, forUser: User): (r: Json)
    requires Valid(o.date)
    ensures r.JObject?
    ensures "viewedByCurrentUser" in Keys(r.members) <==> forUser.Authenticated?
    ensures forUser.Authenticated? ==>
      Get(r.members, "viewedByCurrentUser") == Some(JBool(HasView(views, o.pk, forUser.pk)))
    ensures exists ds :: Get(r.members, "date") == Some(JString(ds)) && Parse(ds) == Some(o.date)
  {
    var d := ObservationMembers(o, speciesName, datasetName);
    var ds := d[7].1.s;
    assert d[..7] + [d[7]] == d;
    assert Get(d, "date") == Some(JString(ds));
    if forUser.Authenticated? then
      var members := d + [("viewedByCurrentUser", JBool(HasView(views, o.pk, forUser.pk)))];
      assert members[..|members| - 1] == d;
      assert Get(members, "date") == Some(JString(ds));
      JObject(members)
    else
      assert "viewedByCurrentUser" !in Keys(d);
      JObject(d)
  }

  // ---------------------------------------------------------------- alert summaries

  /** `Alert.EMAIL_NOTIFICATION_CHOICES` and its default. */
  const EmailNotificationChoices: seq<(string, string)> :=
    [("N", "No emails"), ("D", "Daily"), ("W", "Weekly"), ("M", "Monthly")]

  const DefaultEmailNotificationsFrequency: string := "W"

  /** Code-point order on strings, standing in for the database collation of `ORDER BY name`. */
  predicate StrLessEq(a: string, b: string)
    decreases |a|
  {
    a == [] || (b != [] && (a[0] < b[0] || (a[0] == b[0] && StrLessEq(a[1..], b[1..]))))
  }

  lemma {:induction false} StrLessEqTotal(a: string, b: string)
    ensures StrLessEq(a, b) || StrLessEq(b, a)
    decreases |a|
  {
    if a != [] && b != [] && a[0] == b[0] {
      StrLessEqTotal(a[1..], b[1..]);
    }
  }

  lemma {:induction false} StrLessEqTransitive(a: string, b: string, c: string)
    requires StrLessEq(a, b) && StrLessEq(b, c)
    ensures StrLessEq(a, c)
    decreases |a|
  {
    if a != [] && b != [] && c != [] && a[0] == b[0] && b[0] == c[0] {
      StrLessEqTransitive(a[1..], b[1..], c[1..]);
    }
  }

  lemma {:induction false} StrLessEqReflexive(a: string)
    ensures StrLessEq(a, a)
    decreases |a|
  {
    if a != [] {
      StrLessEqReflexive(a[1..]);
    }
  }

  lemma {:induction false} StrLessEqAntisymmetric(a: string, b: string)
    requires StrLessEq(a, b) && StrLessEq(b, a)
    ensures a == b
    decreases |a|
  {
    if a != [] && b != [] {
      StrLessEqAntisymmetric(a[1..], b[1..]);
      assert a == [a[0]] + a[1..] && b == [b[0]] + b[1..];
    }
  }

  predicate SortedNames(s: seq<string>) {
    forall i, j :: 0 <= i < j < |s| ==> StrLessEq(s[i], s[j])
  }

  /** A name no greater than any of a sorted list's names may go in front of it. */
  lemma ConsSorted(h: string, rest: seq<string>)
    requires SortedNames(rest)
    requires forall j :: 0 <= j < |rest| ==> StrLessEq(h, rest[j])
    ensures SortedNames([h] + rest)
  {
    var r := [h] + rest;
    forall i, j | 0 <= i < j < |r| ensures StrLessEq(r[i], r[j]) {
      assert r[j] == rest[j - 1];
      if i > 0 {
        assert r[i] == rest[i - 1];
      }
    }
  }

  lemma InsertFirst(x: string, s: seq<string>)
    requires SortedNames(s) && s != [] && StrLessEq(x, s[0])
    ensures SortedNames([x] + s)
  {
    forall j | 0 <= j < |s| ensures StrLessEq(x, s[j]) {
      if j > 0 {
        StrLessEqTransitive(x, s[0], s[j]);
      }
    }
    ConsSorted(x, s);
  }

  lemma InsertAfterHead(x: string, s: seq<string>, rest: seq<string>)
    requires SortedNames(s) && s != [] && StrLessEq(s[0], x)
    requires SortedNames(rest) && multiset(rest) == multiset(s[1..]) + multiset{x}
    ensures SortedNames([s[0]] + rest)
    ensures multiset([s[0]] + rest) == multiset(s) + multiset{x}
  {
    forall j | 0 <= j < |rest| ensures StrLessEq(s[0], rest[j]) {
      assert rest[j] in multiset(rest);
      if rest[j] != x {
        assert rest[j] in multiset(s[1..]);
        var k :| 0 <= k < |s[1..]| && s[1..][k] == rest[j];
        assert s[k + 1] == rest[j];
      }
    }
    ConsSorted(s[0], rest);
    assert s == [s[0]] + s[1..];
  }

  function InsertName(x: string, s: seq<string>): (r: seq<string>)
    requires SortedNames(s)
    ensures SortedNames(r) && multiset(r) == multiset(s) + multiset{x}
    decreases |s|
  {
    if s == [] then [x]
    else if StrLessEq(x, s[0]) then
      InsertFirst(x, s);
      [x] + s
    else
      StrLessEqTotal(x, s[0]);
      var rest := InsertName(x, s[1..]);
      InsertAfterHead(x, s, rest);
      [s[0]] + rest
  }

  /** The names in `ORDER BY name` order. */
  function SortNames(s: seq<string>): (r: seq<string>)
    ensures SortedNames(r) && multiset(r) == multiset(s)
  {
    if s == [] then [] else
      assert s == [s[0]] + s[1..];
      InsertName(s[0], SortNames(s[1..]))
  }

  /**
   * `Alert.areas_list`, `datasets_list` and `species_list`: the names of the
   * related rows, sorted, joined with ", ".
   */
  function NamesList(names: seq<string>): string {
    JoinWith(", ", SortNames(names))
  }

  /** A sorted list starts with its least name. */
  lemma SortedHeadIsLeast(a: seq<string>, x: string)
    requires SortedNames(a) && x in multiset(a)
    ensures StrLessEq(a[0], x)
  {
    var k :| 0 <= k < |a| && a[k] == x;
    if k == 0 {
      StrLessEqReflexive(x);
    }
  }

  lemma TailMultiset(a: seq<string>)
    requires a != []
    ensures multiset(a[1..]) == multiset(a) - multiset{a[0]}
  {
    assert a == [a[0]] + a[1..];
  }

  /** Two sorted lists holding the same names are the same list. */
  lemma {:induction false} SortedNamesUnique(a: seq<string>, b: seq<string>)
    requires SortedNames(a) && SortedNames(b) && multiset(a) == multiset(b)
    ensures a == b
    decreases |a|
  {
    assert |a| == |multiset(a)| == |multiset(b)| == |b|;
    if a != [] {
      SortedHeadIsLeast(a, b[0]);
      SortedHeadIsLeast(b, a[0]);
      StrLessEqAntisymmetric(a[0], b[0]);
      TailMultiset(a);
      TailMultiset(b);
      SortedNamesUnique(a[1..], b[1..]);
      assert a == [a[0]] + a[1..] && b == [b[0]] + b[1..];
    }
  }

  /**
   * The joined list does not depend on the order in which the related rows
   * come back: any two lists of the same names give the same text.
   */
  lemma NamesListOrderFree(a: seq<string>, b: seq<string>)
    requires multiset(a) == multiset(b)
    ensures NamesList(a) == NamesList(b)
  {
    SortedNamesUnique(SortNames(a), SortNames(b));
  }

  /** Names already in order are joined as they stand. */
  lemma NamesListOfSorted(names: seq<string>)
    requires SortedNames(names)
    ensures NamesList(names) == JoinWith(", ", names)
  {
    SortedNamesUnique(SortNames(names), names);
  }
}
