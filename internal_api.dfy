/**
 * The endpoints of `dashboard/views/internal_api.py` the front end calls: the
 * data page with its `mode`, the monthly histogram, the alert form's
 * create-or-update, the notification intervals and the suggested alert name.
 */
module InternalApi {
  import opened Wrappers
  import opened Text
  import opened JsonValues
  import opened Records
  import opened RequestFilters
  import opened ObservationQuery
  import opened Listing
  import opened DataPage
  import opened Database

  // ---------------------------------------------------------------- the data page

  /** The `mode` the data page reads from the URL query, whatever the method: `"normal"` when absent. */
  function ModeOf(r: Request): (m: string)
    ensures GetLast(r.get, "mode").None? ==> m == "normal"
    ensures GetLast(r.get, "mode").Some? ==> m == GetLast(r.get, "mode").value
  {
    GetLast(r.get, "mode").GetOr("normal")
  }

  /**
   * `filtered_observations_data_page_json`: the page of `ObservationsPage`,
   * each observation through `as_dict(for_user)` in `"normal"` mode or through
   * `as_short_dict()` (given as `shortDict`) in `"short"` mode. Any other mode
   * leaves `results` unassigned, which raises only once the page exists.
   */
  function DataPageJson(r: Request, t: Tables, shortDict: ObservationRow -> Json): (res: Result<Json, ViewError>)
    requires DatesOfTableValid(t)
    ensures ObservationsPage(r, t).Err? ==> res == Err(ObservationsPage(r, t).error)
    ensures res.Ok? <==> ObservationsPage(r, t).Ok? && (ModeOf(r) == "normal" || ModeOf(r) == "short")
    ensures ObservationsPage(r, t).Ok? && ModeOf(r) != "normal" && ModeOf(r) != "short" ==>
      res == Err(UnboundLocalError)
    ensures res.Ok? && ModeOf(r) == "normal" ==>
      var page := ObservationsPage(r, t).value;
      res.value == PageResponse(page, NormalResults(page, t, r.user))
    ensures res.Ok? && ModeOf(r) == "short" ==>
      var page := ObservationsPage(r, t).value;
      res.value == PageResponse(page, ShortResults(page, shortDict))
  {
    match ObservationsPage(r, t)
    case Err(e) => Err(e)
    case Ok(page) =>
      var mode := ModeOf(r);
      if mode == "normal" then Ok(PageResponse(page, NormalResults(page, t, r.user)))
      else if mode == "short" then Ok(PageResponse(page, ShortResults(page, shortDict)))
      else Err(UnboundLocalError)
  }

  /** `as_short_dict()` of each observation of the page, in page order. */
  function ShortResults(page: Page<ObservationRow>, shortDict: ObservationRow -> Json): (rs: seq<Json>)
    ensures |rs| == |page.objects|
    ensures forall i :: 0 <= i < |rs| ==> rs[i] == shortDict(page.objects[i])
  {
    seq(|page.objects|, i requires 0 <= i < |page.objects| => shortDict(page.objects[i]))
  }

  // ---------------------------------------------------------------- alert form

  /** A `ValidationError.message_dict`, or the view's `errors`: field name to messages, in insertion order. */
  type ErrorDict = seq<(string, seq<string>)>

  function KeySet(d: ErrorDict): set<string> {
    set i | 0 <= i < |d| :: d[i].0
  }

  lemma KeySetCons(e: (string, seq<string>), d: ErrorDict)
    ensures KeySet([e] + d) == {e.0} + KeySet(d)
  {
    var c := [e] + d;
    forall k | k in KeySet(c) ensures k in {e.0} + KeySet(d) {
      var i :| 0 <= i < |c| && c[i].0 == k;
      if i > 0 { assert c[i] == d[i - 1]; }
    }
    forall k | k in KeySet(d) ensures k in KeySet(c) {
      var i :| 0 <= i < |d| && d[i].0 == k;
      assert c[i + 1] == d[i];
    }
    assert c[0] == e;
  }

  /** `d[k]`: the messages of the first entry for `k`. */
  function Lookup(d: ErrorDict, k: string): (v: Option<seq<string>>)
    ensures v.Some? <==> k in KeySet(d)
  {
    if d == [] then None
    else if d[0].0 == k then Some(d[0].1)
    else
      assert KeySet(d) == {d[0].0} + KeySet(d[1..]) by {
        assert forall i :: 1 <= i < |d| ==> d[i] == d[1..][i - 1];
      }
      Lookup(d[1..], k)
  }

  /** The entries of `a`, each with `b`'s messages when `b` has its key. */
  function Overridden(a: ErrorDict, b: ErrorDict): (r: ErrorDict)
    ensures |r| == |a|
    ensures forall i :: 0 <= i < |a| ==> r[i].0 == a[i].0
  {
    if a == [] then []
    else [(a[0].0, Lookup(b, a[0].0).GetOr(a[0].1))] + Overridden(a[1..], b)
  }

  /** The entries of `b` whose key is not in `keys`, in order. */
  function NewEntries(keys: set<string>, b: ErrorDict): (r: ErrorDict)
    ensures KeySet(r) == KeySet(b) - keys
  {
    if b == [] then []
    else
      var rest := NewEntries(keys, b[1..]);
      assert KeySet(b) == {b[0].0} + KeySet(b[1..]) by {
        assert forall i :: 1 <= i < |b| ==> b[i] == b[1..][i - 1];
      }
      if b[0].0 in keys then rest
      else
        KeySetCons(b[0], rest);
        [b[0]] + rest
  }

  /** `a | b` on dicts: `a`'s keys first, in order, then `b`'s new ones; `b`'s messages win. */
  function Merge(a: ErrorDict, b: ErrorDict): (m: ErrorDict)
    ensures KeySet(m) == KeySet(a) + KeySet(b)
    ensures m == [] <==> a == [] && b == []
  {
    var o := Overridden(a, b);
    assert KeySet(o) == KeySet(a) by {
      forall k | k in KeySet(a) ensures k in KeySet(o) {
        var i :| 0 <= i < |a| && a[i].0 == k;
        assert o[i].0 == k;
      }
    }
    var m := o + NewEntries(KeySet(a), b);
    assert KeySet(m) == KeySet(o) + KeySet(NewEntries(KeySet(a), b)) by {
      forall k | k in KeySet(m) ensures k in KeySet(o) + KeySet(NewEntries(KeySet(a), b)) {
        var i :| 0 <= i < |m| && m[i].0 == k;
        if i >= |o| { assert m[i] == NewEntries(KeySet(a), b)[i - |o|]; }
      }
      forall k | k in KeySet(NewEntries(KeySet(a), b)) ensures k in KeySet(m) {
        var n := NewEntries(KeySet(a), b);
        var i :| 0 <= i < |n| && n[i].0 == k;
        assert m[|o| + i] == n[i];
      }
      forall k | k in KeySet(o) ensures k in KeySet(m) {
        var i :| 0 <= i < |o| && o[i].0 == k;
        assert m[i] == o[i];
      }
    }
    assert m != [] ==> m[0].0 in KeySet(m);
    assert a != [] ==> a[0].0 in KeySet(a);
    assert b != [] ==> b[0].0 in KeySet(b);
    m
  }

  lemma {:induction false} LookupAppend(x: ErrorDict, y: ErrorDict, k: string)
    ensures Lookup(x + y, k) == if k in KeySet(x) then Lookup(x, k) else Lookup(y, k)
  {
    if x != [] {
      var c := x + y;
      assert c[0] == x[0] && c[1..] == x[1..] + y;
      assert x == [x[0]] + x[1..];
      KeySetCons(x[0], x[1..]);
      if x[0].0 != k {
        LookupAppend(x[1..], y, k);
        assert Lookup(c, k) == Lookup(c[1..], k);
      }
    } else {
      assert x + y == y;
    }
  }

  lemma {:induction false} LookupOverridden(a: ErrorDict, b: ErrorDict, k: string)
    requires k in KeySet(a)
    ensures Lookup(Overridden(a, b), k) == Some(Lookup(b, k).GetOr(Lookup(a, k).value))
  {
    if a[0].0 != k {
      assert Overridden(a, b)[1..] == Overridden(a[1..], b);
      assert k in KeySet(a[1..]) by {
        var i :| 0 <= i < |a| && a[i].0 == k;
        assert a[1..][i - 1] == a[i];
      }
      LookupOverridden(a[1..], b, k);
    }
  }

  lemma {:induction false} LookupNewEntries(keys: set<string>, b: ErrorDict, k: string)
    requires k !in keys
    ensures Lookup(NewEntries(keys, b), k) == Lookup(b, k)
  {
    if b != [] {
      LookupNewEntries(keys, b[1..], k);
    }
  }

  /** After `a | b`, a key of `b` carries `b`'s messages and any other key `a`'s. */
  lemma MergeLookup(a: ErrorDict, b: ErrorDict, k: string)
    ensures Lookup(Merge(a, b), k) == if k in KeySet(b) then Lookup(b, k) else Lookup(a, k)
  {
    var o := Overridden(a, b);
    assert KeySet(o) == KeySet(a) by {
      forall k' | k' in KeySet(a) ensures k' in KeySet(o) {
        var i :| 0 <= i < |a| && a[i].0 == k';
        assert o[i].0 == k';
      }
    }
    LookupAppend(o, NewEntries(KeySet(a), b), k);
    if k in KeySet(a) {
      LookupOverridden(a, b, k);
    } else {
      LookupNewEntries(KeySet(a), b, k);
    }
  }

  const SpeciesRequiredMessage := "At least one species must be selected"

  /** The error the view adds itself: model validation does not require a species. */
  function SpeciesErrors(speciesIds: seq<nat>): (e: ErrorDict)
    ensures e == [] <==> |speciesIds| > 0
    ensures e != [] ==> KeySet(e) == {"species"}
  {
    if |speciesIds| == 0 then
      var e := [("species", [SpeciesRequiredMessage])];
      KeySetCons(e[0], []);
      assert e == [e[0]] + [];
      e
    else []
  }

  /** The answers of `_create_or_update_alert`. */
  datatype AlertResponse =
    | Http404                                                      // no alert of the user with that id
    | AlertJson(alertId: Option<nat>, success: bool, errors: ErrorDict)
    | ForeignKeyViolation(relation: AlertRelation)                 // `IntegrityError`: an `add` met an id with no row

  /** The many-to-many relations of an alert, in the order the view rewrites them. */
  datatype AlertRelation = SpeciesRelation | AreasRelation | DatasetsRelation

  /** `if alert_id:`: neither absent nor zero. */
  predicate IsTruthy(id: Option<int>) {
    id.Some? && id.value != 0
  }

  /** The position of the user's alert with primary key `id`, if there is one. */
  function AlertIndex(alerts: seq<AlertRow>, user: nat, id: int): (r: Option<nat>)
    ensures r.Some? ==> r.value < |alerts| && alerts[r.value].pk == id && alerts[r.value].user == user
    ensures r.None? ==> forall i :: 0 <= i < |alerts| ==> !(alerts[i].pk == id && alerts[i].user == user)
  {
    if alerts == [] then None
    else if alerts[0].pk == id && alerts[0].user == user then Some(0)
    else match AlertIndex(alerts[1..], user, id)
      case None =>
        assert forall i :: 1 <= i < |alerts| ==> alerts[i] == alerts[1..][i - 1];
        None
      case Some(i) => Some(i + 1)
  }

  function SetOf(ids: seq<nat>): (s: set<nat>)
    ensures forall x :: x in s <==> x in ids
  {
    set x | x in ids
  }

  function SpeciesPkSet(species: seq<SpeciesRow>): (r: set<nat>)
    ensures forall x :: x in r <==> exists s :: s in species && s.pk == x
  {
    set s | s in species :: s.pk
  }

  function AreaPkSet(areas: seq<AreaRow>): (r: set<nat>)
    ensures forall x :: x in r <==> exists a :: a in areas && a.pk == x
  {
    set a | a in areas :: a.pk
  }

  function DatasetPkSet(datasets: seq<DatasetRow>): (r: set<nat>)
    ensures forall x :: x in r <==> exists d :: d in datasets && d.pk == x
  {
    set d | d in datasets :: d.pk
  }

  /** Every id names a row: the foreign keys `add` inserts are satisfied. */
  predicate AllRowsExist(ids: seq<nat>, pks: set<nat>) {
    forall i :: 0 <= i < |ids| ==> ids[i] in pks
  }

  /**
   * The first relation, in the order species, areas, datasets, whose `add` is
   * given an id that no row has.
   */
  function FirstUnknownRelation(speciesIds: seq<nat>, areaIds: seq<nat>, datasetIds: seq<nat>,
                                species: seq<SpeciesRow>, areas: seq<AreaRow>, datasets: seq<DatasetRow>): (r: Option<AlertRelation>)
    ensures r.None? <==>
      && AllRowsExist(speciesIds, SpeciesPkSet(species)) && AllRowsExist(areaIds, AreaPkSet(areas))
      && AllRowsExist(datasetIds, DatasetPkSet(datasets))
    ensures r == Some(SpeciesRelation) <==> !AllRowsExist(speciesIds, SpeciesPkSet(species))
    ensures r == Some(AreasRelation) <==>
      AllRowsExist(speciesIds, SpeciesPkSet(species)) && !AllRowsExist(areaIds, AreaPkSet(areas))
  {
    if !AllRowsExist(speciesIds, SpeciesPkSet(species)) then Some(SpeciesRelation)
    else if !AllRowsExist(areaIds, AreaPkSet(areas)) then Some(AreasRelation)
    else if !AllRowsExist(datasetIds, DatasetPkSet(datasets)) then Some(DatasetsRelation)
    else None
  }

  /**
   * The saved alert row once the three clear-and-add steps have run up to the
   * failing one: the relations before it hold the requested ids, the failing one
   * is left cleared and the later ones keep what the saved row had.
   */
  function RelationsRewritten(saved: AlertRow, speciesIds: seq<nat>, areaIds: seq<nat>, datasetIds: seq<nat>,
                              failing: Option<AlertRelation>): (r: AlertRow)
    ensures r.pk == saved.pk && r.user == saved.user && r.name == saved.name
    ensures r.emailNotificationsFrequency == saved.emailNotificationsFrequency
    ensures failing.None? ==>
      r.species == SetOf(speciesIds) && r.areas == SetOf(areaIds) && r.datasets == SetOf(datasetIds)
    ensures failing == Some(SpeciesRelation) ==> r.species == {} && r.areas == saved.areas && r.datasets == saved.datasets
    ensures failing == Some(AreasRelation) ==> r.species == SetOf(speciesIds) && r.areas == {} && r.datasets == saved.datasets
    ensures failing == Some(DatasetsRelation) ==> r.species == SetOf(speciesIds) && r.areas == SetOf(areaIds) && r.datasets == {}
  {
    match failing
    case None => saved.(species := SetOf(speciesIds), areas := SetOf(areaIds), datasets := SetOf(datasetIds))
    case Some(SpeciesRelation) => saved.(species := {})
    case Some(AreasRelation) => saved.(species := SetOf(speciesIds), areas := {})
    case Some(DatasetsRelation) => saved.(species := SetOf(speciesIds), areas := SetOf(areaIds), datasets := {})
  }

  /** Every alert watches at least one species. */
  predicate AlertsHaveSpecies(alerts: seq<AlertRow>) {
    forall i :: 0 <= i < |alerts| ==> alerts[i].species != {}
  }

  /** Alert primary keys are distinct and below the next one to hand out. */
  predicate AlertPksValid(alerts: seq<AlertRow>, nextPk: nat) {
    && (forall i :: 0 <= i < |alerts| ==> alerts[i].pk < nextPk)
    && (forall i, j :: 0 <= i < j < |alerts| ==> alerts[i].pk != alerts[j].pk)
  }

  /**
   * `_create_or_update_alert`: loads the user's alert with id `alertId` (404 if
   * none) or starts a new one, sets its name and frequency, collects the
   * species error and `full_clean()`'s `message_dict` (given as `fullClean`),
   * and, only when there is no error, saves the alert and rewrites its three
   * relations, each by `clear()` then `add()`. No transaction wraps these
   * steps: an `add` given an id that no row has fails on its foreign key after
   * the save and the steps before it have taken effect, and the request ends
   * in that `IntegrityError`.
   */
  method CreateOrUpdateAlert(
    db: Db, name: string, speciesIds: seq<nat>, areaIds: seq<nat>, datasetIds: seq<nat>,
    frequency: string, user: nat, alertId: Option<int>, fullClean: (string, string) -> ErrorDict)
    returns (resp: AlertResponse)
    modifies db`alerts, db`nextPk
    ensures IsTruthy(alertId) && AlertIndex(old(db.alerts), user, alertId.value).None? ==>
      resp == Http404 && db.alerts == old(db.alerts) && db.nextPk == old(db.nextPk)
    ensures resp.Http404? ==> IsTruthy(alertId) && AlertIndex(old(db.alerts), user, alertId.value).None?
    ensures resp.AlertJson? ==>
      && resp.errors == Merge(SpeciesErrors(speciesIds), fullClean(name, frequency))
      && (resp.success <==> resp.errors == [])
    ensures resp.AlertJson? && !resp.success ==>
      && db.alerts == old(db.alerts) && db.nextPk == old(db.nextPk)
      && resp.alertId == (if IsTruthy(alertId) then Some(old(db.alerts)[AlertIndex(old(db.alerts), user, alertId.value).value].pk) else None)
    ensures resp.AlertJson? && resp.success ==>
      FirstUnknownRelation(speciesIds, areaIds, datasetIds, db.species, db.areas, db.datasets).None?
    ensures resp.AlertJson? && resp.success && !IsTruthy(alertId) ==>
      && db.alerts == old(db.alerts) + [AlertRow(old(db.nextPk), user, name, SetOf(speciesIds), SetOf(datasetIds), SetOf(areaIds), frequency)]
      && db.nextPk == old(db.nextPk) + 1
      && resp.alertId == Some(old(db.nextPk))
    ensures resp.AlertJson? && resp.success && IsTruthy(alertId) ==>
      var i := AlertIndex(old(db.alerts), user, alertId.value).value;
      && db.alerts == old(db.alerts)[i := AlertRow(old(db.alerts)[i].pk, user, name, SetOf(speciesIds), SetOf(datasetIds), SetOf(areaIds), frequency)]
      && db.nextPk == old(db.nextPk)
      && resp.alertId == Some(old(db.alerts)[i].pk)
    ensures resp.ForeignKeyViolation? <==>
      && !(IsTruthy(alertId) && AlertIndex(old(db.alerts), user, alertId.value).None?)
      && Merge(SpeciesErrors(speciesIds), fullClean(name, frequency)) == []
      && FirstUnknownRelation(speciesIds, areaIds, datasetIds, db.species, db.areas, db.datasets).Some?
    ensures resp.ForeignKeyViolation? ==>
      resp.relation == FirstUnknownRelation(speciesIds, areaIds, datasetIds, db.species, db.areas, db.datasets).value
    ensures resp.ForeignKeyViolation? && !IsTruthy(alertId) ==>
      && db.alerts == old(db.alerts) + [RelationsRewritten(AlertRow(old(db.nextPk), user, name, {}, {}, {}, frequency),
                                                           speciesIds, areaIds, datasetIds, Some(resp.relation))]
      && db.nextPk == old(db.nextPk) + 1
    ensures resp.ForeignKeyViolation? && IsTruthy(alertId) ==>
      var i := AlertIndex(old(db.alerts), user, alertId.value).value;
      && db.alerts == old(db.alerts)[i := RelationsRewritten(old(db.alerts)[i].(name := name, emailNotificationsFrequency := frequency),
                                                             speciesIds, areaIds, datasetIds, Some(resp.relation))]
      && db.nextPk == old(db.nextPk)
    ensures AlertsHaveSpecies(old(db.alerts)) && resp != ForeignKeyViolation(SpeciesRelation) ==> AlertsHaveSpecies(db.alerts)
    ensures resp == ForeignKeyViolation(SpeciesRelation) ==> !AlertsHaveSpecies(db.alerts)
    ensures AlertPksValid(old(db.alerts), old(db.nextPk)) ==> AlertPksValid(db.alerts, db.nextPk)
  {
    var index: Option<nat> := None;
    var alert: AlertRow;
    if IsTruthy(alertId) {
      index := AlertIndex(db.alerts, user, alertId.value);
      if index.None? {
        return Http404;
      }
      alert := db.alerts[index.value];
    } else {
      alert := AlertRow(0, user, "", {}, {}, {}, DefaultEmailNotificationsFrequency);
    }

    alert := alert.(name := name, emailNotificationsFrequency := frequency);

    var errors := SpeciesErrors(speciesIds);
    var messages := fullClean(alert.name, alert.emailNotificationsFrequency);
    errors := Merge(errors, messages);

    if errors != [] {
      return AlertJson(if index.Some? then Some(alert.pk) else None, false, errors);
    }

    // alert.save()
    var at: nat;
    if index.None? {
      alert := alert.(pk := db.nextPk);
      db.alerts := db.alerts + [alert];
      db.nextPk := db.nextPk + 1;
      at := |db.alerts| - 1;
    } else {
      at := index.value;
      db.alerts := db.alerts[at := alert];
    }
    assert speciesIds[0] in SetOf(speciesIds);

    var failing := FirstUnknownRelation(speciesIds, areaIds, datasetIds, db.species, db.areas, db.datasets);
    db.alerts := db.alerts[at := RelationsRewritten(alert, speciesIds, areaIds, datasetIds, failing)];
    if failing.Some? {
      assert failing.value == SpeciesRelation ==> db.alerts[at].species == {};
      return ForeignKeyViolation(failing.value);
    }
    resp := AlertJson(Some(alert.pk), true, errors);
  }

  /** An alert without species is never saved: the response lists a `species` error. */
  lemma NoSpeciesNoSuccess(messages: ErrorDict)
    ensures Merge(SpeciesErrors([]), messages) != []
    ensures "species" in KeySet(Merge(SpeciesErrors([]), messages))
    ensures Lookup(Merge(SpeciesErrors([]), messages), "species")
      == if "species" in KeySet(messages) then Lookup(messages, "species") else Some([SpeciesRequiredMessage])
  {
    MergeLookup(SpeciesErrors([]), messages, "species");
  }

  // ---------------------------------------------------------------- intervals and names

  /** `available_alert_intervals`: `{"id", "label"}` per notification choice, in declaration order. */
  function AvailableAlertIntervals(): (j: Json)
    ensures j.JArray? && |j.items| == |EmailNotificationChoices|
    ensures forall i :: 0 <= i < |j.items| ==>
      j.items[i] == JObject([("id", JString(EmailNotificationChoices[i].0)), ("label", JString(EmailNotificationChoices[i].1))])
  {
    JArray(seq(|EmailNotificationChoices|, i requires 0 <= i < |EmailNotificationChoices| =>
      JObject([("id", JString(EmailNotificationChoices[i].0)), ("label", JString(EmailNotificationChoices[i].1))])))
  }

  /** The default frequency of a new alert is one of the intervals offered. */
  lemma DefaultFrequencyIsOffered()
    ensures exists i :: 0 <= i < |AvailableAlertIntervals().items| &&
                        AvailableAlertIntervals().items[i] == JObject([("id", JString(DefaultEmailNotificationsFrequency)), ("label", JString("Weekly"))])
  {
    assert AvailableAlertIntervals().items[2] == JObject([("id", JString("W")), ("label", JString("Weekly"))]);
  }

  const AlertNamePrefix := "My alert #"

  /** `f"My alert #{n}"`. */
  function AlertName(n: nat): (s: string)
    ensures |s| > |AlertNamePrefix| && s[..|AlertNamePrefix|] == AlertNamePrefix
  {
    AlertNamePrefix + NatToString(n)
  }

  lemma AlertNameInjective(m: nat, n: nat)
    requires AlertName(m) == AlertName(n)
    ensures m == n
  {
    assert AlertName(m)[|AlertNamePrefix|..] == NatToString(m);
    assert AlertName(n)[|AlertNamePrefix|..] == NatToString(n);
    NatToStringInjective(m, n);
  }

  lemma AlertNameDistinct(m: nat, n: nat)
    requires m != n
    ensures AlertName(m) != AlertName(n)
  {
    if AlertName(m) == AlertName(n) {
      AlertNameInjective(m, n);
    }
  }

  /** The names of the user's alerts, in table order. */
  function NamesOf(alerts: seq<AlertRow>, user: nat): (names: seq<string>)
    ensures forall x :: x in names <==> exists i :: 0 <= i < |alerts| && alerts[i].user == user && alerts[i].name == x
  {
    if alerts == [] then []
    else
      assert forall i :: 1 <= i < |alerts| ==> alerts[i] == alerts[1..][i - 1];
      (if alerts[0].user == user then [alerts[0].name] else []) + NamesOf(alerts[1..], user)
  }

  /**
   * `suggest_alert_name`: `"My alert #n"` for the smallest `n >= 1` that no
   * alert of the user is named after.
   */
  method SuggestAlertName(alerts: seq<AlertRow>, user: nat) returns (name: string)
    ensures name !in NamesOf(alerts, user)
    ensures exists n: nat :: n >= 1 && name == AlertName(n) &&
                             forall m: nat :: 1 <= m < n ==> AlertName(m) in NamesOf(alerts, user)
  {
    var existing := NamesOf(alerts, user);
    ghost var names := set x | x in existing;
    var alertNumber: nat := 1;
    ghost var seen: set<string> := {};
    while AlertName(alertNumber) in existing
      invariant alertNumber >= 1
      invariant forall m: nat :: 1 <= m < alertNumber ==> AlertName(m) in existing
      invariant forall k: nat :: k >= alertNumber ==> AlertName(k) !in seen
      invariant seen <= names
      decreases |names - seen|
    {
      var current := AlertName(alertNumber);
      forall k: nat | k >= alertNumber + 1 ensures AlertName(k) != current {
        AlertNameDistinct(k, alertNumber);
      }
      assert names - (seen + {current}) == (names - seen) - {current};
      seen := seen + {current};
      alertNumber := alertNumber + 1;
    }
    name := AlertName(alertNumber);
  }
}
