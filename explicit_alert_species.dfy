/**
 * `dashboard/migrations/0015_explicit_alert_species.py`: the data migration
 * after which an alert lists the species it targets instead of meaning "every
 * species" by listing none.
 */
module ExplicitAlertSpecies {
  import opened Records
  import opened Database

  /** The primary keys of the species table (`Species.objects.all()`). */
  function SpeciesPks(species: seq<SpeciesRow>): (r: set<nat>)
    ensures forall i :: 0 <= i < |species| ==> species[i].pk in r
    ensures forall p :: p in r ==> exists i :: 0 <= i < |species| && species[i].pk == p
  {
    set s | s in species :: s.pk
  }

  /** The species an alert targets: the ones it lists, or all of them when it lists none. */
  function Targeted(a: AlertRow, all: set<nat>): set<nat> {
    if a.species == {} then all else a.species
  }

  /** One iteration of `make_alerts_explicit`: an alert with no species gets every species added. */
  function Explicit(a: AlertRow, all: set<nat>): (r: AlertRow)
    ensures Targeted(r, all) == Targeted(a, all)
    ensures r.species == Targeted(a, all)
    ensures r.pk == a.pk && r.user == a.user && r.name == a.name && r.datasets == a.datasets
      && r.areas == a.areas && r.emailNotificationsFrequency == a.emailNotificationsFrequency
  {
    if |a.species| == 0 then a.(species := a.species + all) else a
  }

  /** The alerts table once the first `k` alerts have been made explicit. */
  function PartlyExplicit(alerts: seq<AlertRow>, all: set<nat>, k: nat): (r: seq<AlertRow>)
    requires k <= |alerts|
    ensures |r| == |alerts|
    ensures forall i :: 0 <= i < |r| ==> r[i] == if i < k then Explicit(alerts[i], all) else alerts[i]
  {
    seq(|alerts|, i requires 0 <= i < |alerts| => if i < k then Explicit(alerts[i], all) else alerts[i])
  }

  /** The alerts table after the migration. */
  function ExplicitAlerts(alerts: seq<AlertRow>, all: set<nat>): (r: seq<AlertRow>)
    ensures |r| == |alerts|
    ensures forall i :: 0 <= i < |r| ==> r[i] == Explicit(alerts[i], all)
  {
    PartlyExplicit(alerts, all, |alerts|)
  }

  /** `make_alerts_explicit`, walking `Alert.objects.all()` and changing nothing but alert species. */
  method MakeAlertsExplicit(db: Db)
    modifies db`alerts
    ensures db.alerts == ExplicitAlerts(old(db.alerts), SpeciesPks(db.species))
  {
    var all := SpeciesPks(db.species);
    ghost var start := db.alerts;
    for i := 0 to |db.alerts|
      invariant |db.alerts| == |start|
      invariant db.alerts == PartlyExplicit(start, all, i)
    {
      var alert := db.alerts[i];
      if |alert.species| == 0 {
        db.alerts := db.alerts[i := alert.(species := alert.species + all)];
      }
      assert db.alerts == PartlyExplicit(start, all, i + 1);
    }
  }

  /** Once the species table is not empty, every alert lists species of its own after the migration. */
  lemma MigratedAlertsListSpecies(alerts: seq<AlertRow>, species: seq<SpeciesRow>, i: nat)
    requires species != [] && i < |alerts|
    ensures ExplicitAlerts(alerts, SpeciesPks(species))[i].species != {}
  {
    assert species[0].pk in SpeciesPks(species);
  }

  /** Running the migration twice is the same as running it once. */
  lemma MigrationIdempotent(alerts: seq<AlertRow>, all: set<nat>)
    ensures ExplicitAlerts(ExplicitAlerts(alerts, all), all) == ExplicitAlerts(alerts, all)
  {
    var once := ExplicitAlerts(alerts, all);
    var twice := ExplicitAlerts(once, all);
    forall i | 0 <= i < |alerts|
      ensures twice[i] == once[i]
    {
      if alerts[i].species == {} && all == {} {
        assert once[i] == alerts[i];
      }
    }
  }
}
