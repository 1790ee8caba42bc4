/**
 * `dashboard/management/commands/migrate_new_seen_unseen.py`: the one-shot
 * command that records, for every user, the observations of their alerts that
 * are less than a year old and that they have never opened, as
 * `ObservationUnseen` rows.
 */
module SeenUnseenMigration {
  import opened Wrappers
  import opened Dates
  import opened Records

  /** One `ObservationUnseen`: `user` has not seen `observation` yet. */
  datatype UnseenRow = UnseenRow(user: nat, observation: nat)

  /** `one_year_ago`: the day 365 days before today, when the calendar reaches back that far. */
  function OneYearAgo(today: Date): (r: Option<Date>)
    requires Valid(today)
    ensures r.Some? ==> Valid(r.value) && Before(r.value, today)
  {
    SubtractDays(today, 365)
  }

  /** The test the command applies to one observation of one of `user`'s alerts. */
  predicate Eligible(user: nat, o: ObservationRow, views: seq<ViewRow>, cutoff: Date) {
    Before(cutoff, o.date) && !HasView(views, o.pk, user)
  }

  /** `user.alert_set.all()`, in table order. */
  function AlertsOf(alerts: seq<AlertRow>, user: nat): (r: seq<AlertRow>)
    ensures forall a :: a in r <==> a in alerts && a.user == user
  {
    if alerts == [] then []
    else
      var last := alerts[|alerts| - 1];
      AlertsOf(alerts[..|alerts| - 1], user) + (if last.user == user then [last] else [])
  }

  /** The unseen rows one alert's observations call for. */
  function FromObservations(user: nat, observations: seq<ObservationRow>, views: seq<ViewRow>, cutoff: Date): set<UnseenRow> {
    if observations == [] then {}
    else
      var o := observations[|observations| - 1];
      FromObservations(user, observations[..|observations| - 1], views, cutoff)
      + (if Eligible(user, o, views, cutoff) then {UnseenRow(user, o.pk)} else {})
  }

  /** The unseen rows a run of one user's alerts calls for. */
  function FromAlerts(user: nat, mine: seq<AlertRow>, observationsOf: AlertRow -> seq<ObservationRow>,
                      views: seq<ViewRow>, cutoff: Date): set<UnseenRow> {
    if mine == [] then {}
    else
      FromAlerts(user, mine[..|mine| - 1], observationsOf, views, cutoff)
      + FromObservations(user, observationsOf(mine[|mine| - 1]), views, cutoff)
  }

  /** The unseen rows a run of users calls for. */
  function FromUsers(users: seq<nat>, alerts: seq<AlertRow>, observationsOf: AlertRow -> seq<ObservationRow>,
                     views: seq<ViewRow>, cutoff: Date): set<UnseenRow> {
    if users == [] then {}
    else
      var u := users[|users| - 1];
      FromUsers(users[..|users| - 1], alerts, observationsOf, views, cutoff)
      + FromAlerts(u, AlertsOf(alerts, u), observationsOf, views, cutoff)
  }

  /**
   * What the command promises about a row it adds: the user exists, one of
   * their alerts matches an observation with that pk, and the observation is
   * recent and unopened by that user.
   */
  predicate Wanted(r: UnseenRow, users: seq<nat>, alerts: seq<AlertRow>,
                   observationsOf: AlertRow -> seq<ObservationRow>, views: seq<ViewRow>, cutoff: Date) {
    && r.user in users
    && exists a :: a in alerts && a.user == r.user
         && exists o :: o in observationsOf(a) && o.pk == r.observation && Eligible(r.user, o, views, cutoff)
  }

  lemma {:induction false} FromObservationsMembers(user: nat, observations: seq<ObservationRow>, views: seq<ViewRow>, cutoff: Date)
    ensures forall r :: r in FromObservations(user, observations, views, cutoff) <==>
      r.user == user && exists o :: o in observations && o.pk == r.observation && Eligible(user, o, views, cutoff)
    decreases |observations|
  {
    if observations != [] {
      var init := observations[..|observations| - 1];
      FromObservationsMembers(user, init, views, cutoff);
      assert observations == init + [observations[|observations| - 1]];
    }
  }

  lemma {:induction false} FromAlertsMembers(user: nat, mine: seq<AlertRow>, observationsOf: AlertRow -> seq<ObservationRow>,
                                             views: seq<ViewRow>, cutoff: Date)
    ensures forall r :: r in FromAlerts(user, mine, observationsOf, views, cutoff) <==>
      && r.user == user
      && exists a :: a in mine
           && exists o :: o in observationsOf(a) && o.pk == r.observation && Eligible(user, o, views, cutoff)
    decreases |mine|
  {
    if mine != [] {
      var init := mine[..|mine| - 1];
      FromAlertsMembers(user, init, observationsOf, views, cutoff);
      FromObservationsMembers(user, observationsOf(mine[|mine| - 1]), views, cutoff);
      assert mine == init + [mine[|mine| - 1]];
    }
  }

  /** The rows the command calls for are exactly the wanted ones. */
  lemma {:induction false} FromUsersMembers(users: seq<nat>, alerts: seq<AlertRow>, observationsOf: AlertRow -> seq<ObservationRow>,
                                            views: seq<ViewRow>, cutoff: Date)
    ensures forall r :: r in FromUsers(users, alerts, observationsOf, views, cutoff) <==>
      Wanted(r, users, alerts, observationsOf, views, cutoff)
    decreases |users|
  {
    if users != [] {
      var init := users[..|users| - 1];
      var u := users[|users| - 1];
      FromUsersMembers(init, alerts, observationsOf, views, cutoff);
      FromAlertsMembers(u, AlertsOf(alerts, u), observationsOf, views, cutoff);
      assert users == init + [u];
    }
  }

  /** A user without alerts gets no unseen row, and neither does an observation the user has opened. */
  lemma NothingWithoutAlertOrAfterView(users: seq<nat>, alerts: seq<AlertRow>, observationsOf: AlertRow -> seq<ObservationRow>,
                                       views: seq<ViewRow>, cutoff: Date, r: UnseenRow)
    requires r in FromUsers(users, alerts, observationsOf, views, cutoff)
    ensures exists a :: a in alerts && a.user == r.user
    ensures !HasView(views, r.observation, r.user)
  {
    FromUsersMembers(users, alerts, observationsOf, views, cutoff);
  }

  /** The `ObservationUnseen` table, unique on (user, observation). */
  class UnseenTable {
    var rows: seq<UnseenRow>

    ghost predicate Unique()
      reads this
    {
      forall i, j :: 0 <= i < j < |rows| ==> rows[i] != rows[j]
    }

    function Contents(): set<UnseenRow>
      reads this
    {
      set r | r in rows
    }

    constructor(initial: seq<UnseenRow>)
      requires forall i, j :: 0 <= i < j < |initial| ==> initial[i] != initial[j]
      ensures rows == initial && Unique()
    {
      rows := initial;
    }

    /**
     * `ObservationUnseen.objects.create(user=..., observation_id=...)`: a pair
     * already in the table raises `IntegrityError` and adds nothing.
     */
    method Create(r: UnseenRow) returns (created: bool)
      requires Unique()
      modifies this
      ensures Unique()
      ensures created <==> r !in old(rows)
      ensures rows == if created then old(rows) + [r] else old(rows)
      ensures Contents() == old(Contents()) + {r}
    {
      if r in rows {
        created := false;
      } else {
        rows := rows + [r];
        created := true;
      }
    }
  }

  /** The rows a table holds keep their places while more are added after them. */
  ghost predicate Extends(rows: seq<UnseenRow>, start: seq<UnseenRow>) {
    |start| <= |rows| && rows[..|start|] == start
  }

  lemma ExtendsTransitive(a: seq<UnseenRow>, b: seq<UnseenRow>, c: seq<UnseenRow>)
    requires Extends(b, a) && Extends(c, b)
    ensures Extends(c, a)
  {
    assert c[..|a|] == c[..|b|][..|a|];
  }

  /** The innermost loop of `handle`: one alert's observations for `user`. */
  method MigrateObservations(table: UnseenTable, user: nat, observations: seq<ObservationRow>,
                             views: seq<ViewRow>, cutoff: Date)
    requires table.Unique()
    modifies table
    ensures table.Unique() && Extends(table.rows, old(table.rows))
    ensures table.Contents() == old(table.Contents()) + FromObservations(user, observations, views, cutoff)
  {
    ghost var start := table.rows;
    ghost var before := table.Contents();
    for k := 0 to |observations|
      invariant table.Unique() && Extends(table.rows, start)
      invariant table.Contents() == before + FromObservations(user, observations[..k], views, cutoff)
    {
      var o := observations[k];
      assert observations[..k + 1][..k] == observations[..k];
      assert FromObservations(user, observations[..k + 1], views, cutoff)
        == FromObservations(user, observations[..k], views, cutoff)
           + (if Eligible(user, o, views, cutoff) then {UnseenRow(user, o.pk)} else {});
      if Before(cutoff, o.date) && !HasView(views, o.pk, user) {
        var _ := table.Create(UnseenRow(user, o.pk));
      }
    }
    assert observations[..|observations|] == observations;
  }

  /** The middle loop of `handle`: every alert of `user`. */
  method MigrateUser(table: UnseenTable, user: nat, alerts: seq<AlertRow>,
                     observationsOf: AlertRow -> seq<ObservationRow>, views: seq<ViewRow>, cutoff: Date)
    requires table.Unique()
    modifies table
    ensures table.Unique() && Extends(table.rows, old(table.rows))
    ensures table.Contents() == old(table.Contents()) + FromAlerts(user, AlertsOf(alerts, user), observationsOf, views, cutoff)
  {
    var mine := AlertsOf(alerts, user);
    ghost var start := table.rows;
    ghost var before := table.Contents();
    for j := 0 to |mine|
      invariant table.Unique() && Extends(table.rows, start)
      invariant table.Contents() == before + FromAlerts(user, mine[..j], observationsOf, views, cutoff)
    {
      ghost var mid := table.rows;
      MigrateObservations(table, user, observationsOf(mine[j]), views, cutoff);
      ExtendsTransitive(start, mid, table.rows);
      assert mine[..j + 1][..j] == mine[..j];
      assert FromAlerts(user, mine[..j + 1], observationsOf, views, cutoff)
        == FromAlerts(user, mine[..j], observationsOf, views, cutoff)
           + FromObservations(user, observationsOf(mine[j]), views, cutoff);
    }
    assert mine[..|mine|] == mine;
  }

  /**
   * `Command.handle`: for each user, each of their alerts and each of the
   * alert's observations, add an unseen row when the observation is dated
   * after `one_year_ago` and the user has no view of it; a row already there
   * (from another alert) is skipped. `observationsOf` is `Alert.observations()`.
   */
  method Migrate(table: UnseenTable, users: seq<nat>, alerts: seq<AlertRow>,
                 observationsOf: AlertRow -> seq<ObservationRow>, views: seq<ViewRow>, today: Date)
    requires Valid(today) && OneYearAgo(today).Some?
    requires table.Unique()
    modifies table
    ensures table.Unique() && Extends(table.rows, old(table.rows))
    ensures table.Contents() == old(table.Contents()) + FromUsers(users, alerts, observationsOf, views, OneYearAgo(today).value)
  {
    var cutoff := OneYearAgo(today).value;
    ghost var start := table.rows;
    ghost var before := table.Contents();
    for i := 0 to |users|
      invariant table.Unique() && Extends(table.rows, start)
      invariant table.Contents() == before + FromUsers(users[..i], alerts, observationsOf, views, cutoff)
    {
      ghost var mid := table.rows;
      MigrateUser(table, users[i], alerts, observationsOf, views, cutoff);
      ExtendsTransitive(start, mid, table.rows);
      assert users[..i + 1][..i] == users[..i];
      assert FromUsers(users[..i + 1], alerts, observationsOf, views, cutoff)
        == FromUsers(users[..i], alerts, observationsOf, views, cutoff)
           + FromAlerts(users[i], AlertsOf(alerts, users[i]), observationsOf, views, cutoff);
    }
    assert users[..|users|] == users;
  }
}
