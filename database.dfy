/**
 * The dashboard's tables as the model methods of `dashboard/models.py` change them:
 * marking observations as viewed or not, `first_viewed_at`, the migration of
 * comments and views onto a replacing observation, `Observation.save`,
 * `Dataset.save` and `DataImport.complete`.
 */
module Database {
  import opened Wrappers
  import opened Dates
  import opened Records

  /** Raised by PostgreSQL when a write breaks a unique constraint. */
  datatype MigrationError = Replacement(reason: ReplacementError) | IntegrityError

  // ---------------------------------------------------------------- view-table functions

  /** The `(observation, user)` pairs in the view table. */
  function ViewPairs(views: seq<ViewRow>): set<(nat, nat)> {
    set i | 0 <= i < |views| :: (views[i].observation, views[i].user)
  }

  /** `ObservationView.Meta.unique_together`: one row per (observation, user). */
  predicate ViewsUnique(views: seq<ViewRow>) {
    forall i, j :: 0 <= i < j < |views| ==>
      views[i].observation != views[j].observation || views[i].user != views[j].user
  }

  lemma HasViewPairs(views: seq<ViewRow>, observation: nat, user: nat)
    ensures HasView(views, observation, user) <==> (observation, user) in ViewPairs(views)
  {
    if (observation, user) in ViewPairs(views) {
      var i :| 0 <= i < |views| && (views[i].observation, views[i].user) == (observation, user);
    }
  }

  /** The view table without the row of `(observation, user)`. */
  function RemoveView(views: seq<ViewRow>, observation: nat, user: nat): (r: seq<ViewRow>)
    ensures |r| <= |views|
    ensures forall v :: v in r <==> v in views && !(v.observation == observation && v.user == user)
  {
    if views == [] then []
    else
      (if views[0].observation == observation && views[0].user == user then [] else [views[0]])
      + RemoveView(views[1..], observation, user)
  }

  lemma {:induction false} RemoveViewUnique(views: seq<ViewRow>, observation: nat, user: nat)
    requires ViewsUnique(views)
    ensures ViewsUnique(RemoveView(views, observation, user))
    decreases |views|
  {
    if views != [] {
      RemoveViewUnique(views[1..], observation, user);
      var rest := RemoveView(views[1..], observation, user);
      forall k | 0 <= k < |rest|
        ensures rest[k].observation != views[0].observation || rest[k].user != views[0].user
      {
        assert rest[k] in views[1..];
      }
    }
  }

  /** Marking as viewed and then as not viewed restores the table, whatever row the first call added. */
  lemma {:induction false} MarkThenUnmarkRestores(views: seq<ViewRow>, row: ViewRow)
    requires !HasView(views, row.observation, row.user)
    ensures RemoveView(views + [row], row.observation, row.user) == views
    decreases |views|
  {
    if views == [] {
      assert [] + [row] == [row];
    } else {
      assert (views + [row])[1..] == views[1..] + [row];
      MarkThenUnmarkRestores(views[1..], row);
      assert views == [views[0]] + views[1..];
    }
  }

  /** The timestamp of the view of `(observation, user)`, if there is one. */
  function ViewTimestamp(views: seq<ViewRow>, observation: nat, user: nat): (r: Option<Timestamp>)
    ensures r.Some? <==> HasView(views, observation, user)
    ensures r.Some? ==> exists i :: 0 <= i < |views| && views[i] == ViewRow(views[i].pk, observation, user, r.value)
  {
    if views == [] then None
    else if views[0].observation == observation && views[0].user == user then Some(views[0].timestamp)
    else
      var r := ViewTimestamp(views[1..], observation, user);
      assert forall i :: 0 <= i < |views[1..]| ==> views[1..][i] == views[i + 1];
      assert HasView(views, observation, user) ==> HasView(views[1..], observation, user) by {
        if HasView(views, observation, user) {
          var i :| 0 <= i < |views| && views[i].observation == observation && views[i].user == user;
          assert i > 0 && views[1..][i - 1] == views[i];
        }
      }
      r
  }

  /** Comments of `from` moved to `to`, every other field kept. */
  function RepointComments(comments: seq<CommentRow>, from: nat, to: nat): (r: seq<CommentRow>)
    ensures |r| == |comments|
    ensures forall k :: 0 <= k < |r| ==>
      r[k] == comments[k].(observation := if comments[k].observation == from then to else comments[k].observation)
  {
    seq(|comments|, k requires 0 <= k < |comments| =>
      comments[k].(observation := if comments[k].observation == from then to else comments[k].observation))
  }

  /** Views of `from` moved to `to`, every other field kept. */
  function RepointViews(views: seq<ViewRow>, from: nat, to: nat): (r: seq<ViewRow>)
    ensures |r| == |views|
    ensures forall k :: 0 <= k < |r| ==>
      r[k] == views[k].(observation := if views[k].observation == from then to else views[k].observation)
  {
    seq(|views|, k requires 0 <= k < |views| =>
      views[k].(observation := if views[k].observation == from then to else views[k].observation))
  }

  /** Some user viewed both observations, so moving the views would break uniqueness. */
  predicate ViewConflict(views: seq<ViewRow>, from: nat, to: nat) {
    exists i, j :: 0 <= i < |views| && 0 <= j < |views| && views[i].observation == from
      && views[j].observation == to && views[i].user == views[j].user
  }

  /** Without a conflict, repointing keeps one view per (observation, user), and nothing still points at `from`. */
  lemma RepointViewsUnique(views: seq<ViewRow>, from: nat, to: nat)
    requires ViewsUnique(views) && !ViewConflict(views, from, to)
    ensures ViewsUnique(RepointViews(views, from, to))
    ensures from != to ==> forall v :: v in RepointViews(views, from, to) ==> v.observation != from
  {
    var r := RepointViews(views, from, to);
    forall i, j | 0 <= i < j < |r|
      ensures r[i].observation != r[j].observation || r[i].user != r[j].user
    {
      if views[i].observation == from && views[j].observation != from && views[j].observation == to {
        assert views[i].user != views[j].user;
      } else if views[j].observation == from && views[i].observation != from && views[i].observation == to {
        assert views[i].user != views[j].user;
      }
    }
  }

  /** The views table part-way through the move: the first `k` views repointed, the rest as they were. */
  function PartlyRepointed(views: seq<ViewRow>, from: nat, to: nat, k: nat): (r: seq<ViewRow>)
    ensures |r| == |views|
    ensures forall i :: 0 <= i < |views| ==>
      r[i] == if i < k then views[i].(observation := if views[i].observation == from then to else views[i].observation)
              else views[i]
  {
    seq(|views|, i requires 0 <= i < |views| =>
      if i < k then views[i].(observation := if views[i].observation == from then to else views[i].observation)
      else views[i])
  }

  /**
   * With the views before `k` already moved, a user whose view of `from` sits at `k`
   * has a view of `to` exactly when they had one before the move began.
   */
  lemma RepointedHasView(views: seq<ViewRow>, from: nat, to: nat, k: nat)
    requires ViewsUnique(views) && from != to && k < |views| && views[k].observation == from
    ensures HasView(PartlyRepointed(views, from, to, k), to, views[k].user) <==> HasView(views, to, views[k].user)
  {
    var p := PartlyRepointed(views, from, to, k);
    if HasView(p, to, views[k].user) {
      var j :| 0 <= j < |p| && p[j].observation == to && p[j].user == views[k].user;
      assert views[j].observation == to;
    }
    if HasView(views, to, views[k].user) {
      var j :| 0 <= j < |views| && views[j].observation == to && views[j].user == views[k].user;
      assert p[j] == views[j];
    }
  }

  lemma RepointViewsStep(views: seq<ViewRow>, from: nat, to: nat, k: nat)
    requires k < |views|
    ensures PartlyRepointed(views, from, to, k)[k] == views[k]
    ensures PartlyRepointed(views, from, to, k)[k := RepointViews(views, from, to)[k]]
      == PartlyRepointed(views, from, to, k + 1)
  {
  }

  lemma RepointViewsDone(views: seq<ViewRow>, from: nat, to: nat)
    ensures PartlyRepointed(views, from, to, |views|) == RepointViews(views, from, to)
  {
  }

  /** The comments table part-way through the move: the first `k` comments repointed, the rest as they were. */
  function PartlyRepointedComments(comments: seq<CommentRow>, from: nat, to: nat, k: nat): (r: seq<CommentRow>)
    ensures |r| == |comments|
    ensures forall i :: 0 <= i < |comments| ==>
      r[i] == if i < k then comments[i].(observation := if comments[i].observation == from then to else comments[i].observation)
              else comments[i]
  {
    seq(|comments|, i requires 0 <= i < |comments| =>
      if i < k then comments[i].(observation := if comments[i].observation == from then to else comments[i].observation)
      else comments[i])
  }

  lemma RepointCommentsStep(comments: seq<CommentRow>, from: nat, to: nat, k: nat)
    requires k < |comments|
    ensures PartlyRepointedComments(comments, from, to, k)[k] == comments[k]
    ensures PartlyRepointedComments(comments, from, to, k)[k := RepointComments(comments, from, to)[k]]
      == PartlyRepointedComments(comments, from, to, k + 1)
  {
  }

  lemma RepointCommentsDone(comments: seq<CommentRow>, from: nat, to: nat)
    ensures PartlyRepointedComments(comments, from, to, |comments|) == RepointComments(comments, from, to)
  {
  }

  lemma ConflictAt(views: seq<ViewRow>, from: nat, to: nat, k: nat)
    requires k < |views| && views[k].observation == from && HasView(views, to, views[k].user)
    ensures ViewConflict(views, from, to)
  {
    var j :| 0 <= j < |views| && views[j].observation == to && views[j].user == views[k].user;
  }

  /** `k` is the first view of `from` whose user already viewed `to`: the move stops there. */
  predicate FirstConflictAt(views: seq<ViewRow>, from: nat, to: nat, k: nat) {
    && k < |views| && views[k].observation == from && HasView(views, to, views[k].user)
    && forall i :: 0 <= i < k && views[i].observation == from ==> !HasView(views, to, views[i].user)
  }

  /** A failed move stopped at `k`, the views before it moved and the rest as they were. */
  predicate ConflictState(views0: seq<ViewRow>, views: seq<ViewRow>, from: nat, to: nat, k: nat) {
    FirstConflictAt(views0, from, to, k) && views == PartlyRepointed(views0, from, to, k)
  }

  /** There is one such view at most, so the state a failed move leaves is determined. */
  lemma FirstConflictUnique(views: seq<ViewRow>, from: nat, to: nat, k: nat, l: nat)
    requires FirstConflictAt(views, from, to, k) && FirstConflictAt(views, from, to, l)
    ensures k == l
  {
  }

  lemma NoConflict(views: seq<ViewRow>, from: nat, to: nat)
    requires forall i :: 0 <= i < |views| && views[i].observation == from ==> !HasView(views, to, views[i].user)
    ensures !ViewConflict(views, from, to)
  {
  }

  /** Moving one view to an observation its user has not viewed keeps the pairs unique. */
  lemma MoveOneKeepsUnique(views: seq<ViewRow>, k: nat, to: nat)
    requires ViewsUnique(views) && k < |views| && !HasView(views, to, views[k].user)
    ensures ViewsUnique(views[k := views[k].(observation := to)])
  {
  }

  // ---------------------------------------------------------------- stable identifiers

  /** The GBIF key of the dataset with primary key `pk`. */
  function DatasetKey(datasets: seq<DatasetRow>, pk: nat): (r: Option<string>)
    ensures r.Some? <==> exists i :: 0 <= i < |datasets| && datasets[i].pk == pk
    ensures r.Some? ==> exists i :: 0 <= i < |datasets| && datasets[i].pk == pk && datasets[i].gbifDatasetKey == r.value
  {
    if datasets == [] then None
    else if datasets[0].pk == pk then Some(datasets[0].gbifDatasetKey)
    else
      var r := DatasetKey(datasets[1..], pk);
      assert forall i :: 0 < i < |datasets| ==> datasets[1..][i - 1] == datasets[i];
      r
  }

  predicate DatasetPksUnique(datasets: seq<DatasetRow>) {
    forall i, j :: 0 <= i < j < |datasets| ==> datasets[i].pk != datasets[j].pk
  }

  lemma DatasetKeyAt(datasets: seq<DatasetRow>, i: nat)
    requires DatasetPksUnique(datasets) && i < |datasets|
    ensures DatasetKey(datasets, datasets[i].pk) == Some(datasets[i].gbifDatasetKey)
  {
    var r := DatasetKey(datasets, datasets[i].pk);
    var j :| 0 <= j < |datasets| && datasets[j].pk == datasets[i].pk && datasets[j].gbifDatasetKey == r.value;
  }

  /** Saving new field values into one dataset row changes the key found for that row's primary key only. */
  lemma DatasetKeyAfterUpdate(datasets: seq<DatasetRow>, i: nat, name: string, key: string, p: nat)
    requires DatasetPksUnique(datasets) && i < |datasets|
    ensures DatasetPksUnique(datasets[i := DatasetRow(datasets[i].pk, name, key)])
    ensures DatasetKey(datasets[i := DatasetRow(datasets[i].pk, name, key)], p)
      == if p == datasets[i].pk then Some(key) else DatasetKey(datasets, p)
  {
    var updated := datasets[i := DatasetRow(datasets[i].pk, name, key)];
    assert forall j :: 0 <= j < |updated| ==> updated[j].pk == datasets[j].pk;
    if p == datasets[i].pk {
      DatasetKeyAt(updated, i);
    } else if DatasetKey(datasets, p).Some? {
      var j :| 0 <= j < |datasets| && datasets[j].pk == p;
      DatasetKeyAt(datasets, j);
      DatasetKeyAt(updated, j);
    }
  }

  /** The stable identifier an observation row holds after `Observation.save`. */
  predicate StableIdCurrent(sha1: string -> string, datasets: seq<DatasetRow>, o: ObservationRow) {
    && DatasetKey(datasets, o.sourceDataset).Some?
    && o.stableId == BuildStableId(sha1, o.occurrenceId, DatasetKey(datasets, o.sourceDataset).value)
  }

  /** The observation rows of one data import, in table order. */
  function OfImport(observations: seq<ObservationRow>, current: nat): (r: seq<ObservationRow>)
    ensures forall o :: o in r <==> o in observations && o.dataImport == current
  {
    if observations == [] then []
    else
      var last := observations[|observations| - 1];
      var init := observations[..|observations| - 1];
      assert observations == init + [last];
      OfImport(init, current) + if last.dataImport == current then [last] else []
  }

  /** Number of observation rows of one data import (`Observation.objects.filter(data_import=…).count()`). */
  /** Keeping one import's rows of two tables is keeping them of each. */
  lemma {:induction false} OfImportAppend(a: seq<ObservationRow>, b: seq<ObservationRow>, current: nat)
    ensures OfImport(a + b, current) == OfImport(a, current) + OfImport(b, current)
    decreases |b|
  {
    if b == [] {
      assert a + b == a;
    } else {
      var init := b[..|b| - 1];
      var last := b[|b| - 1];
      var tail := if last.dataImport == current then [last] else [];
      assert (a + b)[..|a + b| - 1] == a + init && (a + b)[|a + b| - 1] == last;
      OfImportAppend(a, init, current);
      assert OfImport(a + b, current) == (OfImport(a, current) + OfImport(init, current)) + tail;
      assert OfImport(b, current) == OfImport(init, current) + tail;
      assert (OfImport(a, current) + OfImport(init, current)) + tail
          == OfImport(a, current) + (OfImport(init, current) + tail);
    }
  }

  /** No row of another import is kept; every row of the import is. */
  lemma {:induction false} OfImportAllOrNone(s: seq<ObservationRow>, current: nat)
    ensures (forall o :: o in s ==> o.dataImport != current) ==> OfImport(s, current) == []
    ensures (forall o :: o in s ==> o.dataImport == current) ==> OfImport(s, current) == s
    decreases |s|
  {
    if s != [] {
      var init := s[..|s| - 1];
      assert s == init + [s[|s| - 1]];
      OfImportAllOrNone(init, current);
    }
  }

  function CountOfImport(observations: seq<ObservationRow>, dataImport: nat): (n: nat)
    ensures n <= |observations|
  {
    if observations == [] then 0
    else
      var m := |observations| - 1;
      CountOfImport(observations[..m], dataImport) + if observations[m].dataImport == dataImport then 1 else 0
  }

  /** The count is the number of rows of that import. */
  lemma {:induction false} CountOfImportCounts(observations: seq<ObservationRow>, dataImport: nat)
    ensures CountOfImport(observations, dataImport) == |OfImport(observations, dataImport)|
  {
    if observations != [] {
      CountOfImportCounts(observations[..|observations| - 1], dataImport);
    }
  }

  // ---------------------------------------------------------------- the tables

  class Db {
    var species: seq<SpeciesRow>
    var datasets: seq<DatasetRow>
    var dataImports: seq<DataImportRow>
    var observations: seq<ObservationRow>
    var comments: seq<CommentRow>
    var views: seq<ViewRow>
    var areas: seq<AreaRow>
    var alerts: seq<AlertRow>
    /** Next value of the primary-key sequences. */
    var nextPk: nat
    /** SHA-1 hex digest, left uninterpreted. */
    const sha1: string -> string

    constructor(sha1: string -> string)
      ensures this.sha1 == sha1
      ensures species == [] && datasets == [] && dataImports == [] && observations == []
      ensures comments == [] && views == [] && areas == [] && alerts == [] && nextPk == 1
    {
      this.sha1 := sha1;
      species, datasets, dataImports, observations := [], [], [], [];
      comments, views, areas, alerts := [], [], [], [];
      nextPk := 1;
    }

    /** Every observation carries the stable identifier its current fields give. */
    predicate StableIdsCurrent()
      reads this
    {
      forall k :: 0 <= k < |observations| ==> StableIdCurrent(sha1, datasets, observations[k])
    }

    /** `Observation.mark_as_viewed_by`: a no-op for anonymous users and already-viewed pairs. */
    method MarkAsViewedBy(observation: nat, user: User, now: Timestamp)
      requires ViewsUnique(views)
      modifies this`views, this`nextPk
      ensures ViewsUnique(views)
      ensures user.Anonymous? || HasView(old(views), observation, user.pk) ==>
        views == old(views) && nextPk == old(nextPk)
      ensures user.Authenticated? && !HasView(old(views), observation, user.pk) ==>
        views == old(views) + [ViewRow(old(nextPk), observation, user.pk, now)] && nextPk == old(nextPk) + 1
      ensures ViewPairs(views) == ViewPairs(old(views)) + (if user.Authenticated? then {(observation, user.pk)} else {})
    {
      if user.Authenticated? {
        HasViewPairs(views, observation, user.pk);
        if !HasView(views, observation, user.pk) {
          var row := ViewRow(nextPk, observation, user.pk, now);
          views := views + [row];
          nextPk := nextPk + 1;
          assert ViewPairs(views) == ViewPairs(old(views)) + {(observation, user.pk)} by {
            forall p | p in ViewPairs(views) ensures p in ViewPairs(old(views)) + {(observation, user.pk)} {
              var i :| 0 <= i < |views| && (views[i].observation, views[i].user) == p;
              if i < |old(views)| { assert views[i] == old(views)[i]; }
            }
            forall p | p in ViewPairs(old(views)) ensures p in ViewPairs(views) {
              var i :| 0 <= i < |old(views)| && (old(views)[i].observation, old(views)[i].user) == p;
              assert views[i] == old(views)[i];
            }
            assert (views[|views| - 1].observation, views[|views| - 1].user) == (observation, user.pk);
          }
        }
      }
    }

    /** `Observation.first_viewed_at`. */
    function FirstViewedAt(observation: nat, user: User): (r: Option<Timestamp>)
      reads this
      ensures r.Some? <==> user.Authenticated? && HasView(views, observation, user.pk)
      ensures r.Some? ==> exists i :: (0 <= i < |views| && views[i].observation == observation
        && views[i].user == user.pk && views[i].timestamp == r.value)
    {
      if user.Authenticated? then ViewTimestamp(views, observation, user.pk) else None
    }

    /** `Observation.mark_as_not_viewed_by`: true iff a view of a signed-in user was deleted. */
    method MarkAsNotViewedBy(observation: nat, user: User) returns (deleted: bool)
      requires ViewsUnique(views)
      modifies this`views
      ensures ViewsUnique(views)
      ensures deleted <==> user.Authenticated? && HasView(old(views), observation, user.pk)
      ensures deleted ==> views == RemoveView(old(views), observation, user.pk)
      ensures !deleted ==> views == old(views)
      ensures user.Authenticated? ==> !HasView(views, observation, user.pk)
    {
      deleted := false;
      if user.Authenticated? {
        if HasView(views, observation, user.pk) {
          RemoveViewUnique(views, observation, user.pk);
          views := RemoveView(views, observation, user.pk);
          deleted := true;
        }
      }
    }

    /**
     * `Observation.migrate_linked_entities` for the observation at index `self`:
     * comments, then views, of the row it replaces are moved onto it. A view whose
     * move would duplicate an existing (observation, user) pair stops the loop with
     * the IntegrityError PostgreSQL raises, the rows moved before it staying moved.
     */
    method MigrateLinkedEntities(self: nat) returns (r: Result<(), MigrationError>)
      requires self < |observations|
      requires ViewsUnique(views)
      modifies this`comments, this`views
      ensures ViewsUnique(views)
      ensures var rep := ReplacedObservation(old(observations), old(observations)[self]);
        && (rep.Err? ==> r == Err(Replacement(rep.error)) && comments == old(comments) && views == old(views))
        && (rep == Ok(None) ==> r == Ok(()) && comments == old(comments) && views == old(views))
        && (rep.Ok? && rep.value.Some? ==>
             && comments == RepointComments(old(comments), rep.value.value.pk, old(observations)[self].pk)
             && (r.Ok? <==> !ViewConflict(old(views), rep.value.value.pk, old(observations)[self].pk))
             && (r.Ok? ==> views == RepointViews(old(views), rep.value.value.pk, old(observations)[self].pk))
             && (r.Err? ==> r.error == IntegrityError)
             && (r.Err? ==> exists k :: ConflictState(old(views), views, rep.value.value.pk, old(observations)[self].pk, k)))
    {
      var rep := ReplacedObservation(observations, observations[self]);
      if rep.Err? {
        return Err(Replacement(rep.error));
      }
      if rep.value.None? {
        return Ok(());
      }
      var from := rep.value.value.pk;
      var to := observations[self].pk;
      MoveComments(from, to);
      var moved := MoveViews(from, to);
      r := if moved then Ok(()) else Err(IntegrityError);
    }

    /** Step 1 of the migration: every comment of `from` now points at `to`. */
    method MoveComments(from: nat, to: nat)
      modifies this`comments
      ensures comments == RepointComments(old(comments), from, to)
    {
      var k := 0;
      while k < |comments|
        invariant 0 <= k <= |old(comments)|
        invariant comments == PartlyRepointedComments(old(comments), from, to, k)
      {
        RepointCommentsStep(old(comments), from, to, k);
        var c := comments[k];
        if c.observation == from {
          comments := comments[k := c.(observation := to)];
        }
        k := k + 1;
      }
      RepointCommentsDone(old(comments), from, to);
    }

    /**
     * Step 2 of the migration: the views of `from` are moved one by one onto `to`;
     * false when a move hits a user who already viewed `to`.
     */
    method MoveViews(from: nat, to: nat) returns (ok: bool)
      requires ViewsUnique(views) && from != to
      modifies this`views
      ensures ViewsUnique(views)
      ensures ok <==> !ViewConflict(old(views), from, to)
      ensures ok ==> views == RepointViews(old(views), from, to)
      ensures !ok ==> exists k :: ConflictState(old(views), views, from, to, k)
    {
      var k := 0;
      while k < |views|
        invariant 0 <= k <= |old(views)|
        invariant views == PartlyRepointed(old(views), from, to, k)
        invariant ViewsUnique(views)
        invariant forall i :: 0 <= i < k && old(views)[i].observation == from ==> !HasView(old(views), to, old(views)[i].user)
      {
        RepointViewsStep(old(views), from, to, k);
        var v := views[k];
        if v.observation == from {
          RepointedHasView(old(views), from, to, k);
          if HasView(views, to, v.user) {
            ConflictAt(old(views), from, to, k);
            assert ConflictState(old(views), views, from, to, k);
            return false;
          }
          MoveOneKeepsUnique(views, k, to);
          views := views[k := v.(observation := to)];
        }
        k := k + 1;
      }
      NoConflict(old(views), from, to);
      RepointViewsDone(old(views), from, to);
      return true;
    }

    /** `Observation.save`: the stable identifier is recomputed from the row's own fields. */
    method SaveObservation(i: nat)
      requires i < |observations|
      requires DatasetKey(datasets, observations[i].sourceDataset).Some?
      modifies this`observations
      ensures |observations| == |old(observations)|
      ensures observations == old(observations)[i := old(observations)[i].(stableId :=
        BuildStableId(sha1, old(observations)[i].occurrenceId, DatasetKey(datasets, old(observations)[i].sourceDataset).value))]
      ensures StableIdCurrent(sha1, datasets, observations[i])
    {
      var o := observations[i];
      observations := observations[i := o.(stableId := BuildStableId(sha1, o.occurrenceId, DatasetKey(datasets, o.sourceDataset).value))];
    }

    /**
     * `Dataset.save` for the dataset at index `i` given new field values: when its
     * GBIF key changed, every observation of the dataset is saved again so that its
     * stable identifier follows. A key already used by another dataset is refused
     * (`gbif_dataset_key` is unique).
     */
    method SaveDataset(i: nat, name: string, gbifDatasetKey: string) returns (r: Result<(), MigrationError>)
      requires i < |datasets| && DatasetPksUnique(datasets)
      requires StableIdsCurrent()
      modifies this`datasets, this`observations
      ensures DatasetPksUnique(datasets) && StableIdsCurrent()
      ensures r.Err? <==> exists j :: 0 <= j < |old(datasets)| && j != i && old(datasets)[j].gbifDatasetKey == gbifDatasetKey
      ensures r.Err? ==> r.error == IntegrityError && datasets == old(datasets) && observations == old(observations)
      ensures r.Ok? ==> datasets == old(datasets)[i := DatasetRow(old(datasets)[i].pk, name, gbifDatasetKey)]
      ensures |observations| == |old(observations)|
      ensures forall k :: 0 <= k < |observations| ==> observations[k] == old(observations)[k].(stableId := observations[k].stableId)
      ensures gbifDatasetKey == old(datasets)[i].gbifDatasetKey ==> observations == old(observations)
    {
      if exists j :: 0 <= j < |datasets| && j != i && datasets[j].gbifDatasetKey == gbifDatasetKey {
        return Err(IntegrityError);
      }
      var pk := datasets[i].pk;
      var originalKey := datasets[i].gbifDatasetKey;
      ghost var oldDatasets := datasets;
      assert forall m :: 0 <= m < |observations| ==> StableIdCurrent(sha1, oldDatasets, observations[m]);
      datasets := datasets[i := DatasetRow(pk, name, gbifDatasetKey)];
      forall m | 0 <= m < |observations| && observations[m].sourceDataset != pk
        ensures StableIdCurrent(sha1, datasets, observations[m])
      {
        DatasetKeyAfterUpdate(oldDatasets, i, name, gbifDatasetKey, observations[m].sourceDataset);
      }
      DatasetKeyAfterUpdate(oldDatasets, i, name, gbifDatasetKey, pk);
      if gbifDatasetKey != originalKey {
        ResaveObservationsOf(pk);
      } else {
        forall m | 0 <= m < |observations| && observations[m].sourceDataset == pk
          ensures StableIdCurrent(sha1, datasets, observations[m])
        {
          DatasetKeyAt(oldDatasets, i);
        }
      }
      return Ok(());
    }

    /** `for occ in self.observation_set.all(): occ.save()`: every observation of dataset `pk` is saved again. */
    method ResaveObservationsOf(pk: nat)
      requires DatasetKey(datasets, pk).Some?
      requires forall m :: 0 <= m < |observations| && observations[m].sourceDataset != pk ==>
        StableIdCurrent(sha1, datasets, observations[m])
      modifies this`observations
      ensures StableIdsCurrent()
      ensures |observations| == |old(observations)|
      ensures forall m :: 0 <= m < |observations| ==>
        observations[m] == old(observations)[m].(stableId := observations[m].stableId)
      ensures forall m :: 0 <= m < |observations| && observations[m].sourceDataset != pk ==>
        observations[m] == old(observations)[m]
    {
      var k := 0;
      while k < |observations|
        invariant 0 <= k <= |observations| == |old(observations)|
        invariant forall m :: 0 <= m < |observations| ==>
          observations[m] == old(observations)[m].(stableId := observations[m].stableId)
        invariant forall m :: k <= m < |observations| ==> observations[m] == old(observations)[m]
        invariant forall m :: 0 <= m < |observations| && observations[m].sourceDataset != pk ==>
          observations[m] == old(observations)[m]
        invariant forall m :: 0 <= m < k ==> StableIdCurrent(sha1, datasets, observations[m])
      {
        if observations[k].sourceDataset == pk {
          SaveObservation(k);
        }
        k := k + 1;
      }
    }

    /** `DataImport.complete` for the import at index `i`, at time `now`. */
    method CompleteImport(i: nat, now: Timestamp)
      requires i < |dataImports|
      modifies this`dataImports
      ensures dataImports == old(dataImports)[i := old(dataImports)[i].(
        end := Some(now), completed := true,
        importedObservationsCounter := CountOfImport(observations, old(dataImports)[i].pk))]
      ensures dataImports[i].importedObservationsCounter == |OfImport(observations, dataImports[i].pk)|
    {
      var d := dataImports[i];
      dataImports := dataImports[i := d.(end := Some(now), completed := true,
        importedObservationsCounter := CountOfImport(observations, d.pk))];
      CountOfImportCounts(observations, d.pk);
    }
  }
}
