/**
 * `dashboard/management/commands/load_belgian_municipalities_areas.py`: one
 * tagged `Area` per feature of the "municipality" layer of the Belgian
 * administrative boundaries, named after the municipality's language statute.
 */
module MunicipalityAreas {
  import opened Wrappers
  import opened Geometry

  /** The attributes of one municipality feature the command reads. */
  datatype MunicipalityFeature = MunicipalityFeature(
    languageStatute: int,
    nameDut: string,
    nameFre: string,
    nameGer: string,
    geometry: FeatureGeometry)

  /** One layer of the source data set. */
  datatype Layer = Layer(name: string, features: seq<MunicipalityFeature>)

  /**
   * Why the command stops: `get_multipolygon_from_feature` raised, or the
   * very first municipality has a statute no case matches, so `area_name` was
   * never bound (`UnboundLocalError`).
   */
  datatype LoadError = GeometryFailure(cause: GeometryError) | UnboundAreaName

  /**
   * The `match language_statute`: the area name and the region tag of a
   * statute, or `None` for a statute no case covers.
   */
  function StatuteNaming(f: MunicipalityFeature): (r: Option<(string, Tag)>)
    ensures r.Some? <==> f.languageStatute in {1, 2, 4, 5, 6, 7, 8}
    ensures f.languageStatute in {1, 5} ==> r == Some((f.nameDut, Flanders))
    ensures f.languageStatute in {2, 6, 7} ==> r == Some((f.nameFre, Wallonia))
    ensures f.languageStatute == 8 ==> r == Some((f.nameGer, Wallonia))
    ensures f.languageStatute == 4 ==> r == Some((f.nameDut + " - " + f.nameFre, Brussels))
  {
    match f.languageStatute
    case 1 => Some((f.nameDut, Flanders))
    case 2 => Some((f.nameFre, Wallonia))
    case 4 => Some((f.nameDut + " - " + f.nameFre, Brussels))
    case 5 => Some((f.nameDut, Flanders))
    case 6 => Some((f.nameFre, Wallonia))
    case 7 => Some((f.nameFre, Wallonia))
    case 8 => Some((f.nameGer, Wallonia))
    case _ => None
  }

  /** `area_name` once the `match` has run: the statute's name, or whatever it held before. */
  function NameAfter(f: MunicipalityFeature, name: Option<string>): Option<string> {
    match StatuteNaming(f)
    case Some((n, _)) => Some(n)
    case None => name
  }

  /** `tags` once the `match` has run. */
  function MunicipalityTags(f: MunicipalityFeature): seq<Tag> {
    match StatuteNaming(f)
    case Some((_, region)) => [Municipality, region]
    case None => [Municipality]
  }

  /**
   * The area one feature yields once `area_name` holds `name` after the match:
   * its geometry made a MultiPolygon, stripped of Z and reprojected.
   */
  function FeatureArea(f: MunicipalityFeature, name: Option<string>,
                       removeZ: MultiPolygon -> MultiPolygon, transform: MultiPolygon -> MultiPolygon): Result<NewArea, LoadError> {
    match GetMultipolygonFromFeature(f.geometry)
    case Err(e) => Err(GeometryFailure(e))
    case Ok(m) =>
      if name.None? then Err(UnboundAreaName)
      else Ok(NewArea(name.value, MunicipalityTags(f), MultiPolygonGeometry(transform(removeZ(m)))))
  }

  /** What a run over some features leaves behind: the areas created, the error that stopped it, and `area_name`. */
  datatype Outcome = Outcome(created: seq<NewArea>, error: Option<LoadError>, lastName: Option<string>)

  /** The per-feature loop over `features`, starting with `area_name` holding `name`; it stops at the first error. */
  function LoadFeatures(features: seq<MunicipalityFeature>, name: Option<string>,
                        removeZ: MultiPolygon -> MultiPolygon, transform: MultiPolygon -> MultiPolygon): Outcome
    decreases |features|
  {
    if features == [] then Outcome([], None, name)
    else
      var name' := NameAfter(features[0], name);
      match FeatureArea(features[0], name', removeZ, transform)
      case Err(e) => Outcome([], Some(e), name')
      case Ok(a) =>
        var rest := LoadFeatures(features[1..], name', removeZ, transform);
        Outcome([a] + rest.created, rest.error, rest.lastName)
  }

  /** The features of the layers named "municipality", layer after layer. */
  function MunicipalityFeatures(layers: seq<Layer>): seq<MunicipalityFeature> {
    if layers == [] then []
    else (if layers[0].name == "municipality" then layers[0].features else []) + MunicipalityFeatures(layers[1..])
  }

  /** The outcome of the whole command, given that `prefix` areas were created before `rest` ran. */
  function Then(prefix: seq<NewArea>, rest: Outcome): Outcome {
    Outcome(prefix + rest.created, rest.error, rest.lastName)
  }

  lemma ThenAppend(a: seq<NewArea>, area: NewArea, rest: Outcome)
    ensures Then(a + [area], rest) == Then(a, Then([area], rest))
  {
    assert a + [area] + rest.created == a + ([area] + rest.created);
  }

  /** The `tags` list and the `match` on the language statute, for one feature. */
  method NameAndTags(f: MunicipalityFeature, areaName: Option<string>) returns (name: Option<string>, tags: seq<Tag>)
    ensures name == NameAfter(f, areaName)
    ensures tags == MunicipalityTags(f)
  {
    name := areaName;
    tags := [Municipality];
    match f.languageStatute {
      case 1 =>
        name := Some(f.nameDut);
        tags := tags + [Flanders];
      case 2 =>
        name := Some(f.nameFre);
        tags := tags + [Wallonia];
      case 4 =>
        name := Some(f.nameDut + " - " + f.nameFre);
        tags := tags + [Brussels];
      case 5 =>
        name := Some(f.nameDut);
        tags := tags + [Flanders];
      case 6 =>
        name := Some(f.nameFre);
        tags := tags + [Wallonia];
      case 7 =>
        name := Some(f.nameFre);
        tags := tags + [Wallonia];
      case 8 =>
        name := Some(f.nameGer);
        tags := tags + [Wallonia];
      case _ =>
    }
  }

  /**
   * The per-feature loop of `handle` over one "municipality" layer, with the
   * areas created so far and `area_name` as the previous layers left them;
   * `rest` are the features of the later layers. On an error it returns the
   * areas created up to the failing feature.
   */
  method LoadLayer(features: seq<MunicipalityFeature>, ghost rest: seq<MunicipalityFeature>, ghost total: Outcome,
                   created0: seq<NewArea>, name0: Option<string>,
                   removeZ: MultiPolygon -> MultiPolygon, transform: MultiPolygon -> MultiPolygon)
    returns (created: seq<NewArea>, areaName: Option<string>, error: Option<LoadError>)
    requires total == Then(created0, LoadFeatures(features + rest, name0, removeZ, transform))
    ensures error.Some? ==> created == total.created && error == total.error
    ensures error.None? ==> total == Then(created, LoadFeatures(rest, areaName, removeZ, transform))
  {
    created, areaName := created0, name0;
    assert features[0..] == features;
    for j := 0 to |features|
      invariant total == Then(created, LoadFeatures(features[j..] + rest, areaName, removeZ, transform))
    {
      var f := features[j];
      assert (features[j..] + rest)[0] == f;
      assert (features[j..] + rest)[1..] == features[j + 1..] + rest;
      var tags;
      areaName, tags := NameAndTags(f, areaName);
      var multipolygon := GetMultipolygonFromFeature(f.geometry);
      if multipolygon.Err? {
        error := Some(GeometryFailure(multipolygon.error));
        return;
      }
      if areaName.None? {
        error := Some(UnboundAreaName);
        return;
      }
      var area := NewArea(areaName.value, tags, MultiPolygonGeometry(transform(removeZ(multipolygon.value))));
      ThenAppend(created, area, LoadFeatures(features[j + 1..] + rest, areaName, removeZ, transform));
      created := created + [area];
    }
    assert features[|features|..] + rest == rest;
    error := None;
  }

  /**
   * `Command.handle`: for each layer named "municipality" and each of its
   * features, name and tag the area after the language statute, then create
   * it. `removeZ` is `remove_z_dimension` and `transform` the reprojection to
   * the storage SRID. The command stops at the first exception, keeping the
   * areas already created.
   */
  method LoadBelgianMunicipalities(layers: seq<Layer>, removeZ: MultiPolygon -> MultiPolygon,
                                   transform: MultiPolygon -> MultiPolygon)
    returns (created: seq<NewArea>, error: Option<LoadError>)
    ensures created == LoadFeatures(MunicipalityFeatures(layers), None, removeZ, transform).created
    ensures error == LoadFeatures(MunicipalityFeatures(layers), None, removeZ, transform).error
  {
    ghost var total := LoadFeatures(MunicipalityFeatures(layers), None, removeZ, transform);
    created := [];
    var areaName: Option<string> := None;
    for i := 0 to |layers|
      invariant total == Then(created, LoadFeatures(MunicipalityFeatures(layers[i..]), areaName, removeZ, transform))
    {
      assert layers[i..][1..] == layers[i + 1..];
      ghost var rest := MunicipalityFeatures(layers[i + 1..]);
      if layers[i].name == "municipality" {
        assert MunicipalityFeatures(layers[i..]) == layers[i].features + rest;
        created, areaName, error := LoadLayer(layers[i].features, rest, total, created, areaName, removeZ, transform);
        if error.Some? {
          return;
        }
      } else {
        assert MunicipalityFeatures(layers[i..]) == [] + rest;
        assert [] + rest == rest;
      }
    }
    error := None;
  }

  /**
   * With every statute covered and every geometry polygonal, the command
   * creates one area per municipality feature, in order, each named after its
   * own statute and tagged `["municipality", <region>]`.
   */
  lemma {:induction false} AllCoveredLoadsAll(features: seq<MunicipalityFeature>, name: Option<string>,
                                              removeZ: MultiPolygon -> MultiPolygon, transform: MultiPolygon -> MultiPolygon)
    requires forall k :: 0 <= k < |features| ==> StatuteNaming(features[k]).Some? && !features[k].geometry.OtherGeometry?
    ensures LoadFeatures(features, name, removeZ, transform).error == None
    ensures |LoadFeatures(features, name, removeZ, transform).created| == |features|
    ensures forall k :: 0 <= k < |features| ==>
      && LoadFeatures(features, name, removeZ, transform).created[k].name == StatuteNaming(features[k]).value.0
      && LoadFeatures(features, name, removeZ, transform).created[k].tags == [Municipality, StatuteNaming(features[k]).value.1]
    decreases |features|
  {
    if features != [] {
      var name' := NameAfter(features[0], name);
      AllCoveredLoadsAll(features[1..], name', removeZ, transform);
      var rest := LoadFeatures(features[1..], name', removeZ, transform);
      var r := LoadFeatures(features, name, removeZ, transform);
      forall k | 1 <= k < |features|
        ensures r.created[k] == rest.created[k - 1]
      {
      }
    }
  }

  /**
   * A municipality whose statute no case covers is stored under the name of
   * the municipality before it, with the `municipality` tag only.
   */
  lemma StaleNameForUncoveredStatute(first: MunicipalityFeature, second: MunicipalityFeature,
                                     removeZ: MultiPolygon -> MultiPolygon, transform: MultiPolygon -> MultiPolygon)
    requires first.languageStatute == 1 && second.languageStatute == 3
    requires first.geometry.MultiPolygonGeometry? && second.geometry.MultiPolygonGeometry?
    ensures LoadFeatures([first, second], None, removeZ, transform).error == None
    ensures |LoadFeatures([first, second], None, removeZ, transform).created| == 2
    ensures LoadFeatures([first, second], None, removeZ, transform).created[1].name == first.nameDut
    ensures LoadFeatures([first, second], None, removeZ, transform).created[1].tags == [Municipality]
  {
    var named := Some(first.nameDut);
    assert NameAfter(first, None) == named && NameAfter(second, named) == named;
    assert [first, second][1..] == [second];
    assert [second][1..] == [];
    assert LoadFeatures([], named, removeZ, transform) == Outcome([], None, named);
    var last := LoadFeatures([second], named, removeZ, transform);
    assert FeatureArea(second, named, removeZ, transform).Ok?;
    assert last.created == [FeatureArea(second, named, removeZ, transform).value] && last.error == None;
  }

  /** When the first municipality's statute is uncovered, nothing is created and the name is unbound. */
  lemma UnboundNameStopsAtOnce(features: seq<MunicipalityFeature>,
                               removeZ: MultiPolygon -> MultiPolygon, transform: MultiPolygon -> MultiPolygon)
    requires features != [] && StatuteNaming(features[0]).None? && !features[0].geometry.OtherGeometry?
    ensures LoadFeatures(features, None, removeZ, transform) == Outcome([], Some(UnboundAreaName), None)
  {
  }

  /** Layers with any other name contribute no features. */
  lemma {:induction false} OnlyMunicipalityLayers(layers: seq<Layer>)
    requires forall k :: 0 <= k < |layers| ==> layers[k].name != "municipality"
    ensures MunicipalityFeatures(layers) == []
    decreases |layers|
  {
    if layers != [] {
      OnlyMunicipalityLayers(layers[1..]);
    }
  }
}
