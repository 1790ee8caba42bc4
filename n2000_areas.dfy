/**
 * `dashboard/management/commands/load_n2000_areas.py`: one tagged `Area` per
 * feature of the Natura 2000 (Belgium) layer.
 */
module N2000Areas {
  import opened Geometry

  /** The attributes of one Natura 2000 feature the command reads. */
  datatype N2000Feature = N2000Feature(
    siteCode: string,
    siteName: string,
    siteType: string,
    brussels: int,
    wallonia: int,
    flanders: int,
    geometry: FeatureGeometry)

  /** Where a tag sits in the order the command appends them. */
  function Rank(t: Tag): nat {
    match t
    case Natura2000 => 0
    case HabitatDirective => 1
    case BirdDirective => 2
    case Brussels => 3
    case Wallonia => 4
    case Flanders => 5
    case Municipality => 6
  }

  /** Tags in strictly increasing rank: in the order the command appends them, none twice. */
  predicate Ordered(tags: seq<Tag>) {
    forall i, j :: 0 <= i < j < |tags| ==> Rank(tags[i]) < Rank(tags[j])
  }

  /** The directive tags of a site type: habitat for B, bird for A, both for C, none otherwise. */
  function Directives(siteType: string): seq<Tag> {
    if siteType == "B" then [HabitatDirective]
    else if siteType == "A" then [BirdDirective]
    else if siteType == "C" then [HabitatDirective, BirdDirective]
    else []
  }

  /** `t` when the feature's flag for it is set. */
  function TagIf(flag: bool, t: Tag): seq<Tag> {
    if flag then [t] else []
  }

  /** The tags of one feature's area, in the order `handle` appends them. */
  function N2000Tags(f: N2000Feature): seq<Tag> {
    [Natura2000] + Directives(f.siteType)
    + TagIf(f.brussels == 1, Brussels)
    + TagIf(f.wallonia == 1, Wallonia)
    + TagIf(f.flanders == 1, Flanders)
  }

  lemma DirectivesRanked(siteType: string)
    ensures Ordered([Natura2000] + Directives(siteType))
    ensures forall t :: t in [Natura2000] + Directives(siteType) ==> Rank(t) <= 2
    ensures forall t :: t in [Natura2000] + Directives(siteType) <==>
      || t == Natura2000
      || (t == HabitatDirective && (siteType == "B" || siteType == "C"))
      || (t == BirdDirective && (siteType == "A" || siteType == "C"))
  {
  }

  /** Appending a tag of higher rank than any present keeps the list ordered. */
  lemma AppendRanked(tags: seq<Tag>, flag: bool, t: Tag)
    requires Ordered(tags) && forall x :: x in tags ==> Rank(x) < Rank(t)
    ensures Ordered(tags + TagIf(flag, t))
    ensures forall x :: x in tags + TagIf(flag, t) ==> Rank(x) <= Rank(t)
    ensures forall x :: x in tags + TagIf(flag, t) <==> x in tags || (flag && x == t)
  {
    if flag {
      forall i, j | 0 <= i < j < |tags + [t]|
        ensures Rank((tags + [t])[i]) < Rank((tags + [t])[j])
      {
        assert (tags + [t])[i] == tags[i];
        if j < |tags| {
          assert (tags + [t])[j] == tags[j];
        } else {
          assert tags[i] in tags;
        }
      }
    } else {
      assert tags + TagIf(flag, t) == tags;
    }
  }

  /**
   * The tags of a feature's area: `Natura2000` first, then the directive tags
   * of its site type (habitat for B, bird for A, both for C), then the region
   * tags whose flag is 1; in that order, none twice, and nothing else.
   */
  lemma N2000TagsSpec(f: N2000Feature)
    ensures N2000Tags(f)[0] == Natura2000
    ensures Ordered(N2000Tags(f))
    ensures forall t :: t in N2000Tags(f) <==>
      || t == Natura2000
      || (t == HabitatDirective && (f.siteType == "B" || f.siteType == "C"))
      || (t == BirdDirective && (f.siteType == "A" || f.siteType == "C"))
      || (t == Brussels && f.brussels == 1)
      || (t == Wallonia && f.wallonia == 1)
      || (t == Flanders && f.flanders == 1)
  {
    var head := [Natura2000] + Directives(f.siteType);
    DirectivesRanked(f.siteType);
    AppendRanked(head, f.brussels == 1, Brussels);
    var b := head + TagIf(f.brussels == 1, Brussels);
    AppendRanked(b, f.wallonia == 1, Wallonia);
    var w := b + TagIf(f.wallonia == 1, Wallonia);
    AppendRanked(w, f.flanders == 1, Flanders);
  }

  /** The area one feature yields: named `"<SITECODE> - <SITENAME>"`, reprojected to the storage SRID. */
  function N2000Area(f: N2000Feature, reproject: FeatureGeometry -> FeatureGeometry): NewArea {
    NewArea(f.siteCode + " - " + f.siteName, N2000Tags(f), reproject(f.geometry))
  }

  /** The `tags` list `handle` builds for one feature, appending as it goes. */
  method FeatureTags(f: N2000Feature) returns (tags: seq<Tag>)
    ensures tags == N2000Tags(f)
  {
    tags := [Natura2000];
    if f.siteType == "B" {
      tags := tags + [HabitatDirective];
    } else if f.siteType == "A" {
      tags := tags + [BirdDirective];
    } else if f.siteType == "C" {
      tags := tags + [HabitatDirective];
      tags := tags + [BirdDirective];
    }
    assert tags == [Natura2000] + Directives(f.siteType);
    if f.brussels == 1 {
      tags := tags + [Brussels];
    }
    if f.wallonia == 1 {
      tags := tags + [Wallonia];
    }
    if f.flanders == 1 {
      tags := tags + [Flanders];
    }
  }

  /**
   * `Command.handle`: for each feature of the layer, build the name and the
   * tag list, then create the area. `reproject` is `geom.transform(DATA_SRID)`.
   */
  method LoadN2000Areas(features: seq<N2000Feature>, reproject: FeatureGeometry -> FeatureGeometry)
    returns (created: seq<NewArea>)
    ensures |created| == |features|
    ensures forall i :: 0 <= i < |features| ==> created[i] == N2000Area(features[i], reproject)
  {
    created := [];
    for i := 0 to |features|
      invariant |created| == i
      invariant forall k :: 0 <= k < i ==> created[k] == N2000Area(features[k], reproject)
    {
      var f := features[i];
      var areaName := f.siteCode + " - " + f.siteName;
      var tags := FeatureTags(f);
      created := created + [NewArea(areaName, tags, reproject(f.geometry))];
    }
  }
}
