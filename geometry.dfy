/**
 * `dashboard/management/commands/helpers.py`: the geometry-type dispatch the
 * area loaders run on each GDAL feature before storing it in an `Area`'s
 * MultiPolygon field.
 */
module Geometry {
  import opened Wrappers

  /** A vertex; GDAL features may carry a third (Z) dimension. */
  datatype Coordinate = Coordinate(x: real, y: real, z: Option<real>)

  datatype Polygon = Polygon(exterior: seq<Coordinate>, interiors: seq<seq<Coordinate>>)

  datatype MultiPolygon = MultiPolygon(polygons: seq<Polygon>)

  /**
   * A feature's geometry, by GDAL type: the two polygonal types, or any other
   * type (point, line string, collection, ...) known only by its GDAL name,
   * which is never "MultiPolygon" or "Polygon".
   */
  datatype FeatureGeometry =
    | MultiPolygonGeometry(multi: MultiPolygon)
    | PolygonGeometry(polygon: Polygon)
    | OtherGeometry(typeName: string)

  /** `feature.geom_type.name`. */
  function TypeName(g: FeatureGeometry): string {
    match g
    case MultiPolygonGeometry(_) => "MultiPolygon"
    case PolygonGeometry(_) => "Polygon"
    case OtherGeometry(name) => name
  }

  /** The `ValueError` raised for a non-polygonal feature. */
  datatype GeometryError = ValueError(message: string)

  /** The polygons a polygonal geometry is made of. */
  function PolygonsOf(g: FeatureGeometry): seq<Polygon>
    requires !g.OtherGeometry?
  {
    if g.MultiPolygonGeometry? then g.multi.polygons else [g.polygon]
  }

  /**
   * `get_multipolygon_from_feature`: a MultiPolygon is returned as is, a
   * Polygon is added to an empty MultiPolygon, and any other type raises
   * `ValueError(f"Unexpected geometry type: {name}")`.
   */
  function GetMultipolygonFromFeature(g: FeatureGeometry): (r: Result<MultiPolygon, GeometryError>)
    ensures r.Ok? <==> !g.OtherGeometry?
    ensures r.Ok? ==> r.value.polygons == PolygonsOf(g)
    ensures g.MultiPolygonGeometry? ==> r == Ok(g.multi)
    ensures r.Err? ==> r.error.message == "Unexpected geometry type: " + TypeName(g)
  {
    match g
    case MultiPolygonGeometry(m) => Ok(m)
    case PolygonGeometry(p) => Ok(MultiPolygon(MultiPolygon([]).polygons + [p]))
    case OtherGeometry(name) => Err(ValueError("Unexpected geometry type: " + name))
  }

  /** The tags the area loaders attach to the areas they create. */
  datatype Tag = Natura2000 | HabitatDirective | BirdDirective | Brussels | Wallonia | Flanders | Municipality

  /** The text of a tag, as stored by the tagging library. */
  function Label(t: Tag): string {
    match t
    case Natura2000 => "Natura2000"
    case HabitatDirective => "habitat directive"
    case BirdDirective => "bird directive"
    case Brussels => "Brussels"
    case Wallonia => "Wallonia"
    case Flanders => "Flanders"
    case Municipality => "municipality"
  }

  /** An `Area` created by a loader: its name, its tags in the order added, and its geometry. */
  datatype NewArea = NewArea(name: string, tags: seq<Tag>, geometry: FeatureGeometry)
}
