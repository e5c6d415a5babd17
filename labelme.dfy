/**
 * The LabelMe annotation schema shared by both converters: a rectangle
 * shape record and the per-image annotation document. JSON text itself
 * (indentation, key order) is not modelled; a record is a value.
 */
module LabelMe {
  import opened Wrappers

  /** The schema version both converters write. */
  const Version: string := "4.5.5"
  const RectangleType: string := "rectangle"

  /** A pixel position `[x, y]`. */
  datatype Point = Point(x: int, y: int)

  /** The two points `[p1, p2]` of a rectangle, in the order written. */
  datatype Corners = Corners(p1: Point, p2: Point)

  /**
   * One entry of "shapes": `label` (here labelName), `points`, `group_id` (None is JSON
   * null), `shape_type` and `flags`.
   */
  datatype Shape = Shape(
    labelName: string,
    points: Corners,
    groupId: Option<int>,
    shapeType: string,
    flags: map<string, bool>)

  /** The annotation document written for one image. */
  datatype Annotation = Annotation(
    version: string,
    flags: map<string, bool>,
    shapes: seq<Shape>,
    imagePath: string,
    imageData: string,
    imageHeight: int,
    imageWidth: int)

  /** The fixed fields every record of both converters carries. */
  predicate IsRectangleRecord(s: Shape)
  {
    s.shapeType == RectangleType && s.groupId == None && s.flags == map[]
  }

  /** A rectangle whose first point is strictly above and left of its second. */
  predicate NonDegenerate(c: Corners)
  {
    c.p1.x < c.p2.x && c.p1.y < c.p2.y
  }

  /** The record both converters build around a label and two points. */
  function RectangleRecord(labelName: string, points: Corners): (s: Shape)
    ensures IsRectangleRecord(s) && s.labelName == labelName && s.points == points
  {
    Shape(labelName, points, None, RectangleType, map[])
  }

  /** The document both converters write: fixed version, no flags. */
  function Document(shapes: seq<Shape>, imagePath: string, imageData: string, height: int, width: int): (d: Annotation)
    ensures d.version == Version && d.flags == map[] && d.shapes == shapes
    ensures d.imagePath == imagePath && d.imageData == imageData
    ensures d.imageHeight == height && d.imageWidth == width
  {
    Annotation(Version, map[], shapes, imagePath, imageData, height, width)
  }
}
