/** The bounding box of the first face that the detection service reports,
    as `extract_face_and_save` computes it before cropping.  The detection
    response is an input; the crop and the save are left out. */
module FaceRegion {

  /** A vertex of `face.bounding_poly.vertices`. */
  datatype Vertex = Vertex(x: int, y: int)

  /** One entry of `response.face_annotations`. */
  datatype FaceAnnotation = FaceAnnotation(vertices: seq<Vertex>)

  /** The box handed to `crop((x_min, y_min, x_max, y_max))`. */
  datatype BoundingBox = BoundingBox(xMin: int, yMin: int, xMax: int, yMax: int)

  /** What the box step ends in: no face (the function returns `None`), a
      box, or the `ValueError` that `min` raises on an empty vertex list
      (not caught by the source). */
  datatype FaceOutcome = NoFace | Found(box: BoundingBox) | EmptyPolygon

  function Xs(vs: seq<Vertex>): (r: seq<int>)
    ensures |r| == |vs| && forall i :: 0 <= i < |vs| ==> r[i] == vs[i].x
  {
    seq(|vs|, i requires 0 <= i < |vs| => vs[i].x)
  }

  function Ys(vs: seq<Vertex>): (r: seq<int>)
    ensures |r| == |vs| && forall i :: 0 <= i < |vs| ==> r[i] == vs[i].y
  {
    seq(|vs|, i requires 0 <= i < |vs| => vs[i].y)
  }

  /** Python's `min` over a non-empty sequence. */
  function Min(xs: seq<int>): (m: int)
    requires |xs| > 0
    ensures m in xs
    ensures forall i :: 0 <= i < |xs| ==> m <= xs[i]
  {
    if |xs| == 1 then xs[0]
    else
      var rest := Min(xs[1..]);
      if xs[0] <= rest then xs[0] else rest
  }

  /** Python's `max` over a non-empty sequence. */
  function Max(xs: seq<int>): (m: int)
    requires |xs| > 0
    ensures m in xs
    ensures forall i :: 0 <= i < |xs| ==> xs[i] <= m
  {
    if |xs| == 1 then xs[0]
    else
      var rest := Max(xs[1..]);
      if xs[0] >= rest then xs[0] else rest
  }

  /** The componentwise extremes of a polygon, with no clamping to the
      image bounds. */
  function BoxOf(vs: seq<Vertex>): (b: BoundingBox)
    requires |vs| > 0
    ensures forall i :: 0 <= i < |vs| ==>
      b.xMin <= vs[i].x <= b.xMax && b.yMin <= vs[i].y <= b.yMax
    ensures exists i :: 0 <= i < |vs| && vs[i].x == b.xMin
    ensures exists i :: 0 <= i < |vs| && vs[i].y == b.yMin
    ensures exists i :: 0 <= i < |vs| && vs[i].x == b.xMax
    ensures exists i :: 0 <= i < |vs| && vs[i].y == b.yMax
  {
    BoundingBox(Min(Xs(vs)), Min(Ys(vs)), Max(Xs(vs)), Max(Ys(vs)))
  }

  /** The box step of `extract_face_and_save`: nothing when no face is
      reported, otherwise the box of `faces[0]` alone. */
  function ExtractFaceBox(faces: seq<FaceAnnotation>): (r: FaceOutcome)
    ensures r.NoFace? <==> |faces| == 0
    ensures r.EmptyPolygon? <==> |faces| > 0 && |faces[0].vertices| == 0
    ensures r.Found? ==> r.box == BoxOf(faces[0].vertices)
  {
    if |faces| == 0 then NoFace
    else if |faces[0].vertices| == 0 then EmptyPolygon
    else Found(BoxOf(faces[0].vertices))
  }

  /** Only the first face counts: faces after it never change the box. */
  lemma OnlyFirstFaceUsed(faces: seq<FaceAnnotation>, others: seq<FaceAnnotation>)
    requires |faces| > 0 && |others| > 0 && faces[0] == others[0]
    ensures ExtractFaceBox(faces) == ExtractFaceBox(others)
  {
  }

  /** Whenever the first face has a vertex, a box is reported and it
      contains that vertex. */
  lemma BoxIsTight(faces: seq<FaceAnnotation>, v: Vertex)
    requires |faces| > 0 && v in faces[0].vertices
    ensures ExtractFaceBox(faces).Found?
    ensures var b := ExtractFaceBox(faces).box;
      b.xMin <= v.x <= b.xMax && b.yMin <= v.y <= b.yMax
  {
  }

  /** No clamping: a polygon that reaches outside a 100x100 image keeps
      its negative and out-of-range corners. */
  lemma NoClampingExample()
    ensures ExtractFaceBox([FaceAnnotation([Vertex(-10, -10), Vertex(110, 110)])])
      == Found(BoundingBox(-10, -10, 110, 110))
  {
  }
}
