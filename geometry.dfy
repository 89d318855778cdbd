/**
 * The geometry encoder of `convertParams`: a GeoJSON geometry (section 3.1
 * of RFC 7946) becomes the catalog's `point`, `line` or `polygon` spatial
 * parameter, whose value is the comma-joined, flattened coordinate list; a
 * Multi* geometry becomes one such string per member plus the flag
 * `options[<param>][or] = 'true'` asking the catalog to OR them.
 */
module GeometryEncoder {
  import opened Results
  import opened CatalogParams
  import Text

  /** A GeoJSON position: longitude then latitude (integer-valued here). */
  datatype Position = Position(lon: int, lat: int)

  /** The `intersects` geometry, by its GeoJSON `type` member. */
  datatype Geometry =
    | Point(point: Position)
    | LineString(line: seq<Position>)
    | Polygon(rings: seq<seq<Position>>)
    | MultiPoint(points: seq<Position>)
    | MultiLineString(lines: seq<seq<Position>>)
    | MultiPolygon(polygons: seq<seq<seq<Position>>>)
    | OtherType(typeName: string)   // any other `type`, GeometryCollection included

  datatype TranslateError = UnsupportedGeometryType(typeName: string)

  predicate IsMulti(g: Geometry) {
    g.MultiPoint? || g.MultiLineString? || g.MultiPolygon?
  }

  /** The catalog parameter a supported geometry is sent as. */
  function SpatialKey(g: Geometry): string
    requires !g.OtherType?
  {
    match g
    case Point(_) => "point"
    case MultiPoint(_) => "point"
    case LineString(_) => "line"
    case MultiLineString(_) => "line"
    case Polygon(_) => "polygon"
    case MultiPolygon(_) => "polygon"
  }

  /** The key of the flag that makes the catalog OR several values of `param`. */
  function OrFlagKey(param: string): string {
    "options[" + param + "][or]"
  }

  /** Only the outer ring of a polygon is sent; an empty polygon has none. */
  function OuterRing(rings: seq<seq<Position>>): seq<Position> {
    if |rings| == 0 then [] else rings[0]
  }

  /** Every coordinate of the positions, in order: lon, lat, lon, lat, ... */
  function Flatten(ps: seq<Position>): (r: seq<int>)
    ensures |r| == 2 * |ps|
  {
    if |ps| == 0 then [] else [ps[0].lon, ps[0].lat] + Flatten(ps[1..])
  }

  /** The catalog's text form of a run of positions: "lon,lat,lon,lat,...". */
  function Coords(ps: seq<Position>): string {
    Text.JoinInts(Flatten(ps))
  }

  lemma {:induction false} FlattenAppend(ps: seq<Position>, qs: seq<Position>)
    ensures Flatten(ps + qs) == Flatten(ps) + Flatten(qs)
  {
    if |ps| > 0 {
      assert (ps + qs)[1..] == ps[1..] + qs;
      FlattenAppend(ps[1..], qs);
    } else {
      assert ps + qs == qs;
    }
  }

  /** The text of two runs one after the other is their texts joined by one comma. */
  lemma CoordsAppend(ps: seq<Position>, qs: seq<Position>)
    requires |ps| > 0 && |qs| > 0
    ensures Coords(ps + qs) == Coords(ps) + "," + Coords(qs)
  {
    FlattenAppend(ps, qs);
    Text.IntsToStrsAppend(Flatten(ps), Flatten(qs));
    Text.JoinAppend(Text.IntsToStrs(Flatten(ps)), Text.IntsToStrs(Flatten(qs)));
  }

  /**
   * The position runs a geometry is made of, one per string the encoder
   * sends, in input order; the reference against which encoding is checked.
   */
  function Members(g: Geometry): seq<seq<Position>>
    requires !g.OtherType?
  {
    match g
    case Point(p) => [[p]]
    case LineString(ps) => [ps]
    case Polygon(rings) => [OuterRing(rings)]
    case MultiPoint(ps) => seq(|ps|, i requires 0 <= i < |ps| => [ps[i]])
    case MultiLineString(lines) => lines
    case MultiPolygon(polys) => seq(|polys|, i requires 0 <= i < |polys| => OuterRing(polys[i]))
  }

  function CoordsEach(runs: seq<seq<Position>>): (r: seq<string>)
    ensures |r| == |runs|
    ensures forall i :: 0 <= i < |runs| ==> r[i] == Coords(runs[i])
  {
    seq(|runs|, i requires 0 <= i < |runs| => Coords(runs[i]))
  }

  /**
   * Encodes the `intersects` geometry. A single geometry gives one text
   * value; a Multi* geometry gives a list with the OR flag set to "true";
   * any other type is an error naming that type.
   */
  function Encode(g: Geometry): (r: Result<Params, TranslateError>)
    ensures r.Err? <==> g.OtherType?
    ensures g.OtherType? ==> r == Err(UnsupportedGeometryType(g.typeName))
    ensures r.Ok? && !IsMulti(g) ==> r.value.Keys == {SpatialKey(g)}
    ensures r.Ok? && !IsMulti(g) ==> r.value[SpatialKey(g)].Text?
    ensures r.Ok? && IsMulti(g) ==>
      && r.value.Keys == {SpatialKey(g), OrFlagKey(SpatialKey(g))}
      && r.value[SpatialKey(g)].TextList?
      && r.value[OrFlagKey(SpatialKey(g))] == Text("true")
  {
    match g
    case Point(p) => Ok(map["point" := Text(Coords([p]))])
    case LineString(ps) => Ok(map["line" := Text(Coords(ps))])
    case Polygon(rings) => Ok(map["polygon" := Text(Coords(OuterRing(rings)))])
    case MultiPoint(_) => Ok(map["point" := TextList(CoordsEach(Members(g))), OrFlagKey("point") := Text("true")])
    case MultiLineString(lines) => Ok(map["line" := TextList(CoordsEach(lines)), OrFlagKey("line") := Text("true")])
    case MultiPolygon(_) => Ok(map["polygon" := TextList(CoordsEach(Members(g))), OrFlagKey("polygon") := Text("true")])
    case OtherType(t) => Err(UnsupportedGeometryType(t))
  }

  /** The strings sent under the spatial key: one for a text value, all of a list. */
  function SentStrings(v: Value): seq<string> {
    match v
    case Text(s) => [s]
    case Number(_) => []
    case TextList(ss) => ss
  }

  /** Pairs up a flat coordinate list again; an odd count is malformed. */
  function Pair(xs: seq<int>): Option<seq<Position>>
  {
    if |xs| == 0 then Some([])
    else if |xs| == 1 then None
    else match Pair(xs[2..])
      case Some(ps) => Some([Position(xs[0], xs[1])] + ps)
      case None => None
  }

  /** How the catalog reads a spatial string back into positions. */
  function DecodeCoords(s: string): Option<seq<Position>>
  {
    match Text.DecodeInts(s)
    case Some(xs) => Pair(xs)
    case None => None
  }

  lemma {:induction false} PairFlatten(ps: seq<Position>)
    ensures Pair(Flatten(ps)) == Some(ps)
  {
    if |ps| > 0 {
      var xs := Flatten(ps);
      assert xs[2..] == Flatten(ps[1..]);
      PairFlatten(ps[1..]);
      assert [ps[0]] + ps[1..] == ps;
    }
  }

  /** The catalog recovers every position, in order, from a spatial string. */
  lemma CoordsRoundTrip(ps: seq<Position>)
    ensures DecodeCoords(Coords(ps)) == Some(ps)
  {
    Text.JoinIntsRoundTrip(Flatten(ps));
    PairFlatten(ps);
  }

  /**
   * Encoding never reorders or drops coordinates: the spatial parameter holds
   * exactly one string per member of the geometry, in input order, and each
   * decodes back to that member's positions.
   */
  lemma EncodeRoundTrip(g: Geometry)
    requires !g.OtherType?
    ensures Encode(g).Ok? && SpatialKey(g) in Encode(g).value
    ensures var sent := SentStrings(Encode(g).value[SpatialKey(g)]);
      && |sent| == |Members(g)|
      && (forall i :: 0 <= i < |sent| ==> sent[i] == Coords(Members(g)[i]))
      && (forall i :: 0 <= i < |sent| ==> DecodeCoords(sent[i]) == Some(Members(g)[i]))
  {
    var sent := SentStrings(Encode(g).value[SpatialKey(g)]);
    forall i | 0 <= i < |sent| ensures DecodeCoords(sent[i]) == Some(Members(g)[i]) {
      CoordsRoundTrip(Members(g)[i]);
    }
  }
}
