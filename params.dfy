/**
 * `convertParams(scope, query)`: the STAC search query becomes the
 * catalog's flat parameter map. The output is seeded with `provider = scope`;
 * `bbox`, `datetime`, `intersects`, `limit` and `collections` each add their
 * own catalog keys, and nothing else is carried over.
 */
module ParamTranslator {
  import opened Results
  import Text
  import opened CatalogParams
  import opened GeometryEncoder

  /** The recognised keys of a search query; any other key has no field here. */
  datatype SearchQuery = SearchQuery(
    bbox: Option<seq<int>>,
    datetime: Option<string>,
    intersects: Option<Geometry>,
    limit: Option<int>,
    collections: Option<seq<string>>)

  /** Keys the translation adds for the query's own non-spatial fields. */
  function FieldKeys(q: SearchQuery): set<string> {
    (if q.bbox.Some? then {"bounding_box"} else {})
    + (if q.datetime.Some? then {"temporal"} else {})
    + (if q.limit.Some? then {"page_size"} else {})
    + (if q.collections.Some? then {"collection_concept_id"} else {})
  }

  /** Keys the geometry encoder adds for a supported geometry. */
  function GeometryKeys(g: Geometry): set<string>
    requires !g.OtherType?
  {
    {SpatialKey(g)} + (if IsMulti(g) then {OrFlagKey(SpatialKey(g))} else {})
  }

  /** The provider seed and the keys for the query's non-spatial fields. */
  function FieldParams(scope: string, q: SearchQuery, resolve: seq<string> -> seq<string>): (m: Params)
    ensures m.Keys == {"provider"} + FieldKeys(q)
    ensures m["provider"] == Text(scope)
    ensures q.bbox.Some? ==> m["bounding_box"] == Text(Text.JoinInts(q.bbox.value))
    ensures q.datetime.Some? ==> m["temporal"] == Text(q.datetime.value)
    ensures q.limit.Some? ==> m["page_size"] == Number(q.limit.value)
    ensures q.collections.Some? ==> m["collection_concept_id"] == TextList(resolve(q.collections.value))
  {
    var m0 := map["provider" := Text(scope)];
    var m1 := if q.bbox.Some? then m0["bounding_box" := Text(Text.JoinInts(q.bbox.value))] else m0;
    var m2 := if q.datetime.Some? then m1["temporal" := Text(q.datetime.value)] else m1;
    var m3 := if q.limit.Some? then m2["page_size" := Number(q.limit.value)] else m2;
    var m4 := if q.collections.Some? then m3["collection_concept_id" := TextList(resolve(q.collections.value))] else m3;
    assert m2.Keys == {"provider"} + (if q.bbox.Some? then {"bounding_box"} else {})
                      + (if q.datetime.Some? then {"temporal"} else {});
    assert m4.Keys == m2.Keys + (if q.limit.Some? then {"page_size"} else {})
                      + (if q.collections.Some? then {"collection_concept_id"} else {});
    m4
  }

  /** Every key the non-spatial fields can produce. */
  const FieldNames: set<string> := {"provider", "bounding_box", "temporal", "page_size", "collection_concept_id"}

  /** Every key the geometry encoder can produce. */
  const SpatialNames: set<string> := {"point", "line", "polygon",
    "options[point][or]", "options[line][or]", "options[polygon][or]"}

  lemma NamesDisjoint()
    ensures FieldNames !! SpatialNames
  {
  }

  lemma GeometryKeysNamed(g: Geometry)
    requires !g.OtherType?
    ensures GeometryKeys(g) <= SpatialNames
  {
    assert OrFlagKey("point") == "options[point][or]";
    assert OrFlagKey("line") == "options[line][or]";
    assert OrFlagKey("polygon") == "options[polygon][or]";
  }

  /** The catalog reads the bbox back from `bounding_box` as the same numbers in the same order. */
  lemma BboxRoundTrip(scope: string, q: SearchQuery, resolve: seq<string> -> seq<string>)
    requires q.bbox.Some?
    ensures var m := FieldParams(scope, q, resolve);
      m["bounding_box"].Text? && Text.DecodeInts(m["bounding_box"].text) == Some(q.bbox.value)
  {
    Text.JoinIntsRoundTrip(q.bbox.value);
  }

  lemma SpatialKeysAreNotFieldKeys(g: Geometry, q: SearchQuery)
    requires !g.OtherType?
    ensures GeometryKeys(g) !! {"provider"} + FieldKeys(q)
  {
    assert {"provider"} + FieldKeys(q) <= FieldNames;
    GeometryKeysNamed(g);
    NamesDisjoint();
  }

  /** Merging maps with disjoint keys keeps every entry of both. */
  lemma MergeDisjoint(a: Params, b: Params)
    requires a.Keys !! b.Keys
    ensures (a + b).Keys == a.Keys + b.Keys
    ensures forall k :: k in a ==> (a + b)[k] == a[k]
    ensures forall k :: k in b ==> (a + b)[k] == b[k]
  {
  }

  /**
   * Translates `q` for the catalog scope `scope`. `resolve` stands for the
   * remote lookup that turns collection names into concept identifiers; it is
   * consulted only when the query names collections.
   */
  function ConvertParams(scope: string, q: SearchQuery, resolve: seq<string> -> seq<string>)
    : (r: Result<Params, TranslateError>)
    ensures r.Err? <==> q.intersects.Some? && q.intersects.value.OtherType?
    ensures r.Err? ==> r.error == UnsupportedGeometryType(q.intersects.value.typeName)
    ensures r.Ok? ==> r.value.Keys == {"provider"} + FieldKeys(q)
                        + (if q.intersects.Some? then GeometryKeys(q.intersects.value) else {})
    ensures r.Ok? ==>
      forall k :: k in FieldParams(scope, q, resolve) ==> r.value[k] == FieldParams(scope, q, resolve)[k]
    ensures r.Ok? && q.intersects.Some? ==>
      forall k :: k in Encode(q.intersects.value).value ==> r.value[k] == Encode(q.intersects.value).value[k]
  {
    if q.intersects.None? then Ok(FieldParams(scope, q, resolve))
    else
      var spatial := Encode(q.intersects.value);
      if spatial.Err? then Err(spatial.error)
      else
        var fields := FieldParams(scope, q, resolve);
        SpatialKeysAreNotFieldKeys(q.intersects.value, q);
        MergeDisjoint(fields, spatial.value);
        Ok(fields + spatial.value)
  }

  const NoQuery := SearchQuery(None, None, None, None, None)

  function NoLookup(names: seq<string>): seq<string> { [] }

  /** Two parameter maps with the same keys and the same value at each key are equal. */
  lemma SameParams(a: Params, b: Params)
    requires a.Keys == b.Keys
    requires forall k :: k in a ==> a[k] == b[k]
    ensures a == b
  {
  }

  lemma BboxText()
    ensures Text.JoinInts([10, 10, 10, 10]) == "10,10,10,10"
  {
    assert Text.IntToStr(10) == "10";
    assert Text.IntsToStrs([10, 10, 10, 10]) == ["10", "10", "10", "10"];
    assert Text.Join(["10", "10"]) == "10,10";
    assert Text.Join(["10", "10", "10"]) == "10,10,10";
  }

  /** A query with only a bbox contributes the provider and the rendered bbox. */
  lemma BboxOnly(scope: string, bbox: seq<int>)
    ensures FieldParams(scope, NoQuery.(bbox := Some(bbox)), NoLookup)
      == map["provider" := Text(scope), "bounding_box" := Text(Text.JoinInts(bbox))]
  {
    var q := NoQuery.(bbox := Some(bbox));
    assert FieldKeys(q) == {"bounding_box"};
    SameParams(FieldParams(scope, q, NoLookup),
               map["provider" := Text(scope), "bounding_box" := Text(Text.JoinInts(bbox))]);
  }

  /** A bbox of four numbers is sent as exactly those four, comma-joined in order. */
  lemma BboxExample()
    ensures ConvertParams("provider", NoQuery.(bbox := Some([10, 10, 10, 10])), NoLookup)
      == Ok(map["provider" := Text("provider"), "bounding_box" := Text("10,10,10,10")])
  {
    BboxOnly("provider", [10, 10, 10, 10]);
    BboxText();
  }

  lemma RingFlatten()
    ensures Flatten([Position(10, 10), Position(10, 0), Position(0, 10), Position(10, 10)])
      == [10, 10, 10, 0, 0, 10, 10, 10]
  {
  }

  lemma RingParts()
    ensures Text.IntsToStrs([10, 10, 10, 0, 0, 10, 10, 10]) == ["10", "10", "10", "0", "0", "10", "10", "10"]
  {
    assert Text.IntToStr(10) == "10" && Text.IntToStr(0) == "0";
  }

  lemma RingHalves()
    ensures Text.Join(["10", "10", "10", "0"]) == "10,10,10,0"
    ensures Text.Join(["0", "10", "10", "10"]) == "0,10,10,10"
  {
  }

  lemma RingConcat()
    ensures ["10", "10", "10", "0"] + ["0", "10", "10", "10"] == ["10", "10", "10", "0", "0", "10", "10", "10"]
    ensures "10,10,10,0" + "," + "0,10,10,10" == "10,10,10,0,0,10,10,10"
  {
  }

  lemma RingJoin()
    ensures Text.JoinInts([10, 10, 10, 0, 0, 10, 10, 10]) == "10,10,10,0,0,10,10,10"
  {
    var front := ["10", "10", "10", "0"];
    var back := ["0", "10", "10", "10"];
    RingParts();
    RingConcat();
    Text.JoinAppend(front, back);
    RingHalves();
  }

  lemma RingText()
    ensures Coords([Position(10, 10), Position(10, 0), Position(0, 10), Position(10, 10)]) == "10,10,10,0,0,10,10,10"
  {
    RingFlatten();
    RingJoin();
  }

  /** A query with no non-spatial fields contributes only the provider. */
  lemma ProviderOnly(scope: string, q: SearchQuery, resolve: seq<string> -> seq<string>)
    requires q.bbox.None? && q.datetime.None? && q.limit.None? && q.collections.None?
    ensures FieldParams(scope, q, resolve) == map["provider" := Text(scope)]
  {
    SameParams(FieldParams(scope, q, resolve), map["provider" := Text(scope)]);
  }

  /** With only a supported geometry, the result is the provider plus the encoder's keys. */
  lemma GeometryOnly(scope: string, g: Geometry, spatial: Params)
    requires Encode(g) == Ok(spatial)
    ensures ConvertParams(scope, NoQuery.(intersects := Some(g)), NoLookup)
      == Ok(map["provider" := Text(scope)] + spatial)
  {
    ProviderOnly(scope, NoQuery.(intersects := Some(g)), NoLookup);
  }

  /** A one-ring Polygon is sent as that ring's text. */
  lemma PolygonEncoding(ring: seq<Position>)
    ensures Encode(Polygon([ring])) == Ok(map["polygon" := Text(Coords(ring))])
  {
    assert OuterRing([ring]) == ring;
  }

  lemma RingEncoding()
    ensures Encode(Polygon([[Position(10, 10), Position(10, 0), Position(0, 10), Position(10, 10)]]))
      == Ok(map["polygon" := Text("10,10,10,0,0,10,10,10")])
  {
    RingText();
    PolygonEncoding([Position(10, 10), Position(10, 0), Position(0, 10), Position(10, 10)]);
  }

  /** A Polygon is sent as its outer ring, flattened and comma-joined. */
  lemma PolygonExample()
    ensures ConvertParams("provider", NoQuery.(intersects := Some(Polygon(
        [[Position(10, 10), Position(10, 0), Position(0, 10), Position(10, 10)]]))), NoLookup)
      == Ok(map["provider" := Text("provider"), "polygon" := Text("10,10,10,0,0,10,10,10")])
  {
    var ring := [Position(10, 10), Position(10, 0), Position(0, 10), Position(10, 10)];
    var spatial := map["polygon" := Text("10,10,10,0,0,10,10,10")];
    RingEncoding();
    GeometryOnly("provider", Polygon([ring]), spatial);
    SameParams(map["provider" := Text("provider")] + spatial,
               map["provider" := Text("provider"), "polygon" := Text("10,10,10,0,0,10,10,10")]);
  }

  lemma MultiPointEncoding()
    ensures Encode(MultiPoint([Position(10, 10), Position(20, 20)]))
      == Ok(map["point" := TextList(["10,10", "20,20"]), "options[point][or]" := Text("true")])
  {
    var g := MultiPoint([Position(10, 10), Position(20, 20)]);
    assert Coords([Position(10, 10)]) == "10,10";
    assert Coords([Position(20, 20)]) == "20,20";
    assert Members(g) == [[Position(10, 10)], [Position(20, 20)]];
    assert CoordsEach(Members(g)) == ["10,10", "20,20"];
    assert OrFlagKey("point") == "options[point][or]";
  }

  /** A MultiPoint is sent as one string per point, with the OR flag. */
  lemma MultiPointExample()
    ensures ConvertParams("provider", NoQuery.(intersects := Some(MultiPoint(
        [Position(10, 10), Position(20, 20)]))), NoLookup)
      == Ok(map["provider" := Text("provider"), "point" := TextList(["10,10", "20,20"]),
                "options[point][or]" := Text("true")])
  {
    var spatial := map["point" := TextList(["10,10", "20,20"]), "options[point][or]" := Text("true")];
    MultiPointEncoding();
    GeometryOnly("provider", MultiPoint([Position(10, 10), Position(20, 20)]), spatial);
    SameParams(map["provider" := Text("provider")] + spatial,
               map["provider" := Text("provider"), "point" := TextList(["10,10", "20,20"]),
                   "options[point][or]" := Text("true")]);
  }

  lemma Numerals()
    ensures Text.IntToStr(0) == "0" && Text.IntToStr(10) == "10" && Text.IntToStr(20) == "20"
  {
  }

  lemma PositionText(p: Position)
    ensures Coords([p]) == Text.IntToStr(p.lon) + "," + Text.IntToStr(p.lat)
  {
    var xs := [p.lon, p.lat];
    var parts := [Text.IntToStr(p.lon), Text.IntToStr(p.lat)];
    assert Flatten([p]) == xs;
    assert xs[1..] == [p.lat] && xs[1..][1..] == [];
    assert Text.IntsToStrs(xs) == parts;
    assert parts[1..] == [parts[1]];
    assert Text.Join(parts) == parts[0] + "," + parts[1];
  }

  /** The text of each single position the examples use. */
  lemma CornerTexts()
    ensures Coords([Position(10, 10)]) == "10,10" && Coords([Position(10, 0)]) == "10,0"
    ensures Coords([Position(0, 10)]) == "0,10" && Coords([Position(20, 20)]) == "20,20"
    ensures Coords([Position(20, 10)]) == "20,10" && Coords([Position(10, 20)]) == "10,20"
  {
    Numerals();
    PositionText(Position(10, 10));
    PositionText(Position(10, 0));
    PositionText(Position(0, 10));
    PositionText(Position(20, 20));
    PositionText(Position(20, 10));
    PositionText(Position(10, 20));
  }

  lemma TriangleText(a: Position, b: Position, c: Position)
    ensures Coords([a, b, c]) == Coords([a]) + "," + Coords([b]) + "," + Coords([c])
  {
    CoordsAppend([b], [c]);
    CoordsAppend([a], [b, c]);
    assert [a] + [b, c] == [a, b, c];
    assert [b] + [c] == [b, c];
  }

  lemma FirstLineText()
    ensures Coords([Position(10, 10), Position(10, 0), Position(0, 10)]) == "10,10,10,0,0,10"
  {
    TriangleText(Position(10, 10), Position(10, 0), Position(0, 10));
    CornerTexts();
  }

  lemma SecondLineText()
    ensures Coords([Position(20, 20), Position(20, 10), Position(10, 20)]) == "20,20,20,10,10,20"
  {
    TriangleText(Position(20, 20), Position(20, 10), Position(10, 20));
    CornerTexts();
  }

  lemma ClosedTriangleText(a: Position, b: Position, c: Position)
    ensures Coords([a, b, c, a]) == Coords([a, b, c]) + "," + Coords([a])
  {
    CoordsAppend([a, b, c], [a]);
    assert [a, b, c] + [a] == [a, b, c, a];
  }

  lemma SecondRingText()
    ensures Coords([Position(20, 20), Position(20, 10), Position(10, 20), Position(20, 20)])
      == "20,20,20,10,10,20,20,20"
  {
    SecondLineText();
    ClosedTriangleText(Position(20, 20), Position(20, 10), Position(10, 20));
    CornerTexts();
  }

  /** A MultiPolygon of two one-ring polygons is sent as those two rings. */
  lemma TwoPolygonEncoding(first: seq<Position>, second: seq<Position>)
    ensures Encode(MultiPolygon([[first], [second]]))
      == Ok(map["polygon" := TextList([Coords(first), Coords(second)]), "options[polygon][or]" := Text("true")])
  {
    var g := MultiPolygon([[first], [second]]);
    assert Members(g) == [first, second];
    assert CoordsEach([first, second]) == [Coords(first), Coords(second)];
    assert OrFlagKey("polygon") == "options[polygon][or]";
  }

  /** A MultiLineString of two lines is sent as those two lines. */
  lemma TwoLineEncoding(first: seq<Position>, second: seq<Position>)
    ensures Encode(MultiLineString([first, second]))
      == Ok(map["line" := TextList([Coords(first), Coords(second)]), "options[line][or]" := Text("true")])
  {
    assert CoordsEach([first, second]) == [Coords(first), Coords(second)];
    assert OrFlagKey("line") == "options[line][or]";
  }

  lemma LineEncoding()
    ensures Encode(LineString([Position(10, 10), Position(10, 0), Position(0, 10)]))
      == Ok(map["line" := Text("10,10,10,0,0,10")])
  {
    FirstLineText();
  }

  /** A LineString is sent as its positions, flattened and comma-joined. */
  lemma LineStringExample()
    ensures ConvertParams("provider", NoQuery.(intersects := Some(LineString(
        [Position(10, 10), Position(10, 0), Position(0, 10)]))), NoLookup)
      == Ok(map["provider" := Text("provider"), "line" := Text("10,10,10,0,0,10")])
  {
    var spatial := map["line" := Text("10,10,10,0,0,10")];
    LineEncoding();
    GeometryOnly("provider", LineString([Position(10, 10), Position(10, 0), Position(0, 10)]), spatial);
    SameParams(map["provider" := Text("provider")] + spatial,
               map["provider" := Text("provider"), "line" := Text("10,10,10,0,0,10")]);
  }

  lemma MultiPolygonEncoding()
    ensures Encode(MultiPolygon([
        [[Position(10, 10), Position(10, 0), Position(0, 10), Position(10, 10)]],
        [[Position(20, 20), Position(20, 10), Position(10, 20), Position(20, 20)]]]))
      == Ok(map["polygon" := TextList(["10,10,10,0,0,10,10,10", "20,20,20,10,10,20,20,20"]),
                "options[polygon][or]" := Text("true")])
  {
    var first := [Position(10, 10), Position(10, 0), Position(0, 10), Position(10, 10)];
    var second := [Position(20, 20), Position(20, 10), Position(10, 20), Position(20, 20)];
    RingText();
    SecondRingText();
    TwoPolygonEncoding(first, second);
  }

  /** A MultiPolygon is sent as one string per polygon's outer ring, with the OR flag. */
  lemma MultiPolygonExample()
    ensures ConvertParams("provider", NoQuery.(intersects := Some(MultiPolygon([
        [[Position(10, 10), Position(10, 0), Position(0, 10), Position(10, 10)]],
        [[Position(20, 20), Position(20, 10), Position(10, 20), Position(20, 20)]]]))), NoLookup)
      == Ok(map["provider" := Text("provider"),
                "polygon" := TextList(["10,10,10,0,0,10,10,10", "20,20,20,10,10,20,20,20"]),
                "options[polygon][or]" := Text("true")])
  {
    var spatial := map["polygon" := TextList(["10,10,10,0,0,10,10,10", "20,20,20,10,10,20,20,20"]),
                       "options[polygon][or]" := Text("true")];
    MultiPolygonEncoding();
    GeometryOnly("provider", MultiPolygon([
        [[Position(10, 10), Position(10, 0), Position(0, 10), Position(10, 10)]],
        [[Position(20, 20), Position(20, 10), Position(10, 20), Position(20, 20)]]]), spatial);
    SameParams(map["provider" := Text("provider")] + spatial,
               map["provider" := Text("provider"),
                   "polygon" := TextList(["10,10,10,0,0,10,10,10", "20,20,20,10,10,20,20,20"]),
                   "options[polygon][or]" := Text("true")]);
  }

  lemma MultiLineStringEncoding()
    ensures Encode(MultiLineString([
        [Position(10, 10), Position(10, 0), Position(0, 10)],
        [Position(20, 20), Position(20, 10), Position(10, 20)]]))
      == Ok(map["line" := TextList(["10,10,10,0,0,10", "20,20,20,10,10,20"]),
                "options[line][or]" := Text("true")])
  {
    var first := [Position(10, 10), Position(10, 0), Position(0, 10)];
    var second := [Position(20, 20), Position(20, 10), Position(10, 20)];
    FirstLineText();
    SecondLineText();
    TwoLineEncoding(first, second);
  }

  /** A MultiLineString is sent as one string per line, with the OR flag. */
  lemma MultiLineStringExample()
    ensures ConvertParams("provider", NoQuery.(intersects := Some(MultiLineString([
        [Position(10, 10), Position(10, 0), Position(0, 10)],
        [Position(20, 20), Position(20, 10), Position(10, 20)]]))), NoLookup)
      == Ok(map["provider" := Text("provider"),
                "line" := TextList(["10,10,10,0,0,10", "20,20,20,10,10,20"]),
                "options[line][or]" := Text("true")])
  {
    var spatial := map["line" := TextList(["10,10,10,0,0,10", "20,20,20,10,10,20"]),
                       "options[line][or]" := Text("true")];
    MultiLineStringEncoding();
    GeometryOnly("provider", MultiLineString([
        [Position(10, 10), Position(10, 0), Position(0, 10)],
        [Position(20, 20), Position(20, 10), Position(10, 20)]]), spatial);
    SameParams(map["provider" := Text("provider")] + spatial,
               map["provider" := Text("provider"),
                   "line" := TextList(["10,10,10,0,0,10", "20,20,20,10,10,20"]),
                   "options[line][or]" := Text("true")]);
  }

  /** `datetime` is passed through unchanged as `temporal`. */
  lemma DatetimeExample()
    ensures ConvertParams("provider", NoQuery.(datetime := Some("12:34:00pm")), NoLookup)
      == Ok(map["provider" := Text("provider"), "temporal" := Text("12:34:00pm")])
  {
    var q := NoQuery.(datetime := Some("12:34:00pm"));
    assert FieldParams("provider", q, NoLookup) == map["provider" := Text("provider"), "temporal" := Text("12:34:00pm")];
  }

  /** `limit` becomes `page_size` with the same number. */
  lemma LimitExample()
    ensures ConvertParams("provider", NoQuery.(limit := Some(5)), NoLookup)
      == Ok(map["provider" := Text("provider"), "page_size" := Number(5)])
  {
    var q := NoQuery.(limit := Some(5));
    assert FieldParams("provider", q, NoLookup) == map["provider" := Text("provider"), "page_size" := Number(5)];
  }

  /** A Point is sent as "lon,lat". */
  lemma PointExample()
    ensures ConvertParams("provider", NoQuery.(intersects := Some(Point(Position(10, 10)))), NoLookup)
      == Ok(map["provider" := Text("provider"), "point" := Text("10,10")])
  {
    assert Coords([Position(10, 10)]) == "10,10";
    var spatial := map["point" := Text("10,10")];
    GeometryOnly("provider", Point(Position(10, 10)), spatial);
    SameParams(map["provider" := Text("provider")] + spatial,
               map["provider" := Text("provider"), "point" := Text("10,10")]);
  }
}
