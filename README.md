# cmr-stac search adapter: query translation, facets and paging links

This project models the core of a STAC / OGC API – Features proxy over NASA's
CMR metadata catalog. The client speaks a geometry-and-date query language
and the catalog speaks a flat key/value dialect. Five pieces are modelled:

- `GeometryEncoder` (`geometry.dfy`): a GeoJSON `intersects` geometry (section
  3.1 of RFC 7946) becomes the catalog's `point`, `line` or `polygon`
  parameter. Its value is the flattened, comma-joined coordinate list. A
  Multi* geometry becomes one string per member plus
  `options[<param>][or] = "true"`. Any other geometry type is a typed error.
- `ParamTranslator` (`params.dfy`): `convertParams(scope, query)`. The result
  is seeded with `provider = scope`. `bbox`, `datetime`, `limit`,
  `collections` and `intersects` each add their own catalog keys, and nothing
  else is carried over.
- `Facets` (`facets.dfy`): `getFacetParams(year?, month?, day?)` builds the
  facets-only request. `getGranuleTemporalFacets` walks the catalog's facet
  tree (Temporal → Year → Month → Day) and returns the year, month or day
  titles.
- `Wfs` (`wfs.dfy`): the paging links of the collection listing, as an
  imperative method with the source's two `splice` updates applied in
  order. The module also holds the empty-result checks of the collection,
  collection-listing and item-listing handlers.
- `CatalogParams` (`catalog.dfy`): the outbound catalog request, a map from
  parameter name to a string, a number or a list of strings.
- `Text` (`text.dfy`): the decimal rendering and comma joining these rely on,
  and the decoder of that format. Its round-trip proofs are what "the
  coordinate order is never changed" rests on.

The implementation of the catalog client (`search/lib/cmr.js`) is not part of
this model. Its behaviour is taken from its test suite,
`search/tests/cmr/cmr.spec.js`, whose assertions are cited below.

## Model

| member | source | states |
|---|---|---|
| `Text.JoinIntsRoundTrip` | search/tests/cmr/cmr.spec.js:183-189 | decoding the comma-joined decimal rendering of any list of integers gives back the same list, in order |
| `GeometryEncoder.Encode` | search/tests/cmr/cmr.spec.js:199-288 | fails exactly for an unsupported geometry type, with an error naming that type; a single geometry yields only its spatial key (`point`/`line`/`polygon`), whose value is one string; a Multi* geometry yields its spatial key, whose value is a list of strings, plus `options[<key>][or]` set to "true" |
| `GeometryEncoder.CoordsRoundTrip` | search/tests/cmr/cmr.spec.js:212-234 | the "lon,lat,lon,lat,…" string of a run of positions decodes back to exactly those positions in order |
| `GeometryEncoder.EncodeRoundTrip` | search/tests/cmr/cmr.spec.js:199-288 | the spatial parameter holds one string per member of the geometry (one for Point/LineString/Polygon, one per point, line or polygon for Multi*), in input order; each is that member's coordinates rendered in decimal and comma-joined, and decodes back to that member's positions; for polygons only the outer ring is sent |
| `ParamTranslator.FieldParams` | search/tests/cmr/cmr.spec.js:183-197 | keys are exactly `provider` plus one key per present field; `provider` is the scope; `bounding_box` is the bbox numbers rendered in decimal and comma-joined in order; `temporal` is the datetime unchanged; `page_size` is the limit unchanged; `collection_concept_id` is what the lookup returned |
| `ParamTranslator.BboxRoundTrip` | search/tests/cmr/cmr.spec.js:183-189 | the `bounding_box` text decodes back to exactly the bbox numbers, in order |
| `ParamTranslator.ConvertParams` | search/tests/cmr/cmr.spec.js:181-310 | fails exactly when `intersects` has an unsupported type; on success the keys are `provider`, the present fields' keys and the geometry's keys, and nothing else; every field key and every encoded geometry key carries its translated value |
| `ParamTranslator.BboxExample` | search/tests/cmr/cmr.spec.js:183-189 | bbox [10,10,10,10] gives exactly {provider, bounding_box: "10,10,10,10"} |
| `ParamTranslator.DatetimeExample` | search/tests/cmr/cmr.spec.js:191-197 | datetime "12:34:00pm" gives exactly {provider, temporal: "12:34:00pm"} |
| `ParamTranslator.PolygonExample` | search/tests/cmr/cmr.spec.js:199-210 | the test polygon gives exactly {provider, polygon: "10,10,10,0,0,10,10,10"} |
| `ParamTranslator.PointExample` | search/tests/cmr/cmr.spec.js:212-221 | Point [10,10] gives exactly {provider, point: "10,10"} |
| `ParamTranslator.LineStringExample` | search/tests/cmr/cmr.spec.js:223-234 | the test LineString gives exactly {provider, line: "10,10,10,0,0,10"} |
| `ParamTranslator.MultiPolygonExample` | search/tests/cmr/cmr.spec.js:236-256 | the test MultiPolygon gives exactly {provider, polygon: ["10,10,10,0,0,10,10,10", "20,20,20,10,10,20,20,20"], options[polygon][or]: "true"} |
| `ParamTranslator.MultiPointExample` | search/tests/cmr/cmr.spec.js:258-270 | MultiPoint [[10,10],[20,20]] gives exactly {provider, point: ["10,10","20,20"], options[point][or]: "true"} |
| `ParamTranslator.MultiLineStringExample` | search/tests/cmr/cmr.spec.js:272-288 | the test MultiLineString gives exactly {provider, line: ["10,10,10,0,0,10", "20,20,20,10,10,20"], options[line][or]: "true"} |
| `ParamTranslator.LimitExample` | search/tests/cmr/cmr.spec.js:290-296 | limit 5 gives exactly {provider, page_size: 5} |
| `Facets.GetFacetParams` | search/tests/cmr/cmr.spec.js:318-340 | keys are exactly `page_size` (0), `include_facets` ("v2") and one `temporal_facet[0][year/month/day]` key per supplied argument, holding that argument unchanged |
| `Facets.FacetParamsSize` | search/tests/cmr/cmr.spec.js:319-324 | the request has 2 keys plus one per supplied argument (2 with none) |
| `Facets.FindChild` | search/tests/cmr/cmr.spec.js:345-370 | finds a node iff some node has exactly that title, and then it is the first such node |
| `Facets.TemporalFacets` | search/tests/cmr/cmr.spec.js:342-390 | an error exactly when the tree has no "Temporal" node or that node has no "Year" node; otherwise years without a year, months with a year only, days with a year and a month |
| `Facets.TemporalFacetsFollowPath` | search/tests/cmr/cmr.spec.js:345-389 | the titles returned are the children of the node at Temporal/Year, Temporal/Year/<year>/Month or Temporal/Year/<year>/Month/<month>/Day; missing structure below "Year" gives an empty map |
| `Facets.TitlesCount` | search/tests/cmr/cmr.spec.js:378-389 | with distinct titles, the returned map has one entry per child node |
| `Facets.ExampleTreeFacets` | search/tests/cmr/cmr.spec.js:342-390 | the test tree gives 2 years, 2 months for 2001 and 3 days for 2001-05 |
| `Wfs.WithPage` | search/lib/api/wfs.js:16-19 | the next/prev query equals the incoming query with only `page_num` replaced; every other parameter is unchanged |
| `Wfs.DefaultPage` | search/lib/api/wfs.js:13-15 | without `page_num` the current page is 1, there is no prev, and next carries page "2" |
| `Wfs.ParseIntJsRoundTrip` | search/lib/api/wfs.js:13 | `parseInt` reads back every integer exactly as it is rendered into a link's query |
| `Wfs.FollowedLinkPage` | search/lib/api/wfs.js:13-21 | following the next (prev) link gives current page + 1 (− 1), NaN staying NaN |
| `Wfs.ExpectedLinks` | search/lib/api/wfs.js:35-56 | self and root come first; prev is present iff the page is above 1; next is present iff at least 10 collections came back; prev precedes next; no rel twice; the count is 2 + [page > 1] + [count ≥ 10] |
| `Wfs.CollectionsLinks` | search/lib/api/wfs.js:13-56 | no collections is the error "Collections not found"; otherwise the list built by the two splices equals `ExpectedLinks` for the parsed page and the hrefs of the page ± 1 queries |
| `Wfs.ShortPageDropsOnlyNext` | search/lib/api/wfs.js:54-56 | on a short page exactly one link is removed, the last one, which is always next |
| `Wfs.LinkExamples` | search/lib/api/wfs.js:35-56 | page 1 with 12 collections gives self, root, next; page 2 with 3 collections gives self, root, prev |
| `Wfs.GetCollection` | search/lib/api/wfs.js:70-71 | a missing collection is the error "Collection [<id>] not found"; a found one is returned |
| `Wfs.ItemsCheck` | search/lib/api/wfs.js:91 | "Items not found" exactly when the value's `length` is undefined or 0 |
| `Wfs.GetGranulesAsWritten` | search/lib/api/wfs.js:90-91 | as written, every granule search result is rejected with "Items not found" |
| `Wfs.GetGranulesAsWrittenRejectsFound` | search/lib/api/wfs.js:90-91 | a search with one granule and 199 hits is still rejected as written |
| `Wfs.GetGranules` | search/lib/api/wfs.js:90-91 | "Items not found" exactly when the page of granules is empty; otherwise the granules are returned |

## Left out

- HTTP routing, request and response objects, status codes and logging (`search/lib/api/wfs.js:1-6`, `58-62`, `123-128`). Schema validation, `settings`, the `convert.*` mappers and the URL builders are left out too. Hrefs are opaque strings; the prev/next URL builder is the parameter `render`.
- The catalog's network calls (`cmrSearch`, `findCollections`, `findGranules`), the `Client-Id` header, the endpoint URLs, and the concurrent two-request `cmr-hits` aggregation are left out. They are I/O. Only the shape of the granule search result is kept (`Wfs.GranuleSearch`), for the item-listing check.
- `ParamTranslator.ConvertParams`: collection-name resolution is a remote lookup. It is the parameter `resolve`, and the model does not say how names map to identifiers.
- The `convertParams(cmr.WFS_PARAMS_CONVERSION_MAP, request.query)` call sites (`search/lib/api/wfs.js:26`, `88`) are not modelled. They use a different signature and their result is not awaited.
- `getGranule` (`search/lib/api/wfs.js:100-112`) is not modelled. It has no check of its own, and it indexes the granule search result as an array.
- The conformance response constant (`search/lib/api/wfs.js:114-121`) is static data with no behaviour.
- `GeometryEncoder.Position`: coordinates are integers and positions are longitude/latitude pairs. JavaScript's rendering of non-integer numbers, and third (altitude) coordinates, are not modelled.
- `Wfs.ParseIntJs`: leading white space is limited to ASCII space, tab, line feed, carriage return, vertical tab and form feed; other Unicode white space is not skipped. Page numbers are unbounded integers, so the loss of precision of JavaScript numbers beyond 2^53 is not modelled.
- `Wfs.CurrentPage`: the helper that reads `page_num` is not part of this model. It is taken to return the parameter's value when present and "1" otherwise.
- `Facets.TemporalFacets`: the facet request sent to the catalog, and the `day` argument, are not modelled. The tree is a parameter. A node's absent `children` is the empty list. The result maps are sets of titles (the keys of the returned object).
- `Facets.GetFacetParams`: each supplied argument adds its key independently, as the test assertions show. The rule that a month without a year is ignored is not modelled; callers never pass that combination.
- `GeometryEncoder.Encode`: an unsupported geometry type is a typed error, and an empty Polygon encodes as the empty string. The encoder's implementation is not part of this model, and its tests cover neither case.

## Findings

| source | as written | input that shows it | evidently intended | confidence | as-written member | corrected member |
|---|---|---|---|---|---|---|
| search/lib/api/wfs.js:90-91 | the item listing tests `granules.length`, but the granule search resolves to an object `{granules, hits}` (search/tests/cmr/cmr.spec.js:160-177), whose `length` is undefined, so every search is reported as "Items not found" | a search returning one granule and `cmr-hits` 199 | report "Items not found" only when the page of granules is empty | medium, not executed | `Wfs.GetGranulesAsWritten`, `Wfs.GetGranulesAsWrittenRejectsFound` | `Wfs.GetGranules` |
