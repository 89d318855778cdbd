/**
 * Temporal facets: `getFacetParams(year?, month?, day?)` builds the
 * facets-only catalog request, and `getGranuleTemporalFacets` walks the facet
 * tree the catalog answers with (root, "Temporal", "Year", year nodes,
 * "Month", month nodes, "Day", day nodes) down to the level the request
 * names, returning the titles found there.
 */
module Facets {
  import opened Results
  import opened CatalogParams

  const YearKey := "temporal_facet[0][year]"
  const MonthKey := "temporal_facet[0][month]"
  const DayKey := "temporal_facet[0][day]"

  /** The key `key` when its argument was supplied, nothing otherwise. */
  function KeyIf(arg: Option<string>, key: string): set<string> {
    if arg.Some? then {key} else {}
  }

  function Supplied(arg: Option<string>): nat {
    if arg.Some? then 1 else 0
  }

  /**
   * The facets-only request: no entries (`page_size = 0`), facets in format
   * "v2", and one `temporal_facet[0][...]` key per supplied argument, holding
   * that argument unchanged.
   */
  function GetFacetParams(year: Option<string>, month: Option<string>, day: Option<string>): (r: Params)
    ensures r.Keys == {"page_size", "include_facets"} + KeyIf(year, YearKey) + KeyIf(month, MonthKey) + KeyIf(day, DayKey)
    ensures r["page_size"] == Number(0) && r["include_facets"] == Text("v2")
    ensures year.Some? ==> r[YearKey] == Text(year.value)
    ensures month.Some? ==> r[MonthKey] == Text(month.value)
    ensures day.Some? ==> r[DayKey] == Text(day.value)
  {
    var base := map["page_size" := Number(0), "include_facets" := Text("v2")];
    var withYear := if year.Some? then base[YearKey := Text(year.value)] else base;
    var withMonth := if month.Some? then withYear[MonthKey := Text(month.value)] else withYear;
    if day.Some? then withMonth[DayKey := Text(day.value)] else withMonth
  }

  /** With no arguments there are exactly two keys; each argument adds one. */
  lemma FacetParamsSize(year: Option<string>, month: Option<string>, day: Option<string>)
    ensures |GetFacetParams(year, month, day)| == 2 + Supplied(year) + Supplied(month) + Supplied(day)
  {
    var base := map["page_size" := Number(0), "include_facets" := Text("v2")];
    assert |base| == 2;
    var withYear := if year.Some? then base[YearKey := Text(year.value)] else base;
    assert YearKey !in base;
    assert |withYear| == 2 + Supplied(year);
    var withMonth := if month.Some? then withYear[MonthKey := Text(month.value)] else withYear;
    assert MonthKey !in withYear;
    assert |withMonth| == 2 + Supplied(year) + Supplied(month);
    var r := if day.Some? then withMonth[DayKey := Text(day.value)] else withMonth;
    assert DayKey !in withMonth;
    assert r == GetFacetParams(year, month, day);
  }

  /** A node of the catalog's facet tree; a node without children has `[]`. */
  datatype FacetNode = FacetNode(title: string, children: seq<FacetNode>)

  /** Exactly one of the three maps, keyed by title. */
  datatype FacetResult = Years(years: set<string>) | Months(months: set<string>) | Days(days: set<string>)

  /** The fixed upper levels of the tree are missing. */
  datatype FacetError = MissingFacet(title: string)

  /** The first node titled `title`, as JavaScript's `Array.prototype.find`. */
  function FindChild(nodes: seq<FacetNode>, title: string): (r: Option<FacetNode>)
    ensures r.None? <==> forall i :: 0 <= i < |nodes| ==> nodes[i].title != title
    ensures r.Some? ==> exists i :: 0 <= i < |nodes| && nodes[i] == r.value && r.value.title == title
                                   && forall j :: 0 <= j < i ==> nodes[j].title != title
  {
    if |nodes| == 0 then None
    else if nodes[0].title == title then Some(nodes[0])
    else
      var r := FindChild(nodes[1..], title);
      assert r.Some? ==> exists i :: 1 <= i < |nodes| && nodes[i] == r.value
                                      && forall j :: 0 <= j < i ==> nodes[j].title != title by {
        if r.Some? {
          var i :| 0 <= i < |nodes[1..]| && nodes[1..][i] == r.value && r.value.title == title
                   && forall j :: 0 <= j < i ==> nodes[1..][j].title != title;
          assert nodes[i + 1] == r.value;
          assert forall j :: 0 <= j < i + 1 ==> nodes[j].title != title by {
            forall j | 0 <= j < i + 1 ensures nodes[j].title != title {
              if j > 0 { assert nodes[j] == nodes[1..][j - 1]; }
            }
          }
        }
      }
      r
  }

  /** The titles of a list of nodes, as the keys of the returned map. */
  function Titles(nodes: seq<FacetNode>): set<string> {
    set i | 0 <= i < |nodes| :: nodes[i].title
  }

  /** The children of `level` under the node titled `title`; missing structure gives none. */
  function Below(nodes: seq<FacetNode>, title: string, level: string): seq<FacetNode> {
    match FindChild(nodes, title)
    case None => []
    case Some(n) =>
      match FindChild(n.children, level)
      case None => []
      case Some(m) => m.children
  }

  /**
   * The temporal facets of a facet tree: the year titles when no year is
   * given, the month titles of that year when only a year is given, and the
   * day titles of that month when both are. A tree without "Temporal" or
   * "Year" is malformed; missing structure further down gives an empty map.
   */
  function TemporalFacets(root: FacetNode, year: Option<string>, month: Option<string>)
    : (r: Result<FacetResult, FacetError>)
    ensures r.Err? <==> FindChild(root.children, "Temporal").None?
                        || FindChild(FindChild(root.children, "Temporal").value.children, "Year").None?
    ensures r.Ok? ==> (r.value.Years? <==> year.None?)
    ensures r.Ok? ==> (r.value.Months? <==> year.Some? && month.None?)
    ensures r.Ok? ==> (r.value.Days? <==> year.Some? && month.Some?)
  {
    match FindChild(root.children, "Temporal")
    case None => Err(MissingFacet("Temporal"))
    case Some(temporal) =>
      match FindChild(temporal.children, "Year")
      case None => Err(MissingFacet("Year"))
      case Some(yearList) =>
        if year.None? then Ok(Years(Titles(yearList.children)))
        else
          var months := Below(yearList.children, year.value, "Month");
          if month.None? then Ok(Months(Titles(months)))
          else Ok(Days(Titles(Below(months, month.value, "Day"))))
  }

  /** The node reached by following `path` title by title, first match at each step. */
  function Follow(node: FacetNode, path: seq<string>): Option<FacetNode>
    decreases |path|
  {
    if |path| == 0 then Some(node)
    else match FindChild(node.children, path[0])
      case None => None
      case Some(child) => Follow(child, path[1..])
  }

  /** The titles of the children of the node at `path`; nothing when the path is absent. */
  function TitlesAt(root: FacetNode, path: seq<string>): set<string> {
    match Follow(root, path)
    case None => {}
    case Some(n) => Titles(n.children)
  }

  /** Following `p + q` is following `p`, then `q` from where `p` ends. */
  lemma {:induction false} FollowAppend(node: FacetNode, p: seq<string>, q: seq<string>)
    ensures Follow(node, p + q) == match Follow(node, p) case None => None case Some(n) => Follow(n, q)
    decreases |p|
  {
    if |p| == 0 {
      assert p + q == q;
    } else {
      assert (p + q)[0] == p[0] && (p + q)[1..] == p[1..] + q;
      match FindChild(node.children, p[0]) {
        case None =>
        case Some(child) => FollowAppend(child, p[1..], q);
      }
    }
  }

  /** `Below` is the children of the node two steps down, or none. */
  lemma {:induction false} BelowFollow(node: FacetNode, title: string, level: string)
    ensures Below(node.children, title, level)
      == match Follow(node, [title, level]) case None => [] case Some(n) => n.children
  {
    var path := [title, level];
    assert path[0] == title && path[1..] == [level];
    match FindChild(node.children, title) {
      case None =>
        assert Follow(node, path) == None;
      case Some(n) =>
        assert Follow(node, path) == Follow(n, [level]);
        var rest := [level];
        assert rest[0] == level && rest[1..] == [];
        match FindChild(n.children, level) {
          case None =>
            assert Follow(n, rest) == None;
          case Some(m) =>
            assert Follow(n, rest) == Follow(m, []) == Some(m);
        }
    }
  }

  /**
   * The walk agrees with following the documented path through the tree:
   * Temporal/Year for years, Temporal/Year/<year>/Month for months and
   * Temporal/Year/<year>/Month/<month>/Day for days.
   */
  lemma TemporalFacetsFollowPath(root: FacetNode, year: Option<string>, month: Option<string>)
    requires TemporalFacets(root, year, month).Ok?
    ensures year.None? ==> TemporalFacets(root, year, month) == Ok(Years(TitlesAt(root, ["Temporal", "Year"])))
    ensures year.Some? && month.None? ==>
      TemporalFacets(root, year, month) == Ok(Months(TitlesAt(root, ["Temporal", "Year", year.value, "Month"])))
    ensures year.Some? && month.Some? ==>
      TemporalFacets(root, year, month)
        == Ok(Days(TitlesAt(root, ["Temporal", "Year", year.value, "Month", month.value, "Day"])))
  {
    var temporal := FindChild(root.children, "Temporal").value;
    var yearList := FindChild(temporal.children, "Year").value;
    var top := ["Temporal", "Year"];
    assert top[1..] == ["Year"] && ["Year"][1..] == [];
    assert Follow(root, top) == Some(yearList);
    assert Titles([]) == {};
    if year.Some? {
      var y := year.value;
      var toMonth := top + [y, "Month"];
      FollowAppend(root, top, [y, "Month"]);
      BelowFollow(yearList, y, "Month");
      assert toMonth == ["Temporal", "Year", y, "Month"];
      if month.Some? {
        var m := month.value;
        FollowAppend(root, toMonth, [m, "Day"]);
        assert toMonth + [m, "Day"] == ["Temporal", "Year", y, "Month", m, "Day"];
        match Follow(root, toMonth) {
          case None =>
            assert Below([], m, "Day") == [];
          case Some(ml) =>
            BelowFollow(ml, m, "Day");
        }
      }
    }
  }

  lemma TitlesCons(nodes: seq<FacetNode>)
    requires |nodes| > 0
    ensures Titles(nodes) == {nodes[0].title} + Titles(nodes[1..])
  {
    var rest := nodes[1..];
    forall t | t in Titles(nodes) ensures t in {nodes[0].title} + Titles(rest) {
      var i :| 0 <= i < |nodes| && nodes[i].title == t;
      if i > 0 { assert rest[i - 1].title == t; }
    }
    forall t | t in Titles(rest) ensures t in Titles(nodes) {
      var i :| 0 <= i < |rest| && rest[i].title == t;
      assert nodes[i + 1].title == t;
    }
  }

  /** Distinct titles give one map entry per node. */
  lemma {:induction false} TitlesCount(nodes: seq<FacetNode>)
    requires forall i, j :: 0 <= i < j < |nodes| ==> nodes[i].title != nodes[j].title
    ensures |Titles(nodes)| == |nodes|
  {
    if |nodes| > 0 {
      var rest := nodes[1..];
      TitlesCount(rest);
      TitlesCons(nodes);
      assert nodes[0].title !in Titles(rest) by {
        forall i | 0 <= i < |rest| ensures rest[i].title != nodes[0].title {
          assert rest[i] == nodes[i + 1];
        }
      }
    }
  }

  /** The facet tree of the catalog response used in the test suite. */
  function ExampleTree(): FacetNode {
    var days := [FacetNode("20", []), FacetNode("22", []), FacetNode("23", [])];
    var months := [FacetNode("05", [FacetNode("Day", days)]), FacetNode("06", [])];
    var years := [FacetNode("2001", [FacetNode("Month", months)]), FacetNode("2002", [])];
    FacetNode("", [FacetNode("Temporal", [FacetNode("Year", years)])])
  }

  lemma TitleList(nodes: seq<FacetNode>)
    requires |nodes| <= 3
    ensures |nodes| == 2 ==> Titles(nodes) == {nodes[0].title, nodes[1].title}
    ensures |nodes| == 3 ==> Titles(nodes) == {nodes[0].title, nodes[1].title, nodes[2].title}
  {
    assert Titles([]) == {};
    if |nodes| > 0 {
      TitlesCons(nodes);
      if |nodes| > 1 {
        TitlesCons(nodes[1..]);
        if |nodes| > 2 {
          TitlesCons(nodes[2..]);
        }
      }
    }
  }

  /** The example tree's Temporal and Year nodes are both present. */
  lemma ExampleYearList()
    ensures FindChild(ExampleTree().children, "Temporal") == Some(ExampleTree().children[0])
    ensures FindChild(ExampleTree().children[0].children, "Year") == Some(ExampleTree().children[0].children[0])
  {
  }

  lemma ExampleYears()
    ensures TemporalFacets(ExampleTree(), None, None) == Ok(Years({"2001", "2002"}))
  {
    ExampleYearList();
    var yearList := ExampleTree().children[0].children[0];
    TitleList(yearList.children);
  }

  lemma ExampleMonths()
    ensures TemporalFacets(ExampleTree(), Some("2001"), None) == Ok(Months({"05", "06"}))
  {
    ExampleYearList();
    var yearList := ExampleTree().children[0].children[0];
    var monthList := yearList.children[0].children[0];
    assert Below(yearList.children, "2001", "Month") == monthList.children;
    TitleList(monthList.children);
  }

  lemma ExampleDays()
    ensures TemporalFacets(ExampleTree(), Some("2001"), Some("05")) == Ok(Days({"20", "22", "23"}))
  {
    ExampleYearList();
    var yearList := ExampleTree().children[0].children[0];
    var monthList := yearList.children[0].children[0];
    var dayList := monthList.children[0].children[0];
    assert Below(yearList.children, "2001", "Month") == monthList.children;
    assert Below(monthList.children, "05", "Day") == dayList.children;
    TitleList(dayList.children);
  }

  /** Two years; two months in 2001; three days in 2001-05. */
  lemma ExampleTreeFacets()
    ensures TemporalFacets(ExampleTree(), None, None) == Ok(Years({"2001", "2002"}))
    ensures TemporalFacets(ExampleTree(), Some("2001"), None) == Ok(Months({"05", "06"}))
    ensures TemporalFacets(ExampleTree(), Some("2001"), Some("05")) == Ok(Days({"20", "22", "23"}))
    ensures |{"2001", "2002"}| == 2 && |{"05", "06"}| == 2 && |{"20", "22", "23"}| == 3
  {
    ExampleYears();
    ExampleMonths();
    ExampleDays();
  }
}
