/**
 * The collection-listing handler's paging links and the handlers'
 * empty-result checks. The current page is read from the `page_num` query
 * parameter (1 when absent); the `next` and `prev` links point at the same
 * query with only `page_num` replaced. The link list starts as
 * [self, root, next]; `prev` is spliced in before the last link when the page
 * is above 1, and the last link is spliced off when fewer than 10 collections
 * came back.
 */
module Wfs {
  import opened Results
  import Text

  /** The request's query-string parameters. */
  type Query = map<string, string>

  const PageKey := "page_num"

  /** A page with fewer collections than this is taken to be the last one. */
  const ShortPageThreshold := 10

  /** A JavaScript number as `parseInt` produces it: an integer, or NaN. */
  datatype PageNumber = Page(n: int) | NaN

  predicate IsSpace(c: char) {
    c == ' ' || c == '\t' || c == '\n' || c == '\r' || c == '\U{000B}' || c == '\U{000C}'
  }

  function TrimStart(s: string): (r: string)
    ensures |r| > 0 ==> !IsSpace(r[0])
  {
    if |s| > 0 && IsSpace(s[0]) then TrimStart(s[1..]) else s
  }

  /** The longest run of decimal digits at the start of `s`. */
  function DigitPrefix(s: string): (r: string)
    ensures Text.AllDigits(r) && r <= s
    ensures |r| < |s| ==> !Text.IsDigit(s[|r|])
  {
    if |s| > 0 && Text.IsDigit(s[0]) then [s[0]] + DigitPrefix(s[1..]) else []
  }

  /**
   * `parseInt(s, 10)`: skip leading white space, read an optional sign and
   * then as many decimal digits as there are; with no digit the result is NaN.
   */
  function ParseIntJs(s: string): PageNumber
  {
    var t := TrimStart(s);
    var negative := |t| > 0 && t[0] == '-';
    var unsigned := if |t| > 0 && (t[0] == '-' || t[0] == '+') then t[1..] else t;
    var digits := DigitPrefix(unsigned);
    if |digits| == 0 then NaN
    else if negative then Page(-(Text.DigitsValue(digits) as int))
    else Page(Text.DigitsValue(digits))
  }

  /** The requested page: `page_num` parsed as a decimal integer, "1" when absent. */
  function CurrentPage(query: Query): PageNumber {
    ParseIntJs(if PageKey in query then query[PageKey] else "1")
  }

  /** JavaScript addition on a page number: NaN stays NaN. */
  function Plus(p: PageNumber, d: int): PageNumber {
    match p
    case Page(n) => Page(n + d)
    case NaN => NaN
  }

  /** How the number assigned to `page_num` appears in the rendered query string. */
  function PageText(p: PageNumber): string {
    match p
    case Page(n) => Text.IntToStr(n)
    case NaN => "NaN"
  }

  /** A copy of the query whose `page_num` is `p`; every other parameter is kept. */
  function WithPage(query: Query, p: PageNumber): (r: Query)
    ensures r.Keys == query.Keys + {PageKey}
    ensures r[PageKey] == PageText(p)
    ensures forall k :: k in query && k != PageKey ==> r[k] == query[k]
  {
    query[PageKey := PageText(p)]
  }

  /** The `prev` link is offered only beyond the first page (never for NaN). */
  predicate HasPrev(p: PageNumber) {
    p.Page? && p.n > 1
  }

  /** `next` is offered only after a full page. */
  predicate HasNext(collectionCount: nat) {
    collectionCount >= ShortPageThreshold
  }

  datatype Rel = Self | Root | Prev | Next

  /** A link of the response; `href` is the rendered URL, opaque here. */
  datatype Link = Link(rel: Rel, href: string)

  function Rels(links: seq<Link>): (r: seq<Rel>)
    ensures |r| == |links| && forall i :: 0 <= i < |links| ==> r[i] == links[i].rel
  {
    seq(|links|, i requires 0 <= i < |links| => links[i].rel)
  }

  /**
   * The links the collection listing must carry: `self` and `root` first,
   * `prev` exactly when the page is above 1, `next` exactly after a full
   * page, `prev` before `next`, each at most once.
   */
  function ExpectedLinks(selfHref: string, rootHref: string, prevHref: string, nextHref: string,
                         page: PageNumber, collectionCount: nat): (r: seq<Link>)
    ensures |r| == 2 + (if HasPrev(page) then 1 else 0) + (if HasNext(collectionCount) then 1 else 0)
    ensures r[0] == Link(Self, selfHref) && r[1] == Link(Root, rootHref)
    ensures Prev in Rels(r) <==> HasPrev(page)
    ensures Next in Rels(r) <==> HasNext(collectionCount)
    ensures forall i :: 0 <= i < |r| && r[i].rel == Prev ==> r[i].href == prevHref
    ensures forall i :: 0 <= i < |r| && r[i].rel == Next ==> r[i].href == nextHref
    ensures forall i, j :: 0 <= i < |r| && 0 <= j < |r| && r[i].rel == Prev && r[j].rel == Next ==> i < j
    ensures forall i, j :: 0 <= i < j < |r| ==> r[i].rel != r[j].rel
  {
    var r := [Link(Self, selfHref), Link(Root, rootHref)]
      + (if HasPrev(page) then [Link(Prev, prevHref)] else [])
      + (if HasNext(collectionCount) then [Link(Next, nextHref)] else []);
    assert HasPrev(page) ==> Rels(r)[2] == Prev;
    assert HasNext(collectionCount) ==> Rels(r)[|r| - 1] == Next;
    r
  }

  /**
   * The paging part of the collection listing. `render` stands for the URL
   * builder applied to the request path and a query; `collectionCount` is the
   * number of collections the catalog returned. No collections is an error.
   */
  method CollectionsLinks(query: Query, selfHref: string, rootHref: string,
                          render: Query -> string, collectionCount: nat)
    returns (r: Result<seq<Link>, string>)
    ensures r.Err? <==> collectionCount == 0
    ensures r.Err? ==> r.error == "Collections not found"
    ensures r.Ok? ==> r.value == ExpectedLinks(selfHref, rootHref,
      render(WithPage(query, Plus(CurrentPage(query), -1))),
      render(WithPage(query, Plus(CurrentPage(query), 1))),
      CurrentPage(query), collectionCount)
  {
    var currPage := CurrentPage(query);
    var nextPage := Plus(currPage, 1);
    var prevPage := Plus(currPage, -1);
    var nextParams := WithPage(query, nextPage);
    var prevParams := WithPage(query, prevPage);
    var prevResultsLink := render(prevParams);
    var nextResultsLink := render(nextParams);
    if collectionCount == 0 {
      return Err("Collections not found");
    }
    var links := [Link(Self, selfHref), Link(Root, rootHref), Link(Next, nextResultsLink)];
    if HasPrev(currPage) && |links| > 1 {
      // splice(links.length - 1, 0, prev): insert before the last link
      links := links[..|links| - 1] + [Link(Prev, prevResultsLink)] + links[|links| - 1..];
    }
    if collectionCount < ShortPageThreshold {
      // splice(links.length - 1): drop the last link
      links := links[..|links| - 1];
    }
    return Ok(links);
  }

  /** A short page drops exactly one link, the last one, and it is `next`. */
  lemma ShortPageDropsOnlyNext(selfHref: string, rootHref: string, prevHref: string, nextHref: string,
                               page: PageNumber, short: nat, full: nat)
    requires short < ShortPageThreshold <= full
    ensures var long := ExpectedLinks(selfHref, rootHref, prevHref, nextHref, page, full);
      && long[|long| - 1] == Link(Next, nextHref)
      && ExpectedLinks(selfHref, rootHref, prevHref, nextHref, page, short) == long[..|long| - 1]
  {
  }

  lemma {:induction false} DigitPrefixOfDigits(s: string)
    requires Text.AllDigits(s)
    ensures DigitPrefix(s) == s
  {
    if |s| > 0 {
      DigitPrefixOfDigits(s[1..]);
      assert [s[0]] + s[1..] == s;
    }
  }

  lemma {:induction false} ParseIntJsDigits(t: string)
    requires |t| > 0 && Text.AllDigits(t)
    ensures ParseIntJs(t) == Page(Text.DigitsValue(t))
  {
    DigitPrefixOfDigits(t);
    assert TrimStart(t) == t;
  }

  /** `parseInt` reads back every integer as JavaScript renders it. */
  lemma {:induction false} ParseIntJsRoundTrip(n: int)
    ensures ParseIntJs(Text.IntToStr(n)) == Page(n)
  {
    var m := if n < 0 then -n else n;
    var digits := Text.NatToStr(m);
    Text.NatToStrDigits(m);
    if n < 0 {
      var s := "-" + digits;
      assert Text.IntToStr(n) == s;
      assert TrimStart(s) == s;
      assert s[1..] == digits;
      DigitPrefixOfDigits(digits);
    } else {
      assert Text.IntToStr(n) == digits;
      ParseIntJsDigits(digits);
    }
  }

  /**
   * Following the `next` or `prev` link lands on the page one further or one
   * back: the page number written into the link's query parses back to it.
   */
  lemma FollowedLinkPage(query: Query, d: int)
    ensures CurrentPage(WithPage(query, Plus(CurrentPage(query), d))) == Plus(CurrentPage(query), d)
  {
    match Plus(CurrentPage(query), d) {
      case Page(n) => ParseIntJsRoundTrip(n);
      case NaN =>
        assert TrimStart("NaN") == "NaN";
    }
  }

  /** Without `page_num` the listing is on page 1: `next` leads to 2 and there is no `prev`. */
  lemma DefaultPage(query: Query)
    requires PageKey !in query
    ensures CurrentPage(query) == Page(1) && !HasPrev(CurrentPage(query))
    ensures WithPage(query, Plus(CurrentPage(query), 1))[PageKey] == "2"
  {
    assert TrimStart("1") == "1";
    assert DigitPrefix("1") == "1";
    assert Text.IntToStr(2) == "2";
  }

  /** Page 1 with 12 collections; page 2 with 3. */
  lemma LinkExamples(selfHref: string, rootHref: string, prevHref: string, nextHref: string)
    ensures Rels(ExpectedLinks(selfHref, rootHref, prevHref, nextHref, Page(1), 12)) == [Self, Root, Next]
    ensures Rels(ExpectedLinks(selfHref, rootHref, prevHref, nextHref, Page(2), 3)) == [Self, Root, Prev]
  {
  }

  /** A catalog entry (a collection or an item); only its identifier matters here. */
  datatype Entry = Entry(conceptId: string)

  /** A single-collection lookup that found nothing is an error naming the identifier. */
  function GetCollection(conceptId: string, found: Option<Entry>): (r: Result<Entry, string>)
    ensures r.Ok? <==> found.Some?
    ensures r.Ok? ==> r.value == found.value
    ensures r.Err? ==> r.error == "Collection [" + conceptId + "] not found"
  {
    match found
    case Some(e) => Ok(e)
    case None => Err("Collection [" + conceptId + "] not found")
  }

  /** What the catalog client's granule search resolves to: a page of entries and the total hit count. */
  datatype GranuleSearch = GranuleSearch(granules: seq<Entry>, hits: nat)

  /** The value the item-listing handler receives, as JavaScript sees it. */
  datatype JsValue = JsArray(elements: seq<Entry>) | JsSearchObject(search: GranuleSearch)

  /** The `length` property: an array's length; undefined on a plain object. */
  function LengthProperty(v: JsValue): Option<nat> {
    match v
    case JsArray(es) => Some(|es|)
    case JsSearchObject(_) => None
  }

  /** `if (!v.length) throw new Error('Items not found')`: undefined and 0 are both falsy. */
  function ItemsCheck(v: JsValue): (r: Result<JsValue, string>)
    ensures r.Err? <==> LengthProperty(v) == None || LengthProperty(v) == Some(0)
    ensures r.Err? ==> r.error == "Items not found"
    ensures r.Ok? ==> r.value == v
  {
    match LengthProperty(v)
    case None => Err("Items not found")
    case Some(n) => if n == 0 then Err("Items not found") else Ok(v)
  }

  /** The item-listing check as written: it asks the search result object for its `length`. */
  function GetGranulesAsWritten(found: GranuleSearch): (r: Result<JsValue, string>)
    ensures r == Err("Items not found")
  {
    ItemsCheck(JsSearchObject(found))
  }

  /** As written, a search with one granule and 199 hits is still reported as "Items not found". */
  lemma GetGranulesAsWrittenRejectsFound()
    ensures var found := GranuleSearch([Entry("G1")], 199);
      |found.granules| > 0 && GetGranulesAsWritten(found) == Err("Items not found")
  {
  }

  /** The intended check: an empty page of granules is an error, any other page is returned. */
  function GetGranules(found: GranuleSearch): (r: Result<seq<Entry>, string>)
    ensures r.Err? <==> |found.granules| == 0
    ensures r.Err? ==> r.error == "Items not found"
    ensures r.Ok? ==> r.value == found.granules
  {
    match ItemsCheck(JsArray(found.granules))
    case Err(e) => Err(e)
    case Ok(_) => Ok(found.granules)
  }
}
