/** `pkg/models/doc/query.go`: attribute filters, sort keys and a document query, and
    their rendering into a meilisearch search request. The meilisearch model
    (`pkg/store/meili/model.go`) and `pkg/models/doc/document.go` declare the same records
    with the same code for these methods; both use the members here. */
module DocQuery {
  import opened Wrappers
  import opened Json
  import GoStrings

  /** One filter: an attribute, an operator ("=", "IN", "CONTAINS", ">=", "<=") and a value. */
  datatype AttrQuery = AttrQuery(attr: string, option: string, value: Value)

  /** One sort key. */
  datatype Sort = Sort(attr: string, asc: bool)

  /** A query over documents. */
  datatype DocumentQuery = DocumentQuery(
    attrQueries: seq<AttrQuery>,
    search: string,
    hitsPerPage: int,
    page: int,
    offset: int,
    limit: int,
    sort: seq<Sort>)

  /** A query over document attributes. */
  datatype DocumentAttrQuery = DocumentAttrQuery(attrQueries: seq<AttrQuery>)

  /** The fields of meilisearch.SearchRequest that the code sets; every filter is a string. */
  datatype SearchRequest = SearchRequest(
    offset: int,
    limit: int,
    sort: seq<string>,
    hitsPerPage: int,
    page: int,
    query: string,
    filter: seq<string>)

  /** Sort.String. */
  function SortString(s: Sort): string
  {
    s.attr + (if s.asc then ":asc" else ":desc")
  }

  /** The rendered key is the attribute followed by ":asc" exactly when ascending, and by
      ":desc" otherwise. */
  lemma SortStringShape(s: Sort)
    ensures var r := SortString(s);
      && |r| > |s.attr| && r[..|s.attr|] == s.attr
      && (GoStrings.HasSuffix(r, ":asc") <==> s.asc)
      && (GoStrings.HasSuffix(r, ":desc") <==> !s.asc)
  {
    var r := SortString(s);
    if s.asc {
      assert r[|r| - 4..] == ":asc";
      assert !GoStrings.HasSuffix(r, ":desc") by {
        if |r| >= 5 { assert r[|r| - 4] == ':'; }
      }
    } else {
      assert r[|r| - 5..] == ":desc";
      assert r[|r| - 4..] != ":asc" by { assert r[|r| - 4] == 'd'; }
    }
  }

  /** Different sort keys render differently. */
  lemma SortStringInjective(s: Sort, t: Sort)
    requires SortString(s) == SortString(t)
    ensures s == t
  {
    SortStringShape(s);
    SortStringShape(t);
    var r := SortString(s);
    var n := |r| - (if s.asc then 4 else 5);
    assert s.attr == r[..n];
  }

  /** AttrQuery.ToFilter (and AttrQuery.String): "attr option value", the value in JSON. */
  function ToFilter(aq: AttrQuery): string
  {
    aq.attr + " " + aq.option + " " + Encode(aq.value)
  }

  /** `r` starts with the attribute and the operator, each followed by a space, and its
      last part is a JSON string that reads back as `s`. */
  predicate FilterShape(r: string, attr: string, option: string, s: string)
  {
    var a, o := |attr|, |option|;
    && |r| >= a + o + 4
    && r[..a] == attr && r[a] == ' ' && r[a + 1..a + 1 + o] == option && r[a + 1 + o] == ' '
    && r[a + o + 2] == '"' && r[|r| - 1] == '"'
    && Unquote(r[a + o + 3..|r| - 1]) == Some(s)
  }

  /** A filter on a string value has that shape. */
  lemma ToFilterStringValue(aq: AttrQuery)
    requires aq.value.VString?
    ensures FilterShape(ToFilter(aq), aq.attr, aq.option, aq.value.s)
  {
    var q := Quote(aq.value.s);
    assert ToFilter(aq) == aq.attr + " " + aq.option + " " + q;
    UnquoteQuote(aq.value.s);
    PrefixedQuote(ToFilter(aq), aq.attr, aq.option, q, aq.value.s);
  }

  lemma PrefixedQuote(r: string, attr: string, option: string, q: string, s: string)
    requires |q| >= 2 && q[0] == '"' && q[|q| - 1] == '"' && Unquote(q[1..|q| - 1]) == Some(s)
    requires r == attr + " " + option + " " + q
    ensures FilterShape(r, attr, option, s)
  {
    var a, o := |attr|, |option|;
    assert r[..a] == attr;
    assert r[a + 1..a + 1 + o] == option;
    assert r[a + o + 3..|r| - 1] == q[1..|q| - 1];
  }

  /** Filters on the same attribute with the same operator and different string values are
      different filters. */
  lemma ToFilterDistinguishesStrings(attr: string, option: string, s: string, t: string)
    requires s != t
    ensures ToFilter(AttrQuery(attr, option, VString(s))) != ToFilter(AttrQuery(attr, option, VString(t)))
  {
    var p := attr + " " + option + " ";
    var qs, qt := Quote(s), Quote(t);
    assert ToFilter(AttrQuery(attr, option, VString(s))) == p + qs;
    assert ToFilter(AttrQuery(attr, option, VString(t))) == p + qt;
    if p + qs == p + qt {
      assert qs == (p + qs)[|p|..];
      assert qt == (p + qt)[|p|..];
      QuoteInjective(s, t);
    }
  }

  /** The filters, each followed by one space. */
  function FilterText(aqs: seq<AttrQuery>): string
  {
    if aqs == [] then "" else FilterText(aqs[..|aqs| - 1]) + ToFilter(aqs[|aqs| - 1]) + " "
  }

  function Filters(aqs: seq<AttrQuery>): (fs: seq<string>)
    ensures |fs| == |aqs|
  {
    if aqs == [] then [] else Filters(aqs[..|aqs| - 1]) + [ToFilter(aqs[|aqs| - 1])]
  }

  /** The filter text is the filters joined by single spaces, with one trailing space;
      no filters give the empty text. */
  lemma {:induction false} FilterTextJoin(aqs: seq<AttrQuery>)
    ensures FilterText(aqs) == if aqs == [] then "" else GoStrings.Join(Filters(aqs), " ") + " "
    decreases |aqs|
  {
    if |aqs| > 1 {
      var front := aqs[..|aqs| - 1];
      FilterTextJoin(front);
      GoStrings.JoinSnoc(Filters(front), ToFilter(aqs[|aqs| - 1]), " ");
    } else if |aqs| == 1 {
      assert aqs[..0] == [];
    }
  }

  /** DocumentAttrQuery.String. */
  method AttrQueryString(q: DocumentAttrQuery) returns (result: string)
    ensures result == FilterText(q.attrQueries)
  {
    result := "";
    var i := 0;
    while i < |q.attrQueries|
      invariant 0 <= i <= |q.attrQueries|
      invariant result == FilterText(q.attrQueries[..i])
    {
      assert q.attrQueries[..i + 1][..i] == q.attrQueries[..i];
      result := result + ToFilter(q.attrQueries[i]) + " ";
      i := i + 1;
    }
    assert q.attrQueries[..i] == q.attrQueries;
  }

  /** DocumentQuery.String. */
  method QueryString(q: DocumentQuery) returns (result: string)
    ensures result == "search: [" + q.search + "], attr query: [" + FilterText(q.attrQueries) + "]"
  {
    var filters := "";
    var i := 0;
    while i < |q.attrQueries|
      invariant 0 <= i <= |q.attrQueries|
      invariant filters == FilterText(q.attrQueries[..i])
    {
      assert q.attrQueries[..i + 1][..i] == q.attrQueries[..i];
      filters := filters + ToFilter(q.attrQueries[i]) + " ";
      i := i + 1;
    }
    assert q.attrQueries[..i] == q.attrQueries;
    result := "search: [" + q.search + "], attr query: [" + filters + "]";
  }

  /** The filter list of a request: one filter per attribute query, in order. */
  method BuildFilter(aqs: seq<AttrQuery>) returns (filter: seq<string>)
    ensures |filter| == |aqs|
    ensures forall k :: 0 <= k < |aqs| ==> filter[k] == ToFilter(aqs[k])
  {
    filter := [];
    var i := 0;
    while i < |aqs|
      invariant 0 <= i <= |aqs|
      invariant |filter| == i
      invariant forall k :: 0 <= k < i ==> filter[k] == ToFilter(aqs[k])
    {
      var f := ToFilter(aqs[i]);
      ghost var before := filter;
      filter := filter + [f];
      assert forall k :: 0 <= k < i ==> filter[k] == before[k];
      assert filter[i] == f;
      i := i + 1;
    }
  }

  /** DocumentQuery.ToRequest: one filter per attribute query and one sort string per sort
      key, both in order, and the paging fields and the search text copied. */
  method ToRequest(q: DocumentQuery) returns (r: SearchRequest)
    ensures |r.filter| == |q.attrQueries| && forall k :: 0 <= k < |q.attrQueries| ==> r.filter[k] == ToFilter(q.attrQueries[k])
    ensures |r.sort| == |q.sort| && forall k :: 0 <= k < |q.sort| ==> r.sort[k] == SortString(q.sort[k])
    ensures r.offset == q.offset && r.limit == q.limit && r.hitsPerPage == q.hitsPerPage
    ensures r.page == q.page && r.query == q.search
  {
    var filter := BuildFilter(q.attrQueries);
    var sorts: seq<string> := [];
    var i := 0;
    while i < |q.sort|
      invariant 0 <= i <= |q.sort|
      invariant |sorts| == i
      invariant forall k :: 0 <= k < i ==> sorts[k] == SortString(q.sort[k])
    {
      sorts := sorts + [SortString(q.sort[i])];
      i := i + 1;
    }
    r := SearchRequest(q.offset, q.limit, sorts, q.hitsPerPage, q.page, q.search, filter);
  }

  const AttrPageSize := 10000

  /** DocumentAttrQuery.ToRequest: the filters in order, 10000 hits on one page, no search
      text, no sort and offset 0. */
  method AttrToRequest(q: DocumentAttrQuery) returns (r: SearchRequest)
    ensures |r.filter| == |q.attrQueries| && forall k :: 0 <= k < |q.attrQueries| ==> r.filter[k] == ToFilter(q.attrQueries[k])
    ensures r.limit == AttrPageSize && r.hitsPerPage == AttrPageSize && r.query == ""
    ensures r.offset == 0 && r.page == 0 && r.sort == []
  {
    var filter := BuildFilter(q.attrQueries);
    r := SearchRequest(0, AttrPageSize, [], AttrPageSize, 0, "", filter);
  }
}
