/** `api/doc.go` `getFilterQuery`: the query string of the list endpoint read into a document
    filter. The query string is a map from parameter name to its first value; gin's
    `Query(k)` is that value or "" and `DefaultQuery(k, d)` is that value or `d` when the
    parameter is absent (a present but empty parameter stays ""). A nil filter with a
    400 reply is `Err(body)`. */
module ApiDoc {
  import opened Wrappers
  import opened DocModel
  import GoStrings
  import Util

  type Params = map<string, string>

  /** c.Query(k). */
  function Query(q: Params, k: string): (v: string)
    ensures k !in q ==> v == ""
  {
    if k in q then q[k] else ""
  }

  /** c.DefaultQuery(k, d). */
  function DefaultQuery(q: Params, k: string, d: string): (v: string)
    ensures k !in q ==> v == d
  {
    if k in q then q[k] else d
  }

  /** One integer parameter: its name, the prefix of its error reply, and its default when
      it has one. A parameter without a default is read only when non-empty. */
  datatype Check = Check(key: string, message: string, default: Option<string>)

  /** The integer parameters in the order they are read. */
  const Checks: seq<Check> := [
    Check("page", "invalid page number: ", Some("1")),
    Check("pageSize", "invalid pagesize: ", Some("10")),
    Check("sort", "invalid sort: ", Some("4")),
    Check("parentId", "invalid parentId: ", None),
    Check("createAtStart", "invalid createAtStart: ", None),
    Check("createAtEnd", "invalid createAtEnd: ", None),
    Check("updatedAtStart", "invalid updatedAtStart: ", None),
    Check("updatedAtEnd", "invalid updatedAtEnd: ", None)
  ]

  /** The text the parameter is parsed from. */
  function Raw(q: Params, c: Check): string
  {
    if c.default.Some? then DefaultQuery(q, c.key, c.default.value) else Query(q, c.key)
  }

  /** The parameter is read and is not a 64-bit decimal integer. */
  predicate Fails(q: Params, c: Check)
  {
    (c.default.Some? || Raw(q, c) != "") && !GoStrings.Atoi(Raw(q, c)).ok
  }

  /** The first parameter, from position `i` on, that fails. */
  function FirstFailure(q: Params, i: nat): (r: Option<nat>)
    requires i <= |Checks|
    ensures r.Some? ==> i <= r.value < |Checks| && Fails(q, Checks[r.value])
    ensures r.Some? ==> forall j :: i <= j < r.value ==> !Fails(q, Checks[j])
    ensures r.None? ==> forall j :: i <= j < |Checks| ==> !Fails(q, Checks[j])
    decreases |Checks| - i
  {
    if i == |Checks| then None
    else if Fails(q, Checks[i]) then Some(i)
    else FirstFailure(q, i + 1)
  }

  /** The value of a parameter with a default. */
  function IntParam(q: Params, k: string, d: string): int
  {
    GoStrings.Atoi(DefaultQuery(q, k, d)).value
  }

  /** A parameter without a default: nil when empty, else its value. */
  function OptionalInt(q: Params, k: string): Option<int>
  {
    if Query(q, k) == "" then None else Some(GoStrings.Atoi(Query(q, k)).value)
  }

  /** A boolean parameter: nil when empty, else whether it is "true". */
  function OptionalBool(q: Params, k: string): Option<bool>
  {
    if Query(q, k) == "" then None else Some(Query(q, k) == "true")
  }

  /** A timestamp parameter: nil when empty, else the time at those Unix seconds. */
  function OptionalTime(q: Params, k: string): Option<Time>
  {
    match OptionalInt(q, k)
    case None => None
    case Some(s) => Some(FromUnix(s))
  }

  /** The filter the query string describes when every integer parameter parses. */
  function FilterOf(namespace: string, q: Params): DocumentFilter
  {
    DocumentFilter(
      namespace, Query(q, "search"), Query(q, "fuzzyName"), OptionalInt(q, "parentId"),
      Query(q, "source"), OptionalBool(q, "mark"), OptionalBool(q, "unRead"),
      OptionalTime(q, "createAtStart"), None, OptionalTime(q, "updatedAtStart"),
      if OptionalTime(q, "updatedAtEnd").Some? then OptionalTime(q, "updatedAtEnd") else OptionalTime(q, "createAtEnd"),
      IntParam(q, "page", "1"), IntParam(q, "pageSize", "10"),
      DocumentOrder(IntParam(q, "sort", "4"), Query(q, "desc") == "true"))
  }

  /** What getFilterQuery answers: the reply of the first parameter that does not parse, or
      the filter. Every reply quotes the page parameter, whichever parameter failed. */
  function FilterSpec(namespace: string, q: Params): Result<DocumentFilter, string>
  {
    match FirstFailure(q, 0)
    case Some(i) => Err(Checks[i].message + Query(q, "page"))
    case None => Ok(FilterOf(namespace, q))
  }

  /** The first failing parameter is `k` when `k` fails and none before it does. */
  lemma FirstFailureAt(q: Params, k: nat)
    requires k < |Checks| && Fails(q, Checks[k])
    requires forall j :: 0 <= j < k ==> !Fails(q, Checks[j])
    ensures FirstFailure(q, 0) == Some(k)
  {
  }

  /** getFilterQuery: the integer parameters are checked one after another in the order of
      `Checks`, and the filter is filled as they pass. */
  method GetFilterQuery(namespace: string, q: Params) returns (r: Result<DocumentFilter, string>)
    ensures r == FilterSpec(namespace, q)
  {
    var page := GoStrings.Atoi(DefaultQuery(q, "page", "1"));
    if !page.ok {
      assert Fails(q, Checks[0]);
      return Err("invalid page number: " + Query(q, "page"));
    }
    var pageSize := GoStrings.Atoi(DefaultQuery(q, "pageSize", "10"));
    if !pageSize.ok {
      assert !Fails(q, Checks[0]) && Fails(q, Checks[1]);
      assert FirstFailure(q, 0) == FirstFailure(q, 1) == Some(1);
      return Err("invalid pagesize: " + Query(q, "page"));
    }
    var sort := GoStrings.Atoi(DefaultQuery(q, "sort", "4"));
    if !sort.ok {
      assert !Fails(q, Checks[0]) && !Fails(q, Checks[1]) && Fails(q, Checks[2]);
      assert FirstFailure(q, 0) == FirstFailure(q, 1) == FirstFailure(q, 2) == Some(2);
      return Err("invalid sort: " + Query(q, "page"));
    }
    var docQuery := DocumentFilter(namespace, Query(q, "search"), Query(q, "fuzzyName"), None,
      Query(q, "source"), None, None, None, None, None, None, page.value, pageSize.value,
      DocumentOrder(sort.value, Query(q, "desc") == "true"));

    if Query(q, "mark") != "" {
      docQuery := docQuery.(marked := Util.ToPtr(Query(q, "mark") == "true"));
    }
    if Query(q, "unRead") != "" {
      docQuery := docQuery.(unread := Util.ToPtr(Query(q, "unRead") == "true"));
    }
    assert FirstFailure(q, 0) == FirstFailure(q, 1) == FirstFailure(q, 2) == FirstFailure(q, 3);
    r := ParseTimes(q, docQuery);
  }

  /** The parent and the four timestamps, in that order, read into a filter; the reply is
      that of the first of them that fails. */
  method ParseTimes(q: Params, docQuery: DocumentFilter) returns (r: Result<DocumentFilter, string>)
    requires docQuery.parentId.None? && docQuery.createdAtStart.None? && docQuery.createdAtEnd.None?
    requires docQuery.changedAtStart.None? && docQuery.changedAtEnd.None?
    ensures FirstFailure(q, 3).Some? ==> r == Err(Checks[FirstFailure(q, 3).value].message + Query(q, "page"))
    ensures FirstFailure(q, 3).None? ==> r == Ok(docQuery.(parentId := OptionalInt(q, "parentId"),
      createdAtStart := OptionalTime(q, "createAtStart"), changedAtStart := OptionalTime(q, "updatedAtStart"),
      changedAtEnd := if OptionalTime(q, "updatedAtEnd").Some? then OptionalTime(q, "updatedAtEnd") else OptionalTime(q, "createAtEnd")))
  {
    var f := docQuery;
    var parentId := ReadOptional(q, 3);
    if parentId.Err? {
      return Err(parentId.error);
    }
    if parentId.value.Some? {
      f := f.(parentId := Util.ToPtr(parentId.value.value));
    }
    assert FirstFailure(q, 3) == FirstFailure(q, 4);
    var createAtStart := ReadOptional(q, 4);
    if createAtStart.Err? {
      return Err(createAtStart.error);
    }
    if createAtStart.value.Some? {
      f := f.(createdAtStart := Util.ToPtr(FromUnix(createAtStart.value.value)));
    }
    assert FirstFailure(q, 3) == FirstFailure(q, 5);
    var createAtEnd := ReadOptional(q, 5);
    if createAtEnd.Err? {
      return Err(createAtEnd.error);
    }
    if createAtEnd.value.Some? {
      f := f.(changedAtEnd := Util.ToPtr(FromUnix(createAtEnd.value.value)));
    }
    assert FirstFailure(q, 3) == FirstFailure(q, 6);
    var updatedAtStart := ReadOptional(q, 6);
    if updatedAtStart.Err? {
      return Err(updatedAtStart.error);
    }
    if updatedAtStart.value.Some? {
      f := f.(changedAtStart := Util.ToPtr(FromUnix(updatedAtStart.value.value)));
    }
    assert FirstFailure(q, 3) == FirstFailure(q, 7);
    var updatedAtEnd := ReadOptional(q, 7);
    if updatedAtEnd.Err? {
      return Err(updatedAtEnd.error);
    }
    if updatedAtEnd.value.Some? {
      f := f.(changedAtEnd := Util.ToPtr(FromUnix(updatedAtEnd.value.value)));
    }
    assert FirstFailure(q, 3) == FirstFailure(q, 8) == None;
    r := Ok(f);
  }

  /** One parameter without a default: nothing when it is empty, the reply quoting the
      page parameter when it is not a 64-bit integer, else its value. */
  method ReadOptional(q: Params, i: nat) returns (r: Result<Option<int>, string>)
    requires 3 <= i < |Checks|
    ensures r.Err? <==> Fails(q, Checks[i])
    ensures r.Err? ==> r.error == Checks[i].message + Query(q, "page")
    ensures r.Ok? ==> r.value == OptionalInt(q, Checks[i].key)
  {
    var c := Checks[i];
    var raw := Query(q, c.key);
    if raw == "" {
      return Ok(None);
    }
    var v := GoStrings.Atoi(raw);
    if !v.ok {
      return Err(c.message + Query(q, "page"));
    }
    r := Ok(Some(v.value));
  }

  // ---------------------------------------------------------------------------------------
  // Properties of the answer

  /** "1", "10" and "4" read as the integers they spell. */
  lemma DefaultsParse()
    ensures GoStrings.Atoi("1") == GoStrings.AtoiResult(1, true)
    ensures GoStrings.Atoi("10") == GoStrings.AtoiResult(10, true)
    ensures GoStrings.Atoi("4") == GoStrings.AtoiResult(4, true)
  {
    GoStrings.AtoiFormatInt(1);
    GoStrings.AtoiFormatInt(10);
    GoStrings.AtoiFormatInt(4);
    assert GoStrings.FormatInt(1) == "1";
    assert GoStrings.FormatInt(10) == "10";
    assert GoStrings.FormatInt(4) == "4";
  }

  /** Without page, pageSize and sort the filter asks for page 1 of 10 documents sorted by
      order 4, and only a later parameter can make the request fail. */
  lemma FilterDefaults(namespace: string, q: Params)
    requires "page" !in q && "pageSize" !in q && "sort" !in q
    ensures FirstFailure(q, 0).Some? ==> FirstFailure(q, 0).value >= 3
    ensures FilterSpec(namespace, q).Ok? ==>
      var f := FilterSpec(namespace, q).value; f.page == 1 && f.pageSize == 10 && f.order.order == 4
  {
    DefaultsParse();
    assert !Fails(q, Checks[0]) && !Fails(q, Checks[1]) && !Fails(q, Checks[2]);
  }

  /** The request fails exactly when some integer parameter that is read does not parse:
      page, pageSize and sort even when present but empty, the others only when non-empty. */
  lemma FilterRejects(namespace: string, q: Params)
    ensures FilterSpec(namespace, q).Err? <==>
      exists i :: 0 <= i < |Checks| && Checks[i].key in q && (Checks[i].default.Some? || q[Checks[i].key] != "") &&
        !GoStrings.Atoi(q[Checks[i].key]).ok
  {
    DefaultsParse();
    var r := FirstFailure(q, 0);
    if r.Some? {
      var i := r.value;
      assert Checks[i].key in q;
    } else {
      forall i | 0 <= i < |Checks| && Checks[i].key in q && (Checks[i].default.Some? || q[Checks[i].key] != "")
        ensures GoStrings.Atoi(q[Checks[i].key]).ok
      {
        assert !Fails(q, Checks[i]);
      }
    }
  }

  /** The time bounds each parameter sets: createAtStart the creation start, updatedAtStart
      the change start, createAtEnd and updatedAtEnd both the change end, where updatedAtEnd
      wins, and nothing the creation end. Marked, Unread and Desc compare with "true". */
  lemma FilterFields(namespace: string, q: Params)
    requires FilterSpec(namespace, q).Ok?
    ensures var f := FilterSpec(namespace, q).value;
      && f.createdAtEnd.None?
      && (f.createdAtStart.Some? <==> Query(q, "createAtStart") != "")
      && (f.createdAtStart.Some? ==> f.createdAtStart.value == FromUnix(GoStrings.Atoi(q["createAtStart"]).value))
      && (f.changedAtStart.Some? <==> Query(q, "updatedAtStart") != "")
      && (f.changedAtStart.Some? ==> f.changedAtStart.value == FromUnix(GoStrings.Atoi(q["updatedAtStart"]).value))
      && (f.changedAtEnd.Some? <==> Query(q, "updatedAtEnd") != "" || Query(q, "createAtEnd") != "")
      && (Query(q, "updatedAtEnd") != "" ==> f.changedAtEnd == Some(FromUnix(GoStrings.Atoi(q["updatedAtEnd"]).value)))
      && (Query(q, "updatedAtEnd") == "" && Query(q, "createAtEnd") != "" ==>
            f.changedAtEnd == Some(FromUnix(GoStrings.Atoi(q["createAtEnd"]).value)))
      && (f.marked.Some? <==> Query(q, "mark") != "") && (f.marked.Some? ==> f.marked.value == (q["mark"] == "true"))
      && (f.unread.Some? <==> Query(q, "unRead") != "") && (f.unread.Some? ==> f.unread.value == (q["unRead"] == "true"))
      && f.order.desc == (Query(q, "desc") == "true") && f.namespace == namespace
  {
  }

  /** The reply for a bad parentId quotes the page parameter, not the parentId. */
  lemma ReplyQuotesPage()
    ensures FilterSpec("ns", map["page" := "2", "parentId" := "x"]) == Err("invalid parentId: 2")
  {
    var q := map["page" := "2", "parentId" := "x"];
    GoStrings.AtoiFormatInt(2);
    assert GoStrings.FormatInt(2) == "2";
    DefaultsParse();
    assert !GoStrings.Atoi("x").ok;
    FirstFailureAt(q, 3);
    assert Query(q, "page") == "2";
    assert Checks[3].message + "2" == "invalid parentId: 2";
  }

  /** A createAtEnd bound ends up as the end of the change time. */
  lemma CreateAtEndBoundsChangeTime()
    ensures FilterSpec("ns", map["createAtEnd" := "5"]).Ok?
    ensures FilterSpec("ns", map["createAtEnd" := "5"]).value.createdAtEnd == None
    ensures FilterSpec("ns", map["createAtEnd" := "5"]).value.changedAtEnd == Some(Time(5, 0))
  {
    var q := map["createAtEnd" := "5"];
    GoStrings.AtoiFormatInt(5);
    assert GoStrings.FormatInt(5) == "5";
    DefaultsParse();
    assert forall i :: 0 <= i < |Checks| ==> !Fails(q, Checks[i]);
  }

  // ---------------------------------------------------------------------------------------
  // The evidently intended reading

  /** The filter with each end bound on its own field. */
  function FilterOfFixed(namespace: string, q: Params): DocumentFilter
  {
    FilterOf(namespace, q).(createdAtEnd := OptionalTime(q, "createAtEnd"),
      changedAtEnd := OptionalTime(q, "updatedAtEnd"))
  }

  /** getFilterQuery as intended: the reply quotes the value that failed, and createAtEnd
      bounds the creation time. */
  function FilterSpecFixed(namespace: string, q: Params): (r: Result<DocumentFilter, string>)
    ensures r.Err? <==> FilterSpec(namespace, q).Err?
  {
    match FirstFailure(q, 0)
    case Some(i) => Err(Checks[i].message + Raw(q, Checks[i]))
    case None => Ok(FilterOfFixed(namespace, q))
  }

  /** In the intended reading a reply names the failing parameter and its own text, each of
      the four bounds comes from its own parameter, and everything else agrees with the
      code as written. */
  lemma FilterSpecFixedIntended(namespace: string, q: Params)
    ensures FilterSpecFixed(namespace, q).Err? ==>
      exists i :: 0 <= i < |Checks| && Fails(q, Checks[i]) &&
        FilterSpecFixed(namespace, q).error == Checks[i].message + Raw(q, Checks[i])
    ensures FilterSpecFixed(namespace, q).Ok? ==>
      var f := FilterSpecFixed(namespace, q).value;
      && f.createdAtStart == OptionalTime(q, "createAtStart") && f.createdAtEnd == OptionalTime(q, "createAtEnd")
      && f.changedAtStart == OptionalTime(q, "updatedAtStart") && f.changedAtEnd == OptionalTime(q, "updatedAtEnd")
      && f.(createdAtEnd := None, changedAtEnd := FilterSpec(namespace, q).value.changedAtEnd) == FilterSpec(namespace, q).value
  {
  }
}
