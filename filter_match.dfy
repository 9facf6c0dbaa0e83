/** The filter evaluation of the two in-memory stores (`pkg/store/meili/mock.go` and
    `pkg/store/docstore/mock.go`, whose `match` functions and filter loops are the same
    code). A record is selected when every filter was counted (the counter `all` starting
    at the number of filters reaches 0) and none failed (`matched` stays true). */
module FilterMatch {
  import opened Json
  import opened DocQuery
  import opened DocDocument

  // ---------------------------------------------------------------------------------------
  // match

  /** match[string] asserts the filter value to be a string for "=" and a []string for
      "IN"; any other value panics. */
  predicate StringTyped(q: AttrQuery)
  {
    (q.option == "=" ==> q.value.VString?) && (q.option == "IN" ==> q.value.VStrings?)
  }

  /** What match[string] answers: equality for "=", membership for "IN", false otherwise. */
  predicate MatchesString(q: AttrQuery, t: string)
    requires StringTyped(q)
  {
    (q.option == "=" && q.value.s == t) || (q.option == "IN" && t in q.value.ss)
  }

  /** match[string]: the "IN" case scans the list. */
  method MatchString(q: AttrQuery, t: string) returns (b: bool)
    requires StringTyped(q)
    ensures b == MatchesString(q, t)
  {
    if q.option == "=" && t == q.value.s {
      return true;
    }
    if q.option == "IN" {
      var value := q.value.ss;
      var i := 0;
      while i < |value|
        invariant 0 <= i <= |value|
        invariant t !in value[..i]
      {
        if t == value[i] {
          return true;
        }
        assert value[..i + 1] == value[..i] + [value[i]];
        i := i + 1;
      }
      assert value[..i] == value;
    }
    return false;
  }

  /** match[interface{}]: "IN" asserts a []interface{}, which no stored value is, so only
      "=" can be evaluated; it compares with reflect.DeepEqual. */
  predicate ValueTyped(q: AttrQuery)
  {
    q.option != "IN"
  }

  predicate MatchesValue(q: AttrQuery, v: Value)
    requires ValueTyped(q)
  {
    q.option == "=" && q.value == v
  }

  lemma MatchesStringOptions(q: AttrQuery, t: string)
    requires StringTyped(q)
    ensures q.option != "=" && q.option != "IN" ==> !MatchesString(q, t)
    ensures q.option == "=" ==> (MatchesString(q, t) <==> q.value == VString(t))
    ensures q.option == "IN" ==> (MatchesString(q, t) <==> exists k :: 0 <= k < |q.value.ss| && q.value.ss[k] == t)
  {
  }

  /** One filter's contribution: how much it takes off `all`, and whether it failed. */
  datatype Step = Step(dec: nat, ok: bool)

  // ---------------------------------------------------------------------------------------
  // Attributes by FilterAttr (and the loop of UpdateDocument in the meilisearch mock)

  /** The attribute fields are checked against a filter on namespace, entryId or kind;
      its value is checked when the filter's attribute is the attribute's key. */
  predicate AttrTyped(aqs: seq<AttrQuery>, a: DocumentAttr)
  {
    forall q | q in aqs ::
      && (q.attr == "namespace" || q.attr == "entryId" || q.attr == "kind" ==> StringTyped(q))
      && (q.attr == a.key ==> ValueTyped(q))
  }

  /** One filter of the FilterAttr loop body, with its `continue`s. */
  function AttrStep(q: AttrQuery, a: DocumentAttr): Step
    requires (q.attr == "namespace" || q.attr == "entryId" || q.attr == "kind" ==> StringTyped(q))
    requires q.attr == a.key ==> ValueTyped(q)
  {
    if q.attr == "namespace" && !MatchesString(q, a.namespace) then Step(1, false)
    else if q.attr == "entryId" && !MatchesString(q, a.entryId) then Step(1, false)
    else
      var d0 := if q.attr == "namespace" || q.attr == "entryId" then 1 else 0;
      var keyHit := a.key == q.attr;
      var d1 := d0 + (if keyHit then 1 else 0);
      var ok1 := !keyHit || MatchesValue(q, a.value);
      if q.attr == "kind" then Step(d1 + 1, ok1 && MatchesString(q, a.kind))
      else Step(d1, ok1)
  }

  /** The counter and the flag after the filters. */
  function AttrRun(aqs: seq<AttrQuery>, a: DocumentAttr): Step
    requires AttrTyped(aqs, a)
  {
    if aqs == [] then Step(0, true)
    else
      var p := AttrRun(aqs[..|aqs| - 1], a);
      var s := AttrStep(aqs[|aqs| - 1], a);
      Step(p.dec + s.dec, p.ok && s.ok)
  }

  predicate AttrSelected(aqs: seq<AttrQuery>, a: DocumentAttr)
    requires AttrTyped(aqs, a)
  {
    var r := AttrRun(aqs, a);
    r.ok && r.dec == |aqs|
  }

  /** A filter applies to an attribute when it is on namespace, entryId or kind, or on the
      attribute's key; it holds when the applicable fields match. */
  predicate AttrFilterHolds(q: AttrQuery, a: DocumentAttr)
    requires (q.attr == "namespace" || q.attr == "entryId" || q.attr == "kind" ==> StringTyped(q))
    requires q.attr == a.key ==> ValueTyped(q)
  {
    && (q.attr == "namespace" || q.attr == "entryId" || q.attr == "kind" || q.attr == a.key)
    && (q.attr == "namespace" ==> MatchesString(q, a.namespace))
    && (q.attr == "entryId" ==> MatchesString(q, a.entryId))
    && (q.attr == "kind" ==> MatchesString(q, a.kind))
    && (q.attr == a.key ==> MatchesValue(q, a.value))
  }

  /** One pass of the FilterAttr loop body over the filters. */
  method AttrMatches(aqs: seq<AttrQuery>, a: DocumentAttr) returns (selected: bool)
    requires AttrTyped(aqs, a)
    ensures selected == AttrSelected(aqs, a)
  {
    var matched := true;
    var all := |aqs|;
    var i := 0;
    while i < |aqs|
      invariant 0 <= i <= |aqs|
      invariant all == |aqs| - AttrRun(aqs[..i], a).dec
      invariant matched == AttrRun(aqs[..i], a).ok
    {
      assert aqs[..i + 1][..i] == aqs[..i];
      var q := aqs[i];
      i := i + 1;
      if q.attr == "namespace" {
        all := all - 1;
        var m := MatchString(q, a.namespace);
        if !m {
          matched := false;
          continue;
        }
      }
      if q.attr == "entryId" {
        all := all - 1;
        var m := MatchString(q, a.entryId);
        if !m {
          matched := false;
          continue;
        }
      }
      if a.key == q.attr {
        all := all - 1;
        if !MatchesValue(q, a.value) {
          matched := false;
        }
      }
      if q.attr == "kind" {
        all := all - 1;
        var m := MatchString(q, a.kind);
        if !m {
          matched := false;
          continue;
        }
      }
    }
    assert aqs[..i] == aqs;
    selected := matched && all == 0;
  }

  /** When the attribute's key is none of namespace, entryId and kind, every filter counts
      at most once, so the attribute is selected exactly when every filter applies and
      holds. */
  lemma {:induction false} AttrSelectedIff(aqs: seq<AttrQuery>, a: DocumentAttr)
    requires AttrTyped(aqs, a)
    requires a.key != "namespace" && a.key != "entryId" && a.key != "kind"
    ensures AttrSelected(aqs, a) <==> forall k :: 0 <= k < |aqs| ==> AttrFilterHolds(aqs[k], a)
  {
    AttrRunBound(aqs, a);
  }

  lemma {:induction false} AttrRunBound(aqs: seq<AttrQuery>, a: DocumentAttr)
    requires AttrTyped(aqs, a)
    requires a.key != "namespace" && a.key != "entryId" && a.key != "kind"
    ensures AttrRun(aqs, a).dec <= |aqs|
    ensures (AttrRun(aqs, a).ok && AttrRun(aqs, a).dec == |aqs|) <==> forall k :: 0 <= k < |aqs| ==> AttrFilterHolds(aqs[k], a)
    decreases |aqs|
  {
    if aqs != [] {
      var front := aqs[..|aqs| - 1];
      var q := aqs[|aqs| - 1];
      assert AttrTyped(front, a);
      AttrRunBound(front, a);
      var s := AttrStep(q, a);
      assert s.dec <= 1;
      assert s.ok && s.dec == 1 <==> AttrFilterHolds(q, a);
      assert forall k :: 0 <= k < |front| ==> aqs[k] == front[k];
    }
  }

  // ---------------------------------------------------------------------------------------
  // Documents: Search and DeleteByFilter, and the document loop of FilterDocuments

  /** The four key fields a document filter reads. */
  datatype DocKeys = DocKeys(entryId: string, namespace: string, id: string, kind: string)

  predicate IsDocAttr(s: string)
  {
    s == "entryId" || s == "namespace" || s == "id" || s == "kind"
  }

  predicate DocTyped(aqs: seq<AttrQuery>)
  {
    forall q | q in aqs :: IsDocAttr(q.attr) ==> StringTyped(q)
  }

  function DocField(d: DocKeys, attr: string): string
  {
    if attr == "entryId" then d.entryId
    else if attr == "namespace" then d.namespace
    else if attr == "id" then d.id
    else d.kind
  }

  /** One filter: counted when on one of the four fields, failing when it does not match. */
  function DocStep(q: AttrQuery, d: DocKeys): Step
    requires IsDocAttr(q.attr) ==> StringTyped(q)
  {
    if IsDocAttr(q.attr) then Step(1, MatchesString(q, DocField(d, q.attr))) else Step(0, true)
  }

  function DocRun(aqs: seq<AttrQuery>, d: DocKeys): Step
    requires DocTyped(aqs)
  {
    if aqs == [] then Step(0, true)
    else
      var p := DocRun(aqs[..|aqs| - 1], d);
      var s := DocStep(aqs[|aqs| - 1], d);
      Step(p.dec + s.dec, p.ok && s.ok)
  }

  predicate DocSelected(aqs: seq<AttrQuery>, d: DocKeys)
    requires DocTyped(aqs)
  {
    var r := DocRun(aqs, d);
    r.ok && r.dec == |aqs|
  }

  /** One pass of the document loop body over the filters. */
  method DocMatches(aqs: seq<AttrQuery>, d: DocKeys) returns (selected: bool)
    requires DocTyped(aqs)
    ensures selected == DocSelected(aqs, d)
  {
    var matched := true;
    var all := |aqs|;
    var i := 0;
    while i < |aqs|
      invariant 0 <= i <= |aqs|
      invariant all == |aqs| - DocRun(aqs[..i], d).dec
      invariant matched == DocRun(aqs[..i], d).ok
    {
      assert aqs[..i + 1][..i] == aqs[..i];
      var q := aqs[i];
      i := i + 1;
      if IsDocAttr(q.attr) {
        all := all - 1;
        var m := MatchString(q, DocField(d, q.attr));
        if !m {
          matched := false;
        }
      }
    }
    assert aqs[..i] == aqs;
    selected := matched && all == 0;
  }

  /** A document is selected exactly when every filter is on entryId, namespace, id or
      kind and matches that field; a filter on any other attribute selects nothing. */
  lemma {:induction false} DocSelectedIff(aqs: seq<AttrQuery>, d: DocKeys)
    requires DocTyped(aqs)
    ensures DocRun(aqs, d).dec <= |aqs|
    ensures DocSelected(aqs, d) <==>
      forall k :: 0 <= k < |aqs| ==> IsDocAttr(aqs[k].attr) && MatchesString(aqs[k], DocField(d, aqs[k].attr))
    decreases |aqs|
  {
    if aqs != [] {
      var front := aqs[..|aqs| - 1];
      assert DocTyped(front);
      DocSelectedIff(front, d);
      assert forall k :: 0 <= k < |front| ==> aqs[k] == front[k];
    }
  }

  // ---------------------------------------------------------------------------------------
  // Attributes by the switch of FilterDocuments in the meilisearch mock

  predicate IsAttrSwitch(s: string)
  {
    s == "entryId" || s == "namespace" || s == "key" || s == "value" || s == "kind"
  }

  predicate SwitchTyped(aqs: seq<AttrQuery>)
  {
    forall q | q in aqs ::
      (q.attr == "entryId" || q.attr == "namespace" || q.attr == "key" || q.attr == "kind" ==> StringTyped(q))
      && (q.attr == "value" ==> ValueTyped(q))
  }

  /** One case of the switch: counted when on one of the five fields. */
  function SwitchStep(q: AttrQuery, a: DocumentAttr): Step
    requires q.attr == "entryId" || q.attr == "namespace" || q.attr == "key" || q.attr == "kind" ==> StringTyped(q)
    requires q.attr == "value" ==> ValueTyped(q)
  {
    if q.attr == "entryId" then Step(1, MatchesString(q, a.entryId))
    else if q.attr == "namespace" then Step(1, MatchesString(q, a.namespace))
    else if q.attr == "key" then Step(1, MatchesString(q, a.key))
    else if q.attr == "value" then Step(1, MatchesValue(q, a.value))
    else if q.attr == "kind" then Step(1, MatchesString(q, a.kind))
    else Step(0, true)
  }

  function SwitchRun(aqs: seq<AttrQuery>, a: DocumentAttr): Step
    requires SwitchTyped(aqs)
  {
    if aqs == [] then Step(0, true)
    else
      var p := SwitchRun(aqs[..|aqs| - 1], a);
      var s := SwitchStep(aqs[|aqs| - 1], a);
      Step(p.dec + s.dec, p.ok && s.ok)
  }

  predicate SwitchSelected(aqs: seq<AttrQuery>, a: DocumentAttr)
    requires SwitchTyped(aqs)
  {
    var r := SwitchRun(aqs, a);
    r.ok && r.dec == |aqs|
  }

  /** Every filter is counted at most once, so the attribute is selected exactly when every
      filter is on one of the five fields and matches it. */
  lemma {:induction false} SwitchSelectedIff(aqs: seq<AttrQuery>, a: DocumentAttr)
    requires SwitchTyped(aqs)
    ensures SwitchRun(aqs, a).dec <= |aqs|
    ensures SwitchSelected(aqs, a) <==>
      forall k :: 0 <= k < |aqs| ==> IsAttrSwitch(aqs[k].attr) && SwitchStep(aqs[k], a).ok
    decreases |aqs|
  {
    if aqs != [] {
      var front := aqs[..|aqs| - 1];
      assert SwitchTyped(front);
      SwitchSelectedIff(front, a);
      assert forall k :: 0 <= k < |front| ==> aqs[k] == front[k];
    }
  }

  method SwitchMatches(aqs: seq<AttrQuery>, a: DocumentAttr) returns (selected: bool)
    requires SwitchTyped(aqs)
    ensures selected == SwitchSelected(aqs, a)
  {
    var matched := true;
    var all := |aqs|;
    var i := 0;
    while i < |aqs|
      invariant 0 <= i <= |aqs|
      invariant all == |aqs| - SwitchRun(aqs[..i], a).dec
      invariant matched == SwitchRun(aqs[..i], a).ok
    {
      assert aqs[..i + 1][..i] == aqs[..i];
      var q := aqs[i];
      i := i + 1;
      var m := true;
      if q.attr == "entryId" {
        all := all - 1;
        m := MatchString(q, a.entryId);
      } else if q.attr == "namespace" {
        all := all - 1;
        m := MatchString(q, a.namespace);
      } else if q.attr == "key" {
        all := all - 1;
        m := MatchString(q, a.key);
      } else if q.attr == "value" {
        all := all - 1;
        m := MatchesValue(q, a.value);
      } else if q.attr == "kind" {
        all := all - 1;
        m := MatchString(q, a.kind);
      }
      if !m {
        matched := false;
      }
    }
    assert aqs[..i] == aqs;
    selected := matched && all == 0;
  }

  // ---------------------------------------------------------------------------------------
  // Attributes by DeleteByFilter in the document store

  predicate DeleteTyped(aqs: seq<AttrQuery>, a: DocumentAttr)
  {
    forall q | q in aqs :: (q.attr == a.key ==> ValueTyped(q)) && (q.attr == "kind" ==> StringTyped(q))
  }

  /** Only filters on the attribute's key (against its value) and on kind are counted. */
  function DeleteStep(q: AttrQuery, a: DocumentAttr): Step
    requires q.attr == a.key ==> ValueTyped(q)
    requires q.attr == "kind" ==> StringTyped(q)
  {
    var keyHit := a.key == q.attr;
    var d1 := if keyHit then 1 else 0;
    var ok1 := !keyHit || MatchesValue(q, a.value);
    if q.attr == "kind" then Step(d1 + 1, ok1 && MatchesString(q, a.kind)) else Step(d1, ok1)
  }

  function DeleteRun(aqs: seq<AttrQuery>, a: DocumentAttr): Step
    requires DeleteTyped(aqs, a)
  {
    if aqs == [] then Step(0, true)
    else
      var p := DeleteRun(aqs[..|aqs| - 1], a);
      var s := DeleteStep(aqs[|aqs| - 1], a);
      Step(p.dec + s.dec, p.ok && s.ok)
  }

  predicate DeleteSelected(aqs: seq<AttrQuery>, a: DocumentAttr)
    requires DeleteTyped(aqs, a)
  {
    var r := DeleteRun(aqs, a);
    r.ok && r.dec == |aqs|
  }

  method DeleteMatches(aqs: seq<AttrQuery>, a: DocumentAttr) returns (selected: bool)
    requires DeleteTyped(aqs, a)
    ensures selected == DeleteSelected(aqs, a)
  {
    var matched := true;
    var all := |aqs|;
    var i := 0;
    while i < |aqs|
      invariant 0 <= i <= |aqs|
      invariant all == |aqs| - DeleteRun(aqs[..i], a).dec
      invariant matched == DeleteRun(aqs[..i], a).ok
    {
      assert aqs[..i + 1][..i] == aqs[..i];
      var q := aqs[i];
      i := i + 1;
      if a.key == q.attr {
        all := all - 1;
        if !MatchesValue(q, a.value) {
          matched := false;
        }
      }
      if q.attr == "kind" {
        all := all - 1;
        var m := MatchString(q, a.kind);
        if !m {
          matched := false;
          continue;
        }
      }
    }
    assert aqs[..i] == aqs;
    selected := matched && all == 0;
  }

  /** An attribute is deleted only if every filter is on its key or on kind; a filter on
      namespace or entryId (unless that is the key) keeps every attribute. */
  lemma {:induction false} DeleteSelectedOnlyKeyOrKind(aqs: seq<AttrQuery>, a: DocumentAttr)
    requires DeleteTyped(aqs, a) && a.key != "kind"
    ensures DeleteRun(aqs, a).dec <= |aqs|
    ensures DeleteSelected(aqs, a) <==> forall k :: 0 <= k < |aqs| ==>
      && (aqs[k].attr == a.key || aqs[k].attr == "kind")
      && (aqs[k].attr == a.key ==> MatchesValue(aqs[k], a.value))
      && (aqs[k].attr == "kind" ==> MatchesString(aqs[k], a.kind))
    decreases |aqs|
  {
    if aqs != [] {
      var front := aqs[..|aqs| - 1];
      assert DeleteTyped(front, a);
      DeleteSelectedOnlyKeyOrKind(front, a);
      assert forall k :: 0 <= k < |front| ==> aqs[k] == front[k];
    }
  }
}
