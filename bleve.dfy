/** `pkg/docs/bleve.go`: the element index. Opening the bleve index and writing to it are
    I/O; what is modelled is the id each element is indexed under and the grouped
    elements `IndexDocByGroup` hands to the index, as a map from id to element. */
module Docs {
  import opened Models
  import opened Wrappers
  import GoStrings

  /** The id IndexDoc and IndexDocByGroup index an element under: "title-group". */
  function DocId(e: Element): (id: string)
  {
    e.metadata.title + "-" + e.metadata.group
  }

  /** The id does not tell title from group: different metadata can share an id and so
      land in one group. */
  lemma DocIdAmbiguous()
    ensures var a := Element("", Metadata("", "a-b", "c", ""));
      var b := Element("", Metadata("", "a", "b-c", ""));
      a.metadata != b.metadata && DocId(a) == DocId(b)
  {
    assert "a-b" + "-" + "c" == "a" + "-" + "b-c";
  }

  /** The groups after the elements of `docs` are taken in order: a new id starts a group
      with the element's content and metadata, and every element, the first one included,
      appends a newline and its content. */
  function GroupsOf(docs: seq<Element>): map<string, Element>
  {
    if docs == [] then map[]
    else
      var groups := GroupsOf(docs[..|docs| - 1]);
      var doc := docs[|docs| - 1];
      var id := DocId(doc);
      var group := if id in groups then groups[id] else Element(doc.content, doc.metadata);
      groups[id := group.(content := GoStrings.Join([group.content, doc.content], "\n"))]
  }

  /** The grouping loop of IndexDocByGroup; the map it returns is what gets indexed, one
      document per key. */
  method IndexDocByGroup(docs: seq<Element>) returns (groups: map<string, Element>)
    ensures groups == GroupsOf(docs)
  {
    groups := map[];
    var i := 0;
    while i < |docs|
      invariant 0 <= i <= |docs|
      invariant groups == GroupsOf(docs[..i])
      decreases |docs| - i
    {
      var doc := docs[i];
      var id := DocId(doc);
      var group: Element;
      if id in groups {
        group := groups[id];
      } else {
        group := Element(doc.content, doc.metadata);
      }
      group := group.(content := GoStrings.Join([group.content, doc.content], "\n"));
      groups := groups[id := group];
      assert docs[..i + 1][..i] == docs[..i];
      i := i + 1;
    }
    assert docs[..i] == docs;
  }

  // ---------------------------------------------------------------------------------------
  // Properties of the grouping

  /** The ids of the elements. */
  function Ids(docs: seq<Element>): (ids: set<string>)
  {
    if docs == [] then {} else Ids(docs[..|docs| - 1]) + {DocId(docs[|docs| - 1])}
  }

  /** The contents of the elements with the given id, in order. */
  function ContentsOf(docs: seq<Element>, id: string): seq<string>
  {
    if docs == [] then []
    else ContentsOf(docs[..|docs| - 1], id) + (if DocId(docs[|docs| - 1]) == id then [docs[|docs| - 1].content] else [])
  }

  /** The position of the first element with the given id, if there is one. */
  function FirstIndex(docs: seq<Element>, id: string): (r: Option<nat>)
    ensures r.Some? ==> r.value < |docs| && DocId(docs[r.value]) == id
    ensures r.Some? <==> id in Ids(docs)
  {
    if docs == [] then None
    else match FirstIndex(docs[..|docs| - 1], id)
      case Some(k) => Some(k)
      case None => if DocId(docs[|docs| - 1]) == id then Some(|docs| - 1) else None
  }

  /** The position FirstIndex finds holds the first element with the id, and an id it
      finds nothing for has no element. */
  lemma {:induction false} FirstIndexFirst(docs: seq<Element>, id: string)
    ensures FirstIndex(docs, id).Some? ==> forall j :: 0 <= j < FirstIndex(docs, id).value ==> DocId(docs[j]) != id
    ensures FirstIndex(docs, id).None? ==> forall j :: 0 <= j < |docs| ==> DocId(docs[j]) != id
  {
    if docs != [] {
      var front := docs[..|docs| - 1];
      FirstIndexFirst(front, id);
      assert forall j :: 0 <= j < |front| ==> docs[j] == front[j];
    }
  }

  /** One group per distinct id: the number of indexed documents is the number of
      distinct ids. */
  lemma {:induction false} GroupsKeys(docs: seq<Element>)
    ensures GroupsOf(docs).Keys == Ids(docs)
    ensures |GroupsOf(docs)| == |Ids(docs)|
  {
    if docs != [] {
      GroupsKeys(docs[..|docs| - 1]);
    }
  }

  /** A group's metadata is that of the first element with its id. */
  lemma {:induction false} GroupMetadata(docs: seq<Element>, id: string)
    requires id in GroupsOf(docs)
    ensures FirstIndex(docs, id).Some?
    ensures GroupsOf(docs)[id].metadata == docs[FirstIndex(docs, id).value].metadata
  {
    var front := docs[..|docs| - 1];
    if id in GroupsOf(front) {
      GroupMetadata(front, id);
      assert docs[FirstIndex(front, id).value] == front[FirstIndex(front, id).value];
    } else {
      GroupsKeys(front);
    }
  }

  /** One more element: its group gains a newline and its content (a new group starts with
      the content twice), and every other group stays. */
  lemma GroupsOfLast(docs: seq<Element>)
    requires docs != []
    ensures var front, doc := docs[..|docs| - 1], docs[|docs| - 1];
      var id := DocId(doc);
      && GroupsOf(docs).Keys == GroupsOf(front).Keys + {id}
      && (forall other :: other in GroupsOf(front) && other != id ==> GroupsOf(docs)[other] == GroupsOf(front)[other])
      && GroupsOf(docs)[id].content ==
           (if id in GroupsOf(front) then GroupsOf(front)[id].content else doc.content) + "\n" + doc.content
      && ContentsOf(docs, id) == ContentsOf(front, id) + [doc.content]
      && (forall other :: other != id ==> ContentsOf(docs, other) == ContentsOf(front, other))
  {
    var front, doc := docs[..|docs| - 1], docs[|docs| - 1];
    var id := DocId(doc);
    var groups := GroupsOf(front);
    var group := if id in groups then groups[id] else Element(doc.content, doc.metadata);
    assert [group.content, doc.content][1..] == [doc.content];
    assert GoStrings.Join([group.content, doc.content], "\n") == group.content + "\n" + doc.content;
  }

  /** A group's content is the contents of all elements with its id joined by newlines,
      after a second copy of the first content. */
  lemma {:induction false} GroupContents(docs: seq<Element>, id: string)
    requires id in GroupsOf(docs)
    ensures |ContentsOf(docs, id)| >= 1
    ensures GroupsOf(docs)[id].content == GoStrings.Join([ContentsOf(docs, id)[0]] + ContentsOf(docs, id), "\n")
  {
    var front := docs[..|docs| - 1];
    var doc := docs[|docs| - 1];
    GroupsOfLast(docs);
    if DocId(doc) != id {
      GroupContents(front, id);
    } else if id in GroupsOf(front) {
      GroupContents(front, id);
      var c := doc.content;
      var cs := ContentsOf(front, id);
      GoStrings.JoinSnoc([cs[0]] + cs, c, "\n");
      assert [cs[0]] + cs + [c] == [ContentsOf(docs, id)[0]] + ContentsOf(docs, id);
    } else {
      ContentsAbsent(front, id);
      var c := doc.content;
      assert [ContentsOf(docs, id)[0]] + ContentsOf(docs, id) == [c, c];
      assert [c, c][1..] == [c];
    }
  }

  /** No group with the id: no contents. */
  lemma {:induction false} ContentsAbsent(docs: seq<Element>, id: string)
    requires id !in GroupsOf(docs)
    ensures ContentsOf(docs, id) == []
  {
    if docs != [] {
      ContentsAbsent(docs[..|docs| - 1], id);
    }
  }
}
