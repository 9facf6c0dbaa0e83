/** `pkg/friday/question.go`: the question text assembled from a chat history, the
    system prompt installed before a chat, and the merge of token-usage counters. */
module Question {
  import GoStrings

  /** One history entry: a map with the keys "role" and "content". */
  type Entry = map<string, string>

  /** Go's map index: the zero value "" for a missing key. */
  function Get(d: Entry, k: string): string
  {
    if k in d then d[k] else ""
  }

  predicate IsUser(d: Entry) { Get(d, "role") == "user" }

  /** The question text after the first entries: "\n" and the content for each user entry. */
  function UserQuestions(history: seq<Entry>): string
  {
    if history == [] then ""
    else
      var q := UserQuestions(history[..|history| - 1]);
      var d := history[|history| - 1];
      if IsUser(d) then q + "\n" + Get(d, "content") else q
  }

  /** The contents of the user entries, in order. */
  function UserContents(history: seq<Entry>): seq<string>
  {
    if history == [] then []
    else
      var cs := UserContents(history[..|history| - 1]);
      var d := history[|history| - 1];
      if IsUser(d) then cs + [Get(d, "content")] else cs
  }

  /** The question assembly of ChatWithDir and ChatWithDoc. */
  method Questions(history: seq<Entry>) returns (questions: string)
    ensures questions == UserQuestions(history)
  {
    questions := "";
    var i := 0;
    while i < |history|
      invariant 0 <= i <= |history|
      invariant questions == UserQuestions(history[..i])
    {
      var d := history[i];
      assert history[..i + 1][..i] == history[..i];
      if Get(d, "role") == "user" {
        questions := questions + "\n" + Get(d, "content");
      }
      i := i + 1;
    }
    assert history[..i] == history;
  }

  /** The question text is the user contents joined by newlines, after one leading
      newline, and empty when there is no user entry. */
  lemma {:induction false} QuestionsAreUserContents(history: seq<Entry>)
    ensures var cs := UserContents(history);
      UserQuestions(history) == if cs == [] then "" else "\n" + GoStrings.Join(cs, "\n")
    decreases |history|
  {
    if history != [] {
      var front := history[..|history| - 1];
      var d := history[|history| - 1];
      QuestionsAreUserContents(front);
      var cs := UserContents(front);
      if IsUser(d) && cs != [] {
        GoStrings.JoinSnoc(cs, Get(d, "content"), "\n");
      }
    }
  }

  /** The system prompt that carries the retrieved information. */
  function InfoPrompt(info: string): string
  {
    "基于以下已知信息，简洁和专业的来回答用户的问题。答案请使用中文。 \n\n已知内容: " + info
  }

  function SystemEntry(info: string): Entry
  {
    map["role" := "system", "content" := InfoPrompt(info)]
  }

  /** chatWithInfo's history rewrite: a leading system entry is dropped, and one new
      system entry with the information goes in front of the remaining entries. */
  function ChatWithInfo(history: seq<Entry>, info: string): (r: seq<Entry>)
    requires |history| > 0
    ensures |r| == |history| + (if Get(history[0], "role") == "system" then 0 else 1)
    ensures r[0] == SystemEntry(info) && Get(r[0], "role") == "system"
    ensures forall k :: 0 < k < |r| ==>
      r[k] == history[if Get(history[0], "role") == "system" then k else k - 1]
  {
    var rest := if Get(history[0], "role") == "system" then history[1..] else history;
    [SystemEntry(info)] + rest
  }

  /** Rewriting twice is rewriting once with the second information: the first system
      entry is replaced, not stacked. */
  lemma ChatWithInfoReplaces(history: seq<Entry>, a: string, b: string)
    requires |history| > 0
    ensures ChatWithInfo(ChatWithInfo(history, a), b) == ChatWithInfo(history, b)
  {
    var once := ChatWithInfo(history, a);
    assert once[1..] == (if Get(history[0], "role") == "system" then history[1..] else history);
  }

  /** mergeTokens: a fresh map holding every key of either map, with the sum of the values
      of a key present in both. The map iteration order of Go is a free choice here. */
  method MergeTokens(tokens: map<string, int>, merged: map<string, int>) returns (result: map<string, int>)
    ensures result.Keys == tokens.Keys + merged.Keys
    ensures forall k :: k in result ==>
      result[k] == (if k in tokens then tokens[k] else 0) + (if k in merged then merged[k] else 0)
  {
    result := map[];
    var rest := tokens.Keys;
    while rest != {}
      invariant rest <= tokens.Keys
      invariant result.Keys == tokens.Keys - rest
      invariant forall k :: k in result ==> result[k] == tokens[k]
      decreases rest
    {
      var k :| k in rest;
      result := result[k := tokens[k]];
      rest := rest - {k};
    }
    var rest2 := merged.Keys;
    while rest2 != {}
      invariant rest2 <= merged.Keys
      invariant result.Keys == tokens.Keys + (merged.Keys - rest2)
      invariant forall k :: k in result ==>
        result[k] == (if k in tokens then tokens[k] else 0) + (if k in merged && k !in rest2 then merged[k] else 0)
      decreases rest2
    {
      var k :| k in rest2;
      if k !in result {
        result := result[k := merged[k]];
      } else {
        result := result[k := result[k] + merged[k]];
      }
      rest2 := rest2 - {k};
    }
  }
}
