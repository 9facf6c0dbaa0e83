# friday: a verified model of the document pipeline's core

friday ingests documents, splits them into chunks, stores documents and their attributes,
searches them and answers questions over them with a language model. This project models the
self-contained logic underneath the network, database and model plumbing, and proves what
that logic promises. Each Dafny module follows one source file:

- `ElementScript` (`scripts/element.py`): `_element` enriches a segmenter's output with a
  heading-group counter and merged metadata; `read_files` expands a path argument over a
  directory tree given as a datatype; `get_elements` concatenates the per-file results and
  skips files whose segmentation raises `ValueError`.
- `TextSpliter` (`pkg/spliter/text.go`): `Split`, and `merge`, the sliding window that packs
  pieces into chunks of at most `chunkSize` with up to `chunkOverlap` shared between
  neighbours, proved against a fold over the pieces; `Merge` groups elements by source.
- `Util` (`pkg/utils/util.go`): `deDup`, the insertion sort on copies, and `Equal` as
  equality of string sets.
- `Question` (`pkg/friday/question.go`): the question text built from the user turns,
  `chatWithInfo` and `mergeTokens`.
- `MapReduce` (`pkg/friday/summary/map-reduce.go`): `splitDocs`, the greedy partition of
  documents under a rendered-length limit.
- `Chain` (`pkg/service/chain.go`): `GenContext`, the search snippets around regex matches,
  over the content as bytes with UTF-8 rune-start stepping.
- `MeiliModel`, `DocQuery`, `DocDocument`, `Json` (`pkg/store/meili/model.go`,
  `pkg/models/doc/query.go`, `pkg/models/doc/document.go`): record conversions, the filter lists
  built from a document filter, sort strings and filter strings with Go's JSON encoding of
  their values.
- `MeiliMock`, `DocstoreMock`, `FilterMatch` (`pkg/store/meili/mock.go`,
  `pkg/store/docstore/mock.go`): the two in-memory stores as classes whose tables are
  sequences changed in place, and their filter loops with the counter `all` and the flag
  `matched`.
- `PostgresModel`, `PgvectorModel` (`pkg/store/postgres/model.go`,
  `pkg/store/vectorstore/pgvector/model.go`): rows as classes whose `From`, `UpdateFrom` and
  `Update` assign fields, and their read-back conversions.
- `ApiRequest`, `ApiDoc` (`api/request.go`, `api/doc.go`): request validation and
  conversion, and `getFilterQuery` over the query string as a map.
- `Dispatch` (`pkg/dispatch/pool.go`): the clamp of `NewPool`.
- `SubContent`, `Header` (`pkg/dispatch/plugin/subcontent.go`, `header.go`): the excerpt
  plugin and the header-image plugin over abstract HTML parse results.
- `Docs` (`pkg/docs/bleve.go`): the index id and the grouping of `IndexDocByGroup`.
- `LlmSession`, `LlmClient`, `LlmCompatible` (`pkg/llm/client/openai/session.go`, `client.go`,
  `compatible.go`): the session history the clients append to, the request messages,
  the tool lookup and the decision to ask for another round.
- Shared: `Wrappers` (Option and Result), `GoStrings` (the parts of Go's `strings` and
  `strconv` the code relies on), `DocModel` (the `doc.Document` and `DocumentFilter` records
  and times; `pkg/models/doc/doc.go` is not part of this model), `VectorModels` and `Models`
  (the vector-store and element records).

Foreign behaviour is an input of the model: the length function of the chunker
(`files.Length`), the prompt renderer of `splitDocs`, the regex matches and highlighting of
`GenContext`, HTML parsing, `ContentTrim`, `utils.IsUrl`, uuid generation, `time.Now`, the
JSON encoding of embeddings, the XML block extraction and parsing of tool uses, the JSON
decoding of tool arguments and the MCP tool call itself. Go's map iteration order is a
nondeterministic choice, and every contract over it holds for any order.

## Model

| member | source | states |
|---|---|---|
| ElementScript.BasenameIsLastComponent | scripts/element.py:42 | the title is the last `/`-separated component of the path: a suffix with no `/`, preceded by a `/` when shorter than the path |
| ElementScript.MetadataBaseKeys | scripts/element.py:41-44 | every metadata dict has `title` and `group`; unless the upstream metadata overrides them they are the basename and the decimal group counter |
| ElementScript.MetadataUpstreamOverrides | scripts/element.py:45-46 | every upstream key ends up with its upstream value, over `title` and `group`, unless it is `category` and the element has a category |
| ElementScript.MetadataCategoryWins | scripts/element.py:47-48 | an element's own category is written last and beats a merged `category` |
| ElementScript.MetadataKeys | scripts/element.py:41-48 | the metadata keys are exactly title, group, the upstream keys and `category` when the element has one |
| ElementScript.EnrichAll | scripts/element.py:35-50 | one output per input element |
| ElementScript.EnrichAllAt | scripts/element.py:35-50 | output `i` is element `i` enriched with the number of `h2` headings among elements `0..i` (the heading carries the new number) and content `str(element)` |
| ElementScript.EnrichElements | scripts/element.py:35-50 | the loop with its running counter yields exactly that list |
| ElementScript.HeadingCountMonotone | scripts/element.py:37-40 | the group counter never decreases along the output |
| ElementScript.HeadingCountStep | scripts/element.py:39-40 | the counter rises by exactly 1 at an `h2` element and stays put otherwise |
| ElementScript.HeadingCountPrefix | scripts/element.py:37-40 | later elements do not change the group of earlier entries |
| ElementScript.JoinPath | scripts/element.py:65 | `os.path.join(root, f)` starts with `root` and is longer than it when `f` is non-empty |
| ElementScript.JoinAll | scripts/element.py:63-65 | one path per file name of a walk step |
| ElementScript.JoinAllAt | scripts/element.py:63-65 | path `k` is the root joined with name `k` |
| ElementScript.ReadFilesList | scripts/element.py:67-71 | a list argument gives one result per item |
| ElementScript.ReadFilesListAt | scripts/element.py:67-71 | result `k` of a list is the result of item `k`, nested rather than flattened |
| ElementScript.ReadFiles | scripts/element.py:53-71 | the recursive procedure with its loops returns exactly the specified result for a path or a list |
| ElementScript.WalkCollectsEveryFile | scripts/element.py:60-66 | the walk of a directory yields one path per non-directory entry anywhere under it, with no extension filter |
| ElementScript.WalkMembers | scripts/element.py:60-66 | a path is collected exactly when it is `root/name` of a non-directory entry at some depth: every file is collected and nothing else is |
| ElementScript.WalkDistinct | scripts/element.py:60-66 | when the names are non-empty, free of `/` and distinct within each directory, no path is collected twice |
| ElementScript.WalkRootsUnder | scripts/element.py:62-65 | every root the walk visits starts with the top directory |
| ElementScript.ReadFilesOnPath | scripts/element.py:54-66 | a missing path gives `[]`, a regular file `[ps]`, a directory one path per file under it, and anything else `None` (the function falls off its end) |
| ElementScript.ReadFilesOnList | scripts/element.py:67-71 | a list gives a nested result with one entry per item, in order |
| ElementScript.GetElements | scripts/element.py:16-32 | iterating a `None` result fails; otherwise the result is the fold over the items that skips `ValueError` items and stops at any other failure; a non-path item fails only when it is partitioned into at least one element |
| ElementScript.CollectErrorPersists | scripts/element.py:16-32 | once a file raises something other than `ValueError`, later files change nothing: the call fails with that error |
| ElementScript.ItemSkipped | scripts/element.py:29-42 | an item whose partitioning raises `ValueError` contributes nothing and processing continues; so does a non-path item partitioned into no elements, since `_element` never reaches `os.path.basename` |
| ElementScript.CollectConcatenates | scripts/element.py:18-29 | when every file parses the result is the concatenation of the per-file enrichments in enumeration order |
| TextSpliter.WeightFormula | pkg/spliter/text.go:100-121 | the running weight of a window is the sum of the piece lengths plus one separator length between consecutive pieces |
| TextSpliter.WeightPop | pkg/spliter/text.go:115-116 | popping the front piece lowers the weight by its length plus the separator length |
| TextSpliter.EvictEmptied | pkg/spliter/text.go:114-122 | an eviction that drops every piece leaves the running total at minus the separator length, and the append that follows (with the separator still counted) brings it to exactly the new piece's length |
| TextSpliter.EvictSuffix | pkg/spliter/text.go:114-117 | eviction keeps a suffix of the window |
| TextSpliter.EvictWeight | pkg/spliter/text.go:114-117 | after eviction the total is the weight of what is left, at most the overlap, and either the next piece fits or the total is not positive |
| TextSpliter.EvictFitsOrEmpties | pkg/spliter/text.go:114-117 | after an emitted chunk the retained window is empty or the next piece fits within the chunk size |
| TextSpliter.EvictLoop | pkg/spliter/text.go:114-117 | the eviction loop computes the eviction function |
| TextSpliter.Emitted | pkg/spliter/text.go:110-113 | at most one chunk comes out of a window, and never an empty one |
| TextSpliter.StepInv | pkg/spliter/text.go:100-121 | one piece keeps the window invariant (total is the window's weight, 0 when empty) |
| TextSpliter.FoldInv | pkg/spliter/text.go:96-122 | the invariant holds at every loop head |
| TextSpliter.TotalInvariant | pkg/spliter/text.go:100-122 | `total` equals the sum of the lengths in `current` plus the separators between them, or 0 when `current` is empty |
| TextSpliter.PackPiece | pkg/spliter/text.go:97-121 | the loop body on one piece moves the window by one step and emits the trimmed join of the old window exactly when the piece closes it |
| TextSpliter.PackSnoc | pkg/spliter/text.go:96-122 | one more piece extends the chunk list by what that step emits |
| TextSpliter.MergeSplits | pkg/spliter/text.go:91-128 | the loop computes the merge function |
| TextSpliter.SplitText | pkg/spliter/text.go:54-60 | an empty separator gives the whole text as the only piece; otherwise no chunk is empty |
| TextSpliter.NonEmpty | pkg/spliter/text.go:97-99 | the non-empty pieces are no more than the pieces |
| TextSpliter.FoldSkipsEmpty | pkg/spliter/text.go:97-99 | empty pieces do not change the window or the chunks |
| TextSpliter.MergeSkipsEmpty | pkg/spliter/text.go:97-99 | merge of the pieces equals merge of the non-empty pieces |
| TextSpliter.DocsNonEmpty | pkg/spliter/text.go:111-113 | no chunk emitted inside the loop is empty |
| TextSpliter.MergeNoEmptyChunk | pkg/spliter/text.go:111-126 | merge never emits an empty chunk |
| TextSpliter.WindowIsSuffix | pkg/spliter/text.go:114-120 | the window is always a suffix of the non-empty pieces read so far |
| TextSpliter.StepSuffix | pkg/spliter/text.go:114-120 | one step keeps the window a suffix |
| TextSpliter.LoMonotone | pkg/spliter/text.go:114-117 | the window's start position in the piece list never moves back |
| TextSpliter.RunsAreOrdered | pkg/spliter/text.go:109-117 | the runs of the chunks emitted in the loop have non-decreasing starts and strictly increasing ends, before the window |
| TextSpliter.RunsDescribeDocs | pkg/spliter/text.go:109-117 | each chunk emitted in the loop is the trimmed join of a contiguous run of the non-empty pieces |
| TextSpliter.MergeChunksAreRuns | pkg/spliter/text.go:91-132 | every chunk of merge is the trimmed separator-join of a non-empty contiguous run of non-empty pieces, and runs come in input order |
| TextSpliter.FinalRun | pkg/spliter/text.go:123-126 | the final join of the window adds one last run, at the end |
| TextSpliter.AppendRun | pkg/spliter/text.go:123-126 | appending that run keeps the runs ordered and describing the chunks |
| TextSpliter.Example | pkg/spliter/text_test.go:313-328 | with character length, size 10 and overlap 4, the example pieces give `["yeah\nhey","hey\nhello","this is a test","hello world"]` |
| TextSpliter.ExampleFirstThree | pkg/spliter/text_test.go:313-328 | after "yeah", "hey", "hello" the window is `["hey","hello"]` with total 9 and one chunk is out |
| TextSpliter.ExampleLastTwo | pkg/spliter/text_test.go:313-328 | the two long pieces each close the window |
| TextSpliter.ExampleLast | pkg/spliter/text_test.go:313-328 | the final join adds "hello world" |
| TextSpliter.Contents | pkg/spliter/text.go:75-78 | the contents of a group's elements, in order |
| TextSpliter.Numbered | pkg/spliter/text.go:80-86 | chunk `i` becomes an element with only the source name, group `i` and the chunk as content |
| TextSpliter.GroupBySource | pkg/spliter/text.go:63-71 | the map has one key per distinct element name, holding that source's elements in input order |
| TextSpliter.ContentsOf | pkg/spliter/text.go:75-78 | the loop collects exactly the contents |
| TextSpliter.NumberChunks | pkg/spliter/text.go:80-86 | the loop numbers exactly the chunks |
| TextSpliter.MergeElements | pkg/spliter/text.go:62-89 | the output is the blocks of the distinct source names in some order (map iteration), each block merge of that source's contents numbered from 0 |
| TextSpliter.BlocksOfSource | pkg/spliter/text.go:62-89 | restricted to one source name the output is exactly that source's block, whatever the order of the sources |
| TextSpliter.OfSourceAbsent | pkg/spliter/text.go:63-71 | a name is a key exactly when some element has it |
| Util.DeDup | pkg/utils/util.go:39-50 | the loop with its seen-map computes the first-occurrence deduplication |
| Util.DeDupBasics | pkg/utils/util.go:39-50 | the result has no duplicates, the same element set as the input, and is no longer |
| Util.DeDupCounts | pkg/utils/util.go:39-50 | each input string occurs exactly once in the result, and nothing else does |
| Util.DeDupFirstOccurrenceOrder | pkg/utils/util.go:39-50 | the kept strings appear in the order of their first occurrences |
| Util.LessTrichotomy | pkg/utils/util.go:34-35 | byte-wise string order is total and asymmetric |
| Util.LessTransitive | pkg/utils/util.go:34-35 | byte-wise string order is transitive |
| Util.SortedUnique | pkg/utils/util.go:34-36 | two sorted sequences with the same elements and multiplicities are equal |
| Util.SortStrings | pkg/utils/util.go:34-35 | the in-place sort leaves the array sorted and a permutation of what it held |
| Util.Insert | pkg/utils/util.go:34-35 | one insertion step extends the sorted prefix by one and permutes the array |
| Util.Swap | pkg/utils/util.go:34-35 | the swap exchanges exactly two cells |
| Util.SortedCopiesEqual | pkg/utils/util.go:32-36 | the sorted deduplicated copies are equal exactly when the inputs have the same set of strings |
| Util.Equal | pkg/utils/util.go:28-37 | false for a nil `b`; otherwise true exactly when `a` and `*b` contain the same set of distinct strings; the sorts work on fresh arrays, so the callers' slices are not reordered |
| Question.Questions | pkg/friday/question.go:34-39 | the loop builds the question string of the history |
| Question.QuestionsAreUserContents | pkg/friday/question.go:34-59 | the question string is `"\n"` followed by the `"\n"`-join of the contents of the `user` entries in order, or "" when there are none; other roles are ignored |
| Question.ChatWithInfo | pkg/friday/question.go:68-76 | a leading system entry is dropped, exactly one new system entry comes first, and the other entries follow in order |
| Question.ChatWithInfoReplaces | pkg/friday/question.go:68-76 | rewriting twice is rewriting once with the second info: the system entry installed first is replaced, not stacked |
| Question.MergeTokens | pkg/friday/question.go:159-172 | the result's keys are the union of both maps' keys; a key in both gets the sum, a key in one keeps its value; the inputs are values and are not modified |
| MapReduce.ByteLen | pkg/friday/summary/map-reduce.go:75 | Go's `len` of a string counts UTF-8 bytes, at least one per character |
| MapReduce.SplitDocs | pkg/friday/summary/map-reduce.go:47-67 | the loop with its early returns computes the partition function, error for error |
| MapReduce.SplitLoopErrorPersists | pkg/friday/summary/map-reduce.go:53-60 | once the loop has failed, later documents do not change the error |
| MapReduce.SplitLoopInv | pkg/friday/summary/map-reduce.go:51-64 | after every document the groups concatenate to the documents read, no closed group is empty, and every group of two or more documents fits the limit |
| MapReduce.StepInv | pkg/friday/summary/map-reduce.go:52-63 | one document keeps that invariant |
| MapReduce.SplitDocsConcat | pkg/friday/summary/map-reduce.go:47-67 | on success, concatenating the groups gives back the documents exactly, in order |
| MapReduce.SplitDocsGroups | pkg/friday/summary/map-reduce.go:53-66 | every group of two or more documents has measured length within the limit; only an empty input gives an empty group, and then the result is `[[]]` |
| MapReduce.SplitDocsFailsOnFirst | pkg/friday/summary/map-reduce.go:51-64 | with a renderer that never fails, the call fails exactly when the first document alone is over the limit, with the "single part" message |
| MapReduce.OversizeAlone | pkg/friday/summary/map-reduce.go:51-64 | when a group never measures less than any one of its documents, a document over the limit on its own is not the first, forms a group by itself, and shares no group with another document |
| Chain.SafeIndex | pkg/service/chain.go:190-197 | getSafeIndex only moves forward and stops at 0, at the last byte, or at the first rune-start byte at or after the index, never earlier |
| Chain.GetSafeIndex | pkg/service/chain.go:190-197 | the incrementing loop settles on that index |
| Chain.BeforeIndexBounds | pkg/service/chain.go:208-211 | the text before a match starts at most 400 bytes back and never past the match, so that slice is in range |
| Chain.Snippet | pkg/service/chain.go:208-218 | as written: the snippet is the highlighted text before the match (with `".."` in front iff beforeIndex > 0), then `"<b>"` + the matched bytes + `"</b>"`, then the highlighted text after it up to afterIndex (with `".."` behind iff afterIndex < len-1); it needs end <= afterIndex for the slice after the match |
| Chain.MatchAtEndHasNoAfterSlice | pkg/service/chain.go:209-212 | the content "ab" with a match on "b" has afterIndex 1 < end 2, so `content[end:afterIndex]` panics |
| Chain.AfterSliceInRangeIff | pkg/service/chain.go:209-212 | the slice after a match is in range exactly when the match ends before the last byte |
| Chain.SnippetClampedAgrees | pkg/service/chain.go:208-218 | the corrected snippet equals the one as written wherever that is defined, and shows nothing after a match that ends at the last byte |
| Chain.Kept | pkg/service/chain.go:199-219 | the kept matches are some of the matches, no more of them |
| Chain.KeptSpaced | pkg/service/chain.go:199-219 | a match not skipped first is the first kept one, and consecutive kept matches are at least 400 bytes apart: only kept matches update previousEnd |
| Chain.KeptAfter | pkg/service/chain.go:204-206 | a match kept after a predecessor that ended at `previousEnd > 0` starts 400 or more bytes later |
| Chain.FirstMatchKept | pkg/service/chain.go:199-206 | the first match is always kept, since previousEnd starts at -1 |
| Chain.ContextsStep | pkg/service/chain.go:200-220 | one iteration skips the match or puts its snippet first |
| Chain.ContextsOfKept | pkg/service/chain.go:200-220 | the appended snippets are those of the kept matches, exactly one each, in order |
| Chain.SnippetsCons | pkg/service/chain.go:218 | a kept match in range puts its snippet in front |
| Chain.MakeSnippet | pkg/service/chain.go:208-218 | the loop body for a kept match computes the corrected snippet |
| Chain.GenContext | pkg/service/chain.go:170-221 | an empty search leaves the document unchanged; otherwise exactly the snippets of the kept matches are appended to SearchContext and no other field changes; a kept match ending at the last byte, where Go panics, gets the corrected snippet |
| MeiliModel.AttrListFromModelShape | pkg/store/meili/model.go:179-212 | one attribute per non-nil ParentEntryID, Marked, Unread, in that order, keyed `parentId`, `mark`, `unRead`, of kind "attr" with the document's namespace and decimal entry id, holding the field's pointer |
| MeiliModel.ToModel | pkg/store/meili/model.go:96-128 | the loop over the attributes computes the fold of the switch over their keys |
| MeiliModel.ToModelLastWins | pkg/store/meili/model.go:96-126 | everything but the three optional fields comes from the record; with no attribute of a key the field stays nil; otherwise the last attribute with that key wins; other keys are ignored |
| MeiliModel.ToModelKeepsBase | pkg/store/meili/model.go:97-113 | the attributes change nothing but ParentEntryID, Marked and Unread |
| MeiliModel.ToModelParentLast | pkg/store/meili/model.go:117-120 | ParentEntryID is the decimal parse of the last `parentId` attribute's string, nil without one |
| MeiliModel.ToModelMarkLast | pkg/store/meili/model.go:121-122 | Marked is the pointer of the last `mark` attribute, nil without one |
| MeiliModel.ToModelUnreadLast | pkg/store/meili/model.go:123-124 | Unread is the pointer of the last `unRead` attribute, nil without one |
| MeiliModel.ToModelFromModel | pkg/store/meili/model.go:79-113 | ToModel after FromModel with no attributes gives back the entry id (a 64-bit integer written in decimal and parsed back), name, namespace, source, web URL, content, summary, header image and sub-content, the times at second precision, and nil optional fields |
| MeiliModel.ParentAttrRejected | pkg/store/meili/model.go:117-120 | as written: a document with a parent gets a `parentId` attribute holding an integer pointer, which the string assertion in ToModel rejects |
| MeiliModel.ToModelFixed | pkg/store/meili/model.go:96-128 | corrected: the loop reads a `parentId` attribute holding a string or an integer pointer |
| MeiliModel.ToModelFixedExtends | pkg/store/meili/model.go:96-128 | wherever ToModel as written is defined the corrected reading agrees with it |
| MeiliModel.AttrListReadable | pkg/store/meili/model.go:179-212 | every attribute FromModel writes is readable by the corrected ToModel |
| MeiliModel.RoundTrip | pkg/store/meili/model.go:79-212 | corrected: ToModel of FromModel and its attribute list gives back the document, times at second precision |
| MeiliModel.FixedConcat | pkg/store/meili/model.go:115-126 | one more attribute applies on top of the ones before |
| MeiliModel.QueryOfEntryIdSelects | pkg/store/meili/model.go:225-248 | exactly the namespace, entryId and kind=document filters, selecting exactly that document, with HitsPerPage 1, Page 1 and no search |
| MeiliModel.TimeFiltersNumeric | pkg/store/meili/model.go:293-320 | every time bound is on createdAt or updatedAt and holds Unix seconds |
| MeiliModel.QueryFromModelFilters | pkg/store/meili/model.go:267-292 | FromModel starts with kind = "document", has one filter per set field, and has the namespace, name CONTAINS and source filters exactly when those fields are set |
| MeiliModel.QueryFromModelCount | pkg/store/meili/model.go:267-320 | the number of filters is one plus the number of set fields, the first being kind = "document" |
| MeiliModel.QueryFromModelKeys | pkg/store/meili/model.go:272-292 | the namespace, name and source filters are there exactly when those fields are non-empty |
| MeiliModel.QueryFromModelTimes | pkg/store/meili/model.go:293-320 | each set time bound gives its `>=` or `<=` filter on createdAt or updatedAt with its Unix seconds |
| MeiliModel.QueryFromModelTimesOnly | pkg/store/meili/model.go:293-320 | a createdAt or updatedAt filter comes only from the matching set bound |
| MeiliModel.QueryFromModelCreatedOnly | pkg/store/meili/model.go:293-306 | a createdAt filter comes only from CreatedAtStart or CreatedAtEnd |
| MeiliModel.QueryFromModelUpdatedOnly | pkg/store/meili/model.go:307-320 | an updatedAt filter comes only from ChangedAtStart or ChangedAtEnd |
| MeiliModel.QueryFromModelPaging | pkg/store/meili/model.go:250-266 | search, HitsPerPage and Page come from the filter, offset and limit stay; the sort has at most one entry, on name or createdAt by the order, with Asc = !Desc |
| MeiliModel.AttrQueryFromModelShape | pkg/store/meili/model.go:348-380 | kind = "attr" and namespace first, then a key filter for each set optional field, in the order parentId, mark, unRead |
| MeiliModel.AttrQueryOfEntryIdSelects | pkg/store/meili/model.go:382-401 | the namespace, entryId and kind=attr filters select exactly the attributes of that entry |
| MeiliModel.AttrValueQuerySelects | pkg/store/meili/model.go:420-496 | each query of FromFilter has the four filters namespace, kind=attr, key, value and selects exactly the attributes of that namespace, key and value |
| MeiliModel.FromFilterShape | pkg/store/meili/model.go:418-499 | one query per non-nil ParentID, Marked, Unread, in that order |
| MeiliModel.QueriesString | pkg/store/meili/model.go:501-507 | the loop builds each query's text followed by one space |
| DocQuery.SortStringShape | pkg/models/doc/query.go:42-47 | the rendered sort key is the attribute followed by `:asc` exactly when ascending and by `:desc` otherwise (the same code is at pkg/models/doc/document.go:107-112 and pkg/store/meili/model.go:329-334) |
| DocQuery.SortStringInjective | pkg/models/doc/query.go:42-47 | different sort keys render differently |
| DocQuery.ToFilterStringValue | pkg/models/doc/query.go:67-70 | a filter on a string value is `attr option "…"`, whose quoted part reads back as the string (also pkg/models/doc/document.go:124-127, pkg/store/meili/model.go:515-518) |
| DocQuery.PrefixedQuote | pkg/models/doc/query.go:67-70 | the quoted value after the attribute and the operator is read back from the filter text |
| DocQuery.ToFilterDistinguishesStrings | pkg/models/doc/query.go:67-70 | filters on different string values differ |
| DocQuery.Filters | pkg/models/doc/query.go:86-89 | one filter string per attribute query |
| DocQuery.FilterTextJoin | pkg/models/doc/query.go:53-59 | the text of a list of filters is their space-join followed by one space, "" for none |
| DocQuery.AttrQueryString | pkg/models/doc/query.go:53-59 | DocumentAttrQuery.String: each filter string followed by one space, in order |
| DocQuery.QueryString | pkg/models/doc/query.go:76-82 | DocumentQuery.String: the search and the filter text in the fixed frame |
| DocQuery.BuildFilter | pkg/models/doc/query.go:86-89 | the loop renders filter `k` from attribute query `k` |
| DocQuery.ToRequest | pkg/models/doc/query.go:84-104 | one filter per attribute query and one sort string per sort, both in order; offset, limit, HitsPerPage, page and query are copied (also pkg/models/doc/document.go:129-149, pkg/store/meili/model.go:532-552) |
| DocQuery.AttrToRequest | pkg/models/doc/query.go:106-117 | one filter per attribute query in order, Limit and HitsPerPage 10000, empty query, nothing else set (also pkg/models/doc/document.go:151-162, pkg/store/meili/model.go:403-414) |
| DocDocument.Type | pkg/models/doc/document.go:64-86 | a document's tag is "document", an attribute's "attr", and the two differ |
| Json.HexValueHex | pkg/models/doc/query.go:68 | a hex digit written by the encoder reads back as its value |
| Json.UnquoteEscapeChar | pkg/models/doc/query.go:68 | the escape of one character reads back as that character, then the rest |
| Json.UnquoteEscapeBody | pkg/models/doc/query.go:68 | the escaped body of a string reads back as the string |
| Json.UnquoteQuote | pkg/models/doc/query.go:68 | `json.Marshal` of a string is a quoted literal whose body reads back as the string (section 7 of RFC 8259) |
| Json.QuoteInjective | pkg/models/doc/query.go:68 | different strings encode differently |
| Json.EscapeBodyHtmlSafe | pkg/models/doc/query.go:68 | with HTML escaping on, no encoded string body holds a raw `<`, `>`, `&` or control character |
| Json.EscapeCharSafe | pkg/models/doc/query.go:68 | the same for the escape of one character |
| FilterMatch.MatchString | pkg/store/meili/mock.go:215-228 | `match` on a string: true exactly when the option is "=" and the value equals the text, or the option is "IN" and the text is one of the listed values |
| FilterMatch.MatchesStringOptions | pkg/store/meili/mock.go:215-228 | any option other than "=" and "IN" never matches; "=" matches exactly the equal string; "IN" matches exactly when some listed value equals the text |
| FilterMatch.AttrMatches | pkg/store/meili/mock.go:50-84 | the per-attribute body of UpdateDocument's loop, with its `continue`s and the counter `all`, decides selection as the step-by-step specification `AttrSelected` does |
| FilterMatch.AttrRunBound | pkg/store/meili/mock.go:50-84 | for an attribute whose key is not namespace, entryId or kind, the counter never takes off more than one per filter, and it reaches zero with no failure exactly when every filter applies to the attribute and holds |
| FilterMatch.AttrSelectedIff | pkg/store/meili/mock.go:50-84 | an attribute is selected exactly when every filter is on namespace, entryId, kind or the attribute's key and each field it names matches |
| FilterMatch.DocMatches | pkg/store/meili/mock.go:165-195 | the document loop's switch over entryId, namespace, id and kind decides selection as `DocSelected` does |
| FilterMatch.DocSelectedIff | pkg/store/meili/mock.go:165-195 | a document is selected exactly when every filter is on one of the four document fields and matches that field; a filter on any other attribute is never counted, so it shuts the document out |
| FilterMatch.SwitchMatches | pkg/store/meili/mock.go:116-151 | the attribute switch of FilterDocuments over entryId, namespace, key, value and kind decides selection as `SwitchSelected` does |
| FilterMatch.SwitchSelectedIff | pkg/store/meili/mock.go:116-151 | an attribute is selected exactly when every filter is on one of the five switch attributes and matches that field |
| FilterMatch.DeleteMatches | pkg/store/docstore/mock.go:183-200 | the attribute loop of DeleteByFilter decides selection as `DeleteSelected` does |
| FilterMatch.DeleteSelectedOnlyKeyOrKind | pkg/store/docstore/mock.go:183-200 | for an attribute whose key is not kind, the attribute is selected exactly when every filter is on its key or on kind and the value or kind matches |
| MeiliMock.FirstIndex | pkg/store/meili/mock.go:92-97 | the position of the first record with the entry id: every record before it has another entry id, and it is the length exactly when no record has that id |
| MeiliMock.FirstIndexAppend | pkg/store/meili/mock.go:92-97 | a record appended after records that all carry other entry ids is the first one found |
| MeiliMock.FirstIndexIs | pkg/store/meili/mock.go:199-212 | the position where the search loop stops, with no match before it and a match there (or the end), is `FirstIndex` |
| MeiliMock.RemoveFirstShape | pkg/store/meili/mock.go:199-212 | removing the first record with the entry id leaves the list unchanged when none carries it, and otherwise drops exactly that one record, keeping the records before and after it in order |
| MeiliMock.AttrsOf | pkg/store/meili/mock.go:98-103 | the attributes collected for an entry all come from the table and carry the entry id |
| MeiliMock.AttrsOfConcat | pkg/store/meili/mock.go:98-103 | collecting over two tables one after the other gives the two collections one after the other |
| MeiliMock.AttrsOfMembers | pkg/store/meili/mock.go:98-103 | an attribute is collected exactly when it is in the table and carries the entry id |
| MeiliMock.AttrsOfAll | pkg/store/meili/mock.go:98-103 | a table whose attributes all carry the entry id is collected whole, in order |
| MeiliMock.AttrsOfNone | pkg/store/meili/mock.go:98-103 | a table with no attribute of the entry id gives nothing |
| MeiliMock.ReadableSplice | pkg/store/meili/mock.go:206-211 | removing one attribute keeps every stored attribute readable |
| MeiliMock.ReadableConcat | pkg/store/meili/mock.go:38-39 | appending readable attributes to a readable table keeps it readable |
| MeiliMock.GetAppended | pkg/store/meili/mock.go:90-108 | when only the appended document and attributes carry the entry id, reading it back gives that document with exactly those attributes |
| MeiliMock.GetSpecAt | pkg/store/meili/mock.go:90-108 | when the first document with the entry id is at position i, the answer is that document read back with all attributes of the entry |
| MeiliMock.CreateThenGet | pkg/store/meili/mock.go:36-108 | creating a document whose entry id is new and reading it back gives the same document, its two times cut to whole seconds as the store keeps them |
| MeiliMock.SwitchIdsMembers | pkg/store/meili/mock.go:116-155 | an entry id is collected for a query exactly when some stored attribute with that id is selected by the query |
| MeiliMock.MatchedIdsMembers | pkg/store/meili/mock.go:115-157 | an entry id is collected exactly when one of the queries collects it |
| MeiliMock.FromFilterSelects | pkg/store/meili/model.go:418-499 | an attribute is selected by one of the queries built from the filter exactly when it is an attribute record of the filter's namespace matching the parent, unread or marked field that is set |
| MeiliMock.FilterIds | pkg/store/meili/mock.go:112-157 | the ids collected for a filter are exactly the entry ids of stored attributes that match the filter |
| MeiliMock.FilterIdsSound | pkg/store/meili/mock.go:112-157 | every collected id belongs to a stored attribute matching the filter |
| MeiliMock.FilterIdsComplete | pkg/store/meili/mock.go:112-157 | every stored attribute matching the filter has its entry id collected |
| MeiliMock.SelectDocsMembers | pkg/store/meili/mock.go:164-196 | a document is in the answer exactly when it is a stored document the query selects whose content contains the search text, read back without attributes |
| MeiliMock.PlainSelected | pkg/store/meili/model.go:250-322 | with no filter besides namespace, a document passes the query exactly when it is a document record of the namespace (any namespace when none is given) |
| MeiliMock.InSelected | pkg/store/meili/mock.go:158-163 | with the entry id filter added, a document passes exactly when, also, its entry id is one of the collected ids |
| MeiliMock.FilterPlain | pkg/store/meili/mock.go:110-196 | a filter with no parent, unread or marked field answers with exactly the namespace's documents whose content contains the search text |
| MeiliMock.FilterByAttrs | pkg/store/meili/mock.go:110-196 | with a parent, unread or marked field, the answer is nil exactly when no stored attribute matches, and otherwise holds exactly the namespace's documents that have a matching attribute and contain the search text |
| MeiliMock.SelectNone | pkg/store/meili/mock.go:164-196 | a query holding a filter on an attribute the document switch does not know selects no document |
| MeiliMock.KeyUncounted | pkg/store/meili/model.go:250-322 | a fuzzy-name or source filter adds a filter the document switch does not count |
| MeiliMock.TimeUncounted | pkg/store/meili/model.go:250-322 | a time bound adds a filter the document switch does not count |
| MeiliMock.UncountedPresent | pkg/store/meili/model.go:250-322 | any filter field besides namespace and the attribute fields puts an uncounted filter into the query |
| MeiliMock.FilterUncounted | pkg/store/meili/mock.go:110-196 | such a filter answers nil or an empty list whatever is stored |
| MeiliMock.UpdateSelection | pkg/store/meili/mock.go:47-88 | an attribute with an ordinary key is selected by the query UpdateDocument builds exactly when the document has no parent, mark or unread field and the attribute is an attribute record of the document's namespace |
| MeiliMock.MockClient.constructor | pkg/store/meili/mock.go:29-32 | a new client stores no documents and no attributes |
| MeiliMock.MockClient.CreateDocument | pkg/store/meili/mock.go:36-41 | appends the document's record to the documents and its attribute list to the attributes, and keeps every attribute readable |
| MeiliMock.MockClient.UpdateTokens | pkg/store/meili/mock.go:43-45 | changes nothing |
| MeiliMock.MockClient.UpdateDocument | pkg/store/meili/mock.go:47-88 | computes the attributes the document's query selects and changes nothing stored |
| MeiliMock.MockClient.GetDocument | pkg/store/meili/mock.go:90-108 | answers nothing without a document of the entry id, otherwise the first such document read back with every attribute of the entry |
| MeiliMock.MockClient.CollectIds | pkg/store/meili/mock.go:115-157 | the nested loops collect, query by query and in table order, the entry ids of the selected attributes |
| MeiliMock.MockClient.CollectDocs | pkg/store/meili/mock.go:164-196 | the document loop collects, in order, the selected documents containing the search text |
| MeiliMock.MockClient.FilterDocuments | pkg/store/meili/mock.go:110-197 | answers nil when an attribute field is set and no attribute matches, and otherwise the selected documents, restricted to the collected entry ids when an attribute field is set |
| MeiliMock.MockClient.DeleteDocument | pkg/store/meili/mock.go:199-213 | removes the first document and the first attribute carrying the entry id and nothing else, keeping the rest in order and every attribute readable |
| DocstoreMock.IdMapRecords | pkg/store/docstore/mock.go:138-145 | in the map built from a table keyed by Id, every key is the Id of its record, every record comes from the table, and every record's Id is a key |
| DocstoreMock.ListValues | pkg/store/docstore/mock.go:206-215 | copying a map's values into a slice lists each record of the map exactly once, in an order left open |
| DocstoreMock.IdMapOf | pkg/store/docstore/mock.go:138-145 | the loop storing each record under its Id, later ones replacing earlier ones, builds `IdMap` |
| DocstoreMock.RemainingDocs | pkg/store/docstore/mock.go:142-181 | deleting every selected document from the Id map leaves exactly the map minus the Ids of the selected documents |
| DocstoreMock.RemainingAttrs | pkg/store/docstore/mock.go:183-204 | deleting every selected attribute from the Id map leaves exactly the map minus the Ids of the selected attributes |
| DocstoreMock.DeletedStep | pkg/store/docstore/mock.go:146-181 | one more document adds its Id to the deleted set exactly when the filters select it |
| DocstoreMock.DeletedAttrStep | pkg/store/docstore/mock.go:183-204 | one more attribute adds its Id to the deleted set exactly when the filters select it |
| DocstoreMock.SelectDocsMembers | pkg/store/docstore/mock.go:94-135 | the search answer holds exactly the stored documents the filters select whose content contains the search text |
| DocstoreMock.SelectAttrsMembers | pkg/store/docstore/mock.go:52-92 | the attribute answer holds exactly the stored attributes the filters select |
| DocstoreMock.DeleteByFilterRemaining | pkg/store/docstore/mock.go:137-217 | after DeleteByFilter every remaining document is an old one the filters do not select, and every old document whose Id was not deleted is still there |
| DocstoreMock.MockClient.constructor | pkg/store/docstore/mock.go:27-30 | a new client stores no documents and no attributes |
| DocstoreMock.MockClient.Store | pkg/store/docstore/mock.go:34-50 | a document is appended to the documents and an attribute to the attributes, and the other table is left alone |
| DocstoreMock.MockClient.FilterAttr | pkg/store/docstore/mock.go:52-92 | answers the selected attributes in table order |
| DocstoreMock.MockClient.Search | pkg/store/docstore/mock.go:94-135 | answers, in table order, the selected documents whose content contains the search text |
| DocstoreMock.MockClient.DeleteByFilter | pkg/store/docstore/mock.go:137-217 | the new tables list, once each, the records of the old tables keyed by Id minus those whose Id belongs to a selected record |
| PostgresModel.Index.constructor | pkg/store/postgres/model.go:58-65 | the new row holds the given identity, content and embedding text, and zero elsewhere |
| PostgresModel.Index.Update | pkg/store/postgres/model.go:45-55 | the other row's identity, content, extra data and embedding are copied, the namespace and creation time stay, and the change time becomes the given clock reading in nanoseconds |
| PostgresModel.Index.To | pkg/store/postgres/model.go:75-92 | an element is produced exactly when the stored embedding text decodes, and it carries the decoded embedding |
| PostgresModel.IndexFrom | pkg/store/postgres/model.go:57-73 | a new row is made exactly when the embedding encodes, and it holds the element's identity and content and the encoded text |
| PostgresModel.ToAfterFrom | pkg/store/postgres/model.go:57-92 | with an encoder whose output decodes back, a row made from an element reads back as that element |
| PostgresModel.ToDocAfterFrom | pkg/store/postgres/model.go:94-105 | the doc of a row made from an element carries the element's identity, group, parent and content |
| PostgresModel.Document.constructor | pkg/store/postgres/model.go:117-133 | the zero row |
| PostgresModel.Document.From | pkg/store/postgres/model.go:139-159 | both ids become the entry id, the named fields are copied, Marked and Unread are set only when given, and Keywords stays |
| PostgresModel.Document.CopyIdentity | pkg/store/postgres/model.go:140-144 | sets the ids, name, namespace and parent and keeps every other field |
| PostgresModel.Document.CopyText | pkg/store/postgres/model.go:145-149 | sets source, content, summary and the two times and keeps every other field |
| PostgresModel.Document.UpdateFrom | pkg/store/postgres/model.go:161-172 | only Unread, Marked and the parent change, each only when the update gives it |
| PostgresModel.Document.To | pkg/store/postgres/model.go:174-191 | the entry id is the OID and Marked and Unread are always present |
| PostgresModel.ToAfterFromDoc | pkg/store/postgres/model.go:139-191 | a row filled by From reads back as the document without its web URL and with the row's Marked and Unread, so exactly as the document when both were given |
| PgvectorModel.Index.From | pkg/store/vectorstore/pgvector/model.go:54-64 | the new row holds the element's identity and content, with no embedding, extra data or times |
| PgvectorModel.Index.Update | pkg/store/vectorstore/pgvector/model.go:42-52 | the other row's identity, content, extra data and embedding are copied, the creation time stays, and the change time becomes the given clock reading in nanoseconds |
| PgvectorModel.ToElementAfterFrom | pkg/store/vectorstore/pgvector/model.go:54-84 | a row made from an element reads back as the element without its embedding, so exactly as the element when that was empty |
| PgvectorModel.ToAfterFrom | pkg/store/vectorstore/pgvector/model.go:54-74 | the doc of a row made from an element carries the element's identity and content |
| PgvectorModel.ToElementAfterUpdate | pkg/store/vectorstore/pgvector/model.go:42-84 | after Update the row reads back, as element and as doc, the same as the row it copied |
| ApiRequest.RequireIds | api/request.go:30-37 | no error exactly when the entry id is nonzero and the namespace is set; a zero entry id is reported first, a missing namespace only when the entry id is given |
| ApiRequest.DocRequestValid | api/request.go:30-37 | a document request is valid exactly when its entry id is nonzero and its namespace set, and otherwise names the first missing field |
| ApiRequest.DocUpdateRequestValid | api/request.go:48-56 | an update request is valid exactly when its entry id is nonzero and its namespace set, and otherwise names the first missing field |
| ApiRequest.UpdateToModelRoundTrip | api/request.go:48-66 | the request can be read back from its document, and the document passes the document check exactly when the request passes its own |
| ApiRequest.QueryToModelRoundTrip | api/request.go:90-110 | every filter comes from a query, the query reads back from its filter up to the entry ids and web URL, and two queries give the same filter exactly when they agree outside those two fields |
| ApiDoc.FirstFailure | api/doc.go:124-201 | the first of the eight parameter checks, in the handler's order, that fails, or none when all pass |
| ApiDoc.ReadOptional | api/doc.go:159-202 | one optional numeric parameter fails exactly when it is present and not a number, the reply then carrying that check's message and the page value; otherwise it is the parsed number or absent |
| ApiDoc.ParseTimes | api/doc.go:159-204 | the handler's tail reports the first failing check among parentId and the four times, and otherwise sets the parent and the times, updatedAtEnd overriding createAtEnd as the change-time bound |
| ApiDoc.GetFilterQuery | api/doc.go:122-205 | the handler answers exactly as the specification `FilterSpec` does: the first failing check's reply, or the filter |
| ApiDoc.FilterDefaults | api/doc.go:124-139 | without page, pageSize and sort the filter is page 1 of 10, ordered by the default order 4 |
| ApiDoc.FilterRejects | api/doc.go:124-204 | the request is rejected exactly when some checked parameter is present, not empty (page, pageSize and sort count even when empty), and not a number |
| ApiDoc.FilterFields | api/doc.go:140-204 | an accepted filter sets each time bound exactly when its parameter is given, never sets createdAtEnd, takes updatedAtEnd over createAtEnd as the change-time end, reads mark and unRead as "true" or not, and keeps the namespace |
| ApiDoc.ReplyQuotesPage | api/doc.go:159-166 | a bad parentId is reported with the page value instead of its own |
| ApiDoc.CreateAtEndBoundsChangeTime | api/doc.go:177-185 | createAtEnd alone bounds the change time and leaves the creation-time end unset |
| ApiDoc.FilterSpecFixed | api/doc.go:122-205 | the corrected handler rejects exactly the requests the handler rejects |
| ApiDoc.FilterSpecFixedIntended | api/doc.go:122-205 | the corrected handler reports a failing parameter's own value, sets each time bound from its own parameter, and agrees with the handler everywhere else |
| Dispatch.NewPool | pkg/dispatch/pool.go:29-40 | the size is kept between 5 and 100: within it the given size, below it 5, above it 100, and the slot channel holds as many slots as the size |
| Dispatch.NewPoolNearest | pkg/dispatch/pool.go:29-40 | the size chosen is the allowed size nearest to the one asked for |
| Dispatch.NewPoolStable | pkg/dispatch/pool.go:29-40 | clamping twice is clamping once, and a larger request never gets a smaller pool |
| SubContent.NonEmptyTrimmed | pkg/dispatch/plugin/subcontent.go:52-61 | keeps at most as many texts as it is given |
| SubContent.NonEmptyTrimmedConcat | pkg/dispatch/plugin/subcontent.go:52-61 | the kept texts of two lists one after the other are the kept texts of each |
| SubContent.SpacedPrefix | pkg/dispatch/plugin/subcontent.go:72-81 | taking the first n texts commutes with turning newlines into spaces |
| SubContent.StopAfter | pkg/dispatch/plugin/subcontent.go:52-61 | stopping the walk once n texts are kept gives exactly the first n kept texts of the whole list |
| SubContent.NonEmptyTrimmedMembers | pkg/dispatch/plugin/subcontent.go:52-61 | every kept text is non-empty, already trimmed, and the trimmed form of some input text |
| SubContent.TrimSpaceIdempotent | pkg/dispatch/plugin/subcontent.go:53 | trimming a trimmed text changes nothing |
| SubContent.TrimDocumentContent | pkg/dispatch/plugin/subcontent.go:86-93 | the result is a prefix of the trimmed text of at most m runes: all of it when it fits, exactly m runes otherwise |
| SubContent.Fallback | pkg/dispatch/plugin/subcontent.go:48-62 | the fallback loop answers the first three non-empty trimmed lines of the trimmed content, joined with spaces |
| SubContent.SlowPath | pkg/dispatch/plugin/subcontent.go:65-84 | the paragraph walk answers the first eleven non-empty trimmed paragraph texts with newlines as spaces, joined with spaces and cut to 400 runes |
| SubContent.GenerateContentSubContent | pkg/dispatch/plugin/subcontent.go:43-63 | the slow path's excerpt when the content parses, else the fallback's |
| SubContent.Run | pkg/dispatch/plugin/subcontent.go:36-39 | only the document's sub content changes, to the excerpt of its content |
| SubContent.JoinNoNewline | pkg/dispatch/plugin/subcontent.go:62 | joining newline-free texts with spaces gives a newline-free text |
| SubContent.TrimSpaceNoNewline | pkg/dispatch/plugin/subcontent.go:53 | trimming keeps a text free of newlines |
| SubContent.NonEmptyTrimmedNoNewline | pkg/dispatch/plugin/subcontent.go:52-61 | texts without newlines stay without newlines when kept |
| SubContent.SplitLinesNoNewline | pkg/dispatch/plugin/subcontent.go:49 | no line of a text split at newlines contains a newline |
| SubContent.FallbackShape | pkg/dispatch/plugin/subcontent.go:48-62 | the fallback excerpt is one line, made of at most the first three kept lines |
| SubContent.SlowPathShape | pkg/dispatch/plugin/subcontent.go:65-84 | the slow-path excerpt has at most 400 runes and the joined paragraphs it is cut from are one line |
| Header.SourceFrom | pkg/dispatch/plugin/header.go:49-68 | an address found comes from one of the priority attributes at or after the starting one, is present there, and is a URL |
| Header.ImageCallback | pkg/dispatch/plugin/header.go:44-70 | the per-image callback stops the walk exactly when the image offers an address, and reports that address |
| Header.Run | pkg/dispatch/plugin/header.go:37-73 | a content that does not parse is an error and leaves the document alone; otherwise only the header image changes, to the first image's address or "" |
| Header.SourceFromFirst | pkg/dispatch/plugin/header.go:49-68 | an image offers the value of the first priority attribute that is present and holds a URL |
| Header.SourceFromNone | pkg/dispatch/plugin/header.go:49-69 | with no priority attribute present and holding a URL the image offers nothing |
| Header.SourcePriority | pkg/dispatch/plugin/header.go:49-68 | a qualifying attribute means the image offers an address; src wins whenever it qualifies, and in general the first qualifying attribute wins |
| Header.FirstAtOrBefore | pkg/dispatch/plugin/header.go:49-68 | some attribute at or before a qualifying one is the first qualifying one |
| Header.HeaderFromFirstImage | pkg/dispatch/plugin/header.go:44-71 | the header image is the address of the first image offering one; later images are not looked at |
| Header.HeaderNone | pkg/dispatch/plugin/header.go:44-71 | when no image offers an address the header image is empty |
| Docs.DocIdAmbiguous | pkg/docs/bleve.go:70 | two elements with different metadata can share an index id, since title and group may contain the dash |
| Docs.IndexDocByGroup | pkg/docs/bleve.go:80-92 | the grouping loop builds the map `GroupsOf` |
| Docs.FirstIndex | pkg/docs/bleve.go:81-89 | the first element with the id, present exactly when some element has it |
| Docs.FirstIndexFirst | pkg/docs/bleve.go:81-89 | no element before the first one with the id has it |
| Docs.GroupsKeys | pkg/docs/bleve.go:80-92 | the groups are keyed by exactly the ids of the elements, one group per id |
| Docs.GroupMetadata | pkg/docs/bleve.go:83-89 | every group keeps the metadata of the first element with its id |
| Docs.GroupsOfLast | pkg/docs/bleve.go:81-92 | one more element adds its id, joins its content to its own group (started from its own content when new) and leaves every other group alone |
| Docs.GroupContents | pkg/docs/bleve.go:83-90 | a group's content is its elements' contents joined with newlines, the first one written twice |
| Docs.ContentsAbsent | pkg/docs/bleve.go:80-92 | an id without a group belongs to no element |
| LlmSession.Session.constructor | pkg/llm/client/openai/session.go:10-14 | a new session holds the prompt and the tools and an empty history |
| LlmSession.Collect | pkg/llm/client/openai/client.go:121-145 | the request has at most one message per history entry |
| LlmSession.CollectConcat | pkg/llm/client/openai/client.go:121-145 | the request of a longer history extends the request of its prefix by the request of the added entries |
| LlmSession.CollectAllKept | pkg/llm/client/openai/client.go:121-145 | the request has one message per entry exactly when no entry is dropped |
| LlmSession.FirstTool | pkg/llm/client/openai/client.go:89-93 | the position of the first tool with the name, with no earlier tool of that name, or none when no tool has it |
| LlmSession.ToolCall | pkg/llm/client/openai/client.go:87-108 | the loop over the tools answers exactly as `ToolCallSpec`: not found, cannot decode the arguments, the call failed, or the first matching tool's content, always under the given id |
| LlmSession.ToolCallOutcomes | pkg/llm/client/openai/compatible.go:116-136 | the answer is a tool result under the given id, says "not found" when no tool has the name, and does not depend on the tool's behaviour when the arguments do not decode |
| LlmClient.Chat | pkg/llm/client/openai/client.go:19-24 | Chat appends the user's message to the history and changes nothing else |
| LlmClient.Classify | pkg/llm/client/openai/client.go:123-143 | an entry is dropped exactly when its system, user and assistant text and its call id are all empty; a system text wins; a tool result goes as a tool message with its content and id |
| LlmClient.ChatCompletionNewParams | pkg/llm/client/openai/client.go:110-164 | the request built is `RequestOf` the session's history and tools |
| LlmClient.Messages | pkg/llm/client/openai/client.go:121-145 | the message loop builds the classified history |
| LlmClient.FunctionTools | pkg/llm/client/openai/client.go:147-162 | the tool loop builds the function tools of `RequestOf` |
| LlmClient.ChatRequest | pkg/llm/client/openai/client.go:19-145 | a non-empty user message adds one user message to the request and an empty one adds nothing; a tool result with an id adds one tool message |
| LlmClient.ReadStream | pkg/llm/client/openai/client.go:52-71 | the stream loop collects the text, the streamed pieces and the tool answers as `OutcomeOf` does |
| LlmClient.AnswerAll | pkg/llm/client/openai/client.go:66-69 | the inner loop answers every tool call piece of a chunk |
| LlmClient.HandleStream | pkg/llm/client/openai/client.go:46-85 | the history gains the assistant's text when there is any and then the tool answers; a next request is made exactly when there are tool answers, and it is built from the new history |
| LlmClient.OutcomeParts | pkg/llm/client/openai/client.go:52-71 | there is one tool answer per tool call piece, under one of the pieces' ids; only non-empty text is streamed; the text is the content pieces concatenated in stream order |
| LlmClient.NoPiecesNoRound | pkg/llm/client/openai/client.go:79-84 | a stream without tool call pieces ends the conversation round |
| LlmClient.PieceCountZero | pkg/llm/client/openai/client.go:65-69 | chunks without tool calls hold no pieces |
| LlmCompatible.CompatibleSystem | pkg/llm/client/openai/compatible.go:212-243 | a session with history is left alone; an empty history gets exactly the one system message built from the prompt and the tools |
| LlmCompatible.SystemTextPrefix | pkg/llm/client/openai/compatible.go:216-221 | the system text starts with the system prompt, then the user instructions heading and the prompt when the prompt is set |
| LlmCompatible.SystemTextSuffix | pkg/llm/client/openai/compatible.go:223-241 | the system text ends with the "Now Begin!" line, the tool-use prompt, tool definitions and rules come before it when there are tools, and without tools it is the system prompt, the instructions and that line |
| LlmCompatible.Chart | pkg/llm/client/openai/compatible.go:24-30 | Chart adds the system message when the history is empty and then the user's message |
| LlmCompatible.Classify | pkg/llm/client/openai/compatible.go:149-175 | an entry is dropped exactly when its system, user and assistant text and its call id are all empty; a system text wins; a tool result goes as a user message of two parts, the second its content |
| LlmCompatible.ChatCompletionNewParams | pkg/llm/client/openai/compatible.go:138-178 | the request messages are the classified history |
| LlmCompatible.ChartRequest | pkg/llm/client/openai/compatible.go:24-175 | a non-empty user message adds one user message to the request and an empty one adds nothing |
| LlmCompatible.TryToolCall | pkg/llm/client/openai/compatible.go:98-114 | the loop over the tool-use blocks answers as `TryToolCallSpec` does |
| LlmCompatible.TryToolCallCount | pkg/llm/client/openai/compatible.go:98-114 | one answer per block plus one error answer per block that does not parse, each under "unknown" or a block's tool name |
| LlmCompatible.Failed | pkg/llm/client/openai/compatible.go:104-108 | no more failures than blocks |
| LlmCompatible.ReadStream | pkg/llm/client/openai/compatible.go:58-72 | the text is all pieces together and only non-empty pieces are streamed |
| LlmCompatible.ToolMessages | pkg/llm/client/openai/compatible.go:80-88 | a newline is streamed when the text does not end with one, and the tool answers are those of the text so terminated |
| LlmCompatible.HandleStream | pkg/llm/client/openai/compatible.go:52-96 | the history gains the assistant's text when there is any and then the tool answers; a next request is made exactly when there are tool answers, from the new history; the streamed pieces end with the added newline when one was needed |
| LlmCompatible.NoToolUseNoRound | pkg/llm/client/openai/compatible.go:85-88 | a text that does not mention tool_use gives no tool answers |
| LlmCompatible.NewlineAddsNoToolUse | pkg/llm/client/openai/compatible.go:80-85 | adding the newline never makes a text mention tool_use |
| DocModel.FromUnix | api/doc.go:175 | the time of a Unix second count reads back as that count, with no nanoseconds |
| GoStrings.Split | pkg/dispatch/plugin/subcontent.go:49 | splitting always gives at least one piece |
| GoStrings.JoinSplit | pkg/dispatch/plugin/subcontent.go:49 | joining the pieces of a split with the separator gives back the text |
| GoStrings.SplitPiecesFree | pkg/dispatch/plugin/subcontent.go:49 | no piece of a split contains the separator |
| GoStrings.JoinCons | pkg/dispatch/plugin/subcontent.go:62 | joining a head before a non-empty list puts one separator between the head and the rest |
| GoStrings.JoinSnoc | pkg/dispatch/plugin/subcontent.go:62 | joining a non-empty list with one more part puts one separator before the part |
| GoStrings.TrimLeftDropsSpaces | pkg/dispatch/plugin/subcontent.go:53 | trimming the left drops exactly the leading white space |
| GoStrings.TrimRightDropsSpaces | pkg/dispatch/plugin/subcontent.go:53 | trimming the right drops exactly the trailing white space |
| GoStrings.TrimSpaceIsInfix | pkg/dispatch/plugin/subcontent.go:53 | the trimmed text is the stretch of the text between leading and trailing white space, and neither starts nor ends with white space |
| GoStrings.TrimSpaceEmptyIff | pkg/dispatch/plugin/subcontent.go:54 | the trimmed text is empty exactly when the text is all white space |
| GoStrings.NewlinesToSpaces | pkg/dispatch/plugin/subcontent.go:78 | every newline becomes a space and every other character stays |
| GoStrings.NatDigits | pkg/store/meili/model.go:83 | the decimal digits of a number are at least one digit |
| GoStrings.DigitsValueOfNatDigits | pkg/store/meili/model.go:83 | the digits of a number read back as the number |
| GoStrings.Atoi | api/doc.go:124 | a failed parse yields 0 or a 64-bit bound, a successful one a value within 64 bits |
| GoStrings.AtoiFormatInt | pkg/store/meili/model.go:83 | a 64-bit number printed in decimal parses back as that number |
| GoStrings.FormatIntInjective | pkg/store/meili/mock.go:93 | two 64-bit numbers with the same decimal text are equal, so an entry id is found by its text |

## Left out

- I/O is not modelled: files, the bleve index, meilisearch, postgres, pgvector, the HTTP endpoints, the language model services and MCP clients. `write_elements` and `main` of `scripts/element.py` are only JSON output and wiring; the `print` calls of `read_files` and `get_elements` produce no value and are dropped.
- Concurrency is not modelled: `Pool.Run`, the `Response` channel, `replyLoop` and the goroutine `Chat` and `Chart` start. The model stops at the history update and at the request that `replyLoop` would send next, and `stream.Err()` is treated as nil.
- Floating point: embeddings are opaque bit patterns (`VectorModels.Float32Bits`), and their JSON text is a pair of encode and decode functions. The model settings of the chat requests (temperature, penalties, top-p, n) are not modelled.
- Foreign libraries are abstract inputs (listed above). The header-image plugin takes the `<img>` attribute maps in document order. The excerpt plugin takes the `<p>` texts, or `None` when the content does not parse.
- The expectation in pkg/dispatch/plugin/header_test.go:34-41 that a relative image address is resolved is not something `Run` does. The model follows the code, so such an address is never found unless `isUrl` accepts it.
- `Session.AddMcpServer` lists tools over MCP and is I/O. The session's tools are given.
- `LlmClient.ReadStream` follows the code in calling a tool once per streamed tool-call piece. It does not assemble the pieces of one call's arguments into a whole, because the code does not either.
- Go map iteration order is a nondeterministic choice. This covers `Merge`'s grouping, `DeleteByFilter`'s rebuild of the tables, and the order in which `IndexDocByGroup` indexes its groups. The contracts state order-free facts only.
- 64-bit arithmetic: integers are unbounded. `strconv.Atoi` is modelled with its clamping and its syntax rules. `UnixNano` of a time is `seconds * 10^9 + nanos`, and its overflow is not modelled.
- `PostgresModel.Document.To` has no web URL field, because the row has none. `PostgresModel.ToAfterFromDoc` states the read-back without it.
- Receiver methods that fill a fresh value are functions on values. These are `Document.FromModel`, `DocumentAttrList.FromModel`, `DocumentQuery.FromModel`, `OfEntryId`, `DocumentAttrQuery.FromModel` and `DocumentAttrQueries.FromFilter`. The receiver's previous contents matter only for the paging fields of `DocumentQuery.FromModel`, which are a parameter.
- MeiliMock.MockClient.UpdateDocument: the selected attributes are returned so that the contract can state them. The source computes them and discards them.
- Chain.GenContext: requires the matches to be well formed: sorted, non-overlapping, within the content and starting on a rune. That is what the regular expression guarantees, and it is not modelled.
- Chain.GenContext: models the corrected handler. Where a kept match ends at the last byte of the content, Go panics on `content[end:afterIndex]` at pkg/service/chain.go:212, and the model appends the clamped snippet instead (`Chain.SnippetClamped`, see the first row of Findings).
- TextSpliter.MergeSplits: requires `chunkOverlap + len(separator) >= 0`. With a more negative overlap the eviction loop of text.go:114 runs on an empty window and `current[1:]` panics.
- FilterMatch.MatchString: requires the query value to have the type `match` asserts: a string for "=" and a string list for "IN". Any other value makes the assertion panic. The other filter loops carry the same typing requirement.
- FilterMatch.AttrSelectedIff: stated only for attributes whose key is not namespace, entryId or kind. For such an attribute one filter would be counted twice, and the code's outcome is then given by `AttrRun` alone.
- MeiliMock.MockClient.GetDocument, MeiliMock.GetSpecAt, MeiliMock.GetAppended, MeiliMock.CreateThenGet: these answer with the corrected reading `ToModelFixed` where the source panics. The client's `Valid()` requires every stored attribute to be readable by that reading, so a document with a parent reads back here, while `attr.Value.(string)` at pkg/store/meili/model.go:118 panics on it (see Findings).

## Findings

| source | as written | input that shows it | evidently intended | confidence | as-written member | corrected member |
|---|---|---|---|---|---|---|
| pkg/service/chain.go:209-212 | the text after a match is `content[end:afterIndex]`, but `afterIndex` is at most `len-1`, so it can fall below `end` | content "ab" with a match on "b" (bytes 1 to 2): `afterIndex` is 1 and `end` is 2, so the slice panics | the slice is empty when the match reaches the end of the content | high, not executed | Chain.MatchAtEndHasNoAfterSlice | Chain.SnippetClampedAgrees |
| pkg/store/meili/model.go:118 | `DocumentAttrList.FromModel` stores the parent id as an `*int64` (model.go:188), but `ToModel` asserts the value is a string | a document with a parent entry id, created and then read back through `GetDocument` | `ToModel` reads the parent id back as the integer that was stored | high, not executed | MeiliModel.ParentAttrRejected | MeiliModel.RoundTrip |
| api/doc.go:163 | every rejection message quotes the `page` parameter instead of the parameter that failed | `page=2&parentId=x` is answered "invalid parentId: 2" | the message quotes the failing parameter's own value | high, not executed | ApiDoc.ReplyQuotesPage | ApiDoc.FilterSpecFixedIntended |
| api/doc.go:184 | `createAtEnd` sets `ChangedAtEnd`, and `CreatedAtEnd` is never set | `createAtEnd=5` gives no creation-time end and a change-time end of 5 | `createAtEnd` sets `CreatedAtEnd` | medium, not executed | ApiDoc.CreateAtEndBoundsChangeTime | ApiDoc.FilterSpecFixedIntended |
