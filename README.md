# cv-research-copilot core, modelled in Dafny

cv-research-copilot reads a research paper (PDF), answers questions about it and extracts a
structured record of its methods, datasets and metrics. This project models the deterministic
core of that pipeline and proves properties about it:

1. **Segmentation** (`parsing.dfy`, module `Parsing`): pages of lines of spans become text
   blocks. Each block is a heading or a paragraph, chosen by the heading heuristic. It carries
   the last three headings of its page as its section path. After every text block come the
   table blocks, one per table grid, as tab-separated rows.
2. **Chunk assembly** (`chunking.dfy`, module `Chunking`): a left-to-right fold over the blocks
   with an open accumulator and a flush step, written as a builder class. Table blocks become
   chunks of their own. Text lines are grouped while their summed length plus one stays within
   `max_chars`. A declarative grouping reference definition is proved equal to the fold.
3. **Index build and search** (`embed.dfy`, module `Embed`): one embedding per chunk text plus
   the metadata record `{doc_id, n, chunks}`. Search keeps only the raw nearest-neighbour hits
   whose index is in range, each with its raw rank.
4. **Retrieval and context packing** (`retrieve.dfy`, module `Retrieve`): a pool of 50 hits,
   optionally rescored by the cross-encoder, stably sorted in descending order and cut to `k`.
   The hits are then packed into the citation-tagged context string.
5. **Tolerant JSON decoding and the extract route** (`extract.dfy`, module `Extract`). The
   decoder strips code fences, then tries three stages: the whole text, the widest `{...}`
   span, and each balanced-brace candidate. The route turns retrieval, generation and decoding
   into its 404, 401 and 502 answers or a validated record.
6. **Record validation** (`schemas.dfy`, module `Schemas`): the field types, the `page >= 1`
   constraint and the list defaults of `Metric` and `PaperJSON`.
7. **LLM client helpers** (`llm.dfy`, module `Llm`): the Ollama model-name normalisation, the
   OpenAI model id, the installed-model tag match, and which backend `generate` calls.

`text.dfy` (module `Text`) holds the string helpers these share. They model Python's
`str.strip`, `str.join`, `str.split`, `str.find`, `str.rfind` and `str(int)`. `wrappers.dfy`
holds `Option` and `Result`.

Everything outside the core is a parameter:

- a text parser `Parser` stands for `json.loads`;
- `Knn` stands for the FAISS search;
- `encode` stands for the sentence encoder;
- `Scorer` stands for the cross-encoder;
- `ids: nat -> string` gives block k the id `ids(k)`, in place of `uuid4`;
- `generate` stands for the LLM call.

Scores are `real` values: totally ordered, with no NaN.

Three properties of the code shape what is proved:

- The decoded JSON goes straight into `PaperJSON.model_validate`
  (app/routes/extract.py:105), with no repair of its fields in between. A string `"12"` page
  or a `"28.7%"` value is therefore not repaired, and one bad metric entry fails the whole
  record (`Schemas.OneBadMetricFailsAll`). No field gets a default other than the list
  defaults.
- The size check of chunk assembly sums the line lengths without the newline separators
  (app/core/chunking.py:53). A multi-line chunk therefore satisfies
  `sum of line lengths <= max_chars - 1`, not `len(text) <= max_chars`.
  `Chunking.TextMayExceedMaxChars` exhibits a chunk whose text is longer than `max_chars`.
- Search results come in the order of the raw hit list (app/core/embed.py:35-38); they are
  not re-sorted by similarity.

## Model

| member | source | states |
|---|---|---|
| Chunking.ChunkIdInjective | app/core/chunking.py:24 | two chunk ids `"{doc_id}:{i}"` of the same document are equal only when their positions are equal |
| Chunking.SortedPages | app/core/chunking.py:28 | `sorted(list(pages))`: the set's elements, each once, in strictly increasing order |
| Chunking.SortPages | app/core/chunking.py:28 | the selection loop returns exactly the sorted page list of the set |
| Chunking.ChunkBuilder.constructor | app/core/chunking.py:17-18 | no chunks emitted and an empty open accumulator |
| Chunking.ChunkBuilder.Flush | app/core/chunking.py:20-33 | the new state is the flush of the old: nothing when no line is open, else one chunk with the next id, sorted pages, joined lines and the block ids, and an empty accumulator |
| Chunking.ChunkBuilder.Push | app/core/chunking.py:36-57 | the new state is one loop iteration on the old: blank blocks skipped, tables flushed and emitted alone, text appended after a flush when it would not fit |
| Chunking.ChunkBlocks | app/core/chunking.py:16-58 | the returned chunks are the fold of the loop over all blocks followed by the final flush |
| Chunking.RenderStep | app/core/chunking.py:35-57 | one loop iteration on the accumulator agrees with one step of the grouping reference definition |
| Chunking.FoldIsGrouping | app/core/chunking.py:35-57 | the accumulator after any prefix of blocks is the rendering of the grouping of that prefix's items |
| Chunking.ChunksAreGroups | app/core/chunking.py:16-58 | the i-th chunk is the chunk of the i-th group: id `"{doc_id}:i"`, sorted distinct pages, lines joined by newlines, ids in order |
| Chunking.GroupFoldInv | app/core/chunking.py:35-57 | the grouping state holds exactly the non-blank items read so far, in order; closed groups are valid and greedy; the open group is a run of text items that still fits |
| Chunking.GroupsSpec | app/core/chunking.py:35-58 | the groups partition the non-blank items in order; each is one table item or a run of text items with summed length <= max_chars - 1 when two or more; a text run is closed only when the next text item would not have fit |
| Chunking.BlankItemsIgnored | app/core/chunking.py:37-39 | blocks whose stripped text is empty change nothing: the grouping depends only on the non-blank items |
| Chunking.GroupChunkShape | app/core/chunking.py:22-30 | a valid group gives a chunk with non-empty text, at least one page in increasing order, one block id per line, and text within max_chars plus separators |
| Chunking.OversizeAlone | app/core/chunking.py:53-57 | a line whose length alone reaches max_chars forms a group of its own |
| Chunking.LoneItemGroup | app/core/chunking.py:40-57 | a table item, or an item at least max_chars long, is the only member of its group |
| Chunking.ChunkOfLoneItem | app/core/chunking.py:40-52 | such a block becomes a chunk with the next id, pages `[its page]`, its stripped text and block ids `[its id]` |
| Chunking.ChunkBlockIdsCover | app/core/chunking.py:35-58 | the block ids of all chunks, concatenated in order, are exactly the ids of the non-blank blocks in input order |
| Chunking.ChunkShapes | app/core/chunking.py:22-30 | every chunk has id `"{doc_id}:i"` at position i, non-empty text, increasing pages, at least one block id, and bounded text when it has two or more lines |
| Chunking.TextMayExceedMaxChars | app/core/chunking.py:53 | three one-character lines with max_chars 4 form one chunk whose five-character text exceeds max_chars |
| Parsing.NumberedPrefix | app/core/parsing.py:26 | starting with one of "1." to "9." is the same as a digit 1-9 followed by '.' |
| Parsing.IsHeading | app/core/parsing.py:21-29 | a heading is a line of 1 to 80 characters after stripping that is upper case or starts with "1." to "9.", and nothing else is |
| Parsing.HeadingExampleNumbered | app/core/parsing.py:26 | "1. Intro" is a heading |
| Parsing.HeadingExampleUpper | app/core/parsing.py:26 | "RESULTS" is a heading |
| Parsing.HeadingExampleMixedCase | app/core/parsing.py:26 | "Results" is not a heading |
| Parsing.NotHeadingWhenBlankOrLong | app/core/parsing.py:23-26 | a blank line or one longer than 80 characters after stripping is never a heading |
| Parsing.LineText | app/core/parsing.py:48-51 | a line's text has no leading or trailing whitespace |
| Parsing.LastN | app/core/parsing.py:68 | `s[-3:]`: the last min(3, len) entries of the stack |
| Parsing.LastNPush | app/core/parsing.py:67-68 | truncating after every push keeps the same last three headings as truncating once at the end |
| Parsing.PushStack | app/core/parsing.py:64-68 | emitting a block pushes its text onto the stack of the page's last three headings exactly when it is a heading |
| Parsing.FirstAbort | app/core/parsing.py:94-96 | the page at which the table pass aborts is the first aborted page, or the page count |
| Parsing.ParsePdfToBlocks | app/core/parsing.py:37-96 | the returned blocks are the text pass over all pages followed by the table pass |
| Parsing.AppendPageText | app/core/parsing.py:41-68 | one page's text blocks, with the section stack reset at the page start |
| Parsing.AppendLines | app/core/parsing.py:47-68 | the line loop of one text block: blank lines skipped, headings pushed and truncated to three |
| Parsing.AppendTables | app/core/parsing.py:71-96 | the table loop, page by page, stops at an aborted pass and adds nothing for a failed page |
| Parsing.LineStepInv | app/core/parsing.py:52-68 | one line keeps the page invariant: well-formed blocks, and a stack equal to the last three headings of the page |
| Parsing.LinesFoldInv | app/core/parsing.py:47-68 | the line loop keeps the page invariant |
| Parsing.BlocksFoldInv | app/core/parsing.py:46-68 | the block loop of a page keeps the page invariant |
| Parsing.TextPassWellFormed | app/core/parsing.py:40-68 | every text block has id ids(k), a 1-based page within range in ascending order, non-empty stripped text, a kind given by the heading test, no bbox, and as section path the last three headings before it on its page |
| Parsing.TextPassPlaces | app/core/parsing.py:41-64 | the text blocks are exactly the document's non-blank lines in reading order, each with its text and the 1-based index of the page it was read from |
| Parsing.TablesFoldAppends | app/core/parsing.py:79-93 | the tables of a page are appended one block each, of kind table, with empty section path and no bbox; nothing before them changes |
| Parsing.TablePagesAppends | app/core/parsing.py:73-93 | the table pages only append well-formed table blocks, in ascending page order |
| Parsing.TablesFoldPlaces | app/core/parsing.py:79-93 | the tables of page p are appended in order, each as a block on page p whose text is that table's TSV rendering |
| Parsing.TablePagesPlaces | app/core/parsing.py:73-93 | the table pass appends, page by page in order, one block per table carrying its page index and its TSV text |
| Parsing.TableTextRoundTrip | app/core/parsing.py:81-82 | splitting a table's text at newlines and tabs gives back its rows and cells, None as "", when the cells hold neither |
| Parsing.ExtractFailedIsNoTables | app/core/parsing.py:75-78 | a page whose table extraction fails has the same effect as a page with no tables |
| Parsing.AbortIgnoresRest | app/core/parsing.py:94-96 | when the table pass fails, the blocks emitted before the failure are kept and nothing after it matters |
| Parsing.FirstAbortPrefix | app/core/parsing.py:94-96 | the abort point is the first failure of the pass |
| Parsing.ParsePlaces | app/core/parsing.py:40-96 | the document's blocks are its non-blank lines on their pages, then the TSV text of each table on its page for the pages before the table pass failed |
| Parsing.ParseWellFormed | app/core/parsing.py:37-96 | all blocks have ids ids(k) and the document id; the text blocks come first and are well formed; after them come only table blocks on pages before the abort, in ascending page order |
| Embed.Embeddings | app/core/embed.py:18-19 | one vector per chunk, the encoding of that chunk's text, in chunk order |
| Embed.Assemble | app/core/embed.py:34-39 | the search loop never returns more results than raw hits |
| Embed.AssembleSpec | app/core/embed.py:34-38 | every result comes from an in-range raw hit: its raw position as rank, its score, chunk i; ranks strictly increase |
| Embed.AssembleComplete | app/core/embed.py:35-38 | no in-range hit is dropped |
| Embed.AssembleAllInRange | app/core/embed.py:34-38 | with all indices in range, the results are the raw hits one for one, rank q at position q |
| Embed.PaddingDropped | app/core/embed.py:36 | a padding hit with index -1 never reaches the results |
| Embed.IndexStore.constructor | app/core/embed.py:8-11 | an index store with no document built |
| Embed.IndexStore.Build | app/core/embed.py:17-26 | with at least one chunk the document's entry is replaced by the chunk embeddings and the metadata `{doc_id, n = len(chunks), chunks}`; with none, build fails at the embedding width and nothing changes; every other document is unchanged |
| Embed.IndexStore.Search | app/core/embed.py:28-39 | nothing for a document never built; otherwise the in-range hits of the nearest-neighbour result with their raw ranks |
| Retrieve.SortDesc | app/core/retrieve.py:24-26 | the sort keeps the number of items |
| Retrieve.InsertPerm | app/core/retrieve.py:24-26 | inserting adds exactly the item, as a multiset |
| Retrieve.InsertSorted | app/core/retrieve.py:24-26 | inserting keeps a descending sequence descending |
| Retrieve.InsertStable | app/core/retrieve.py:24-26 | inserting keeps the items of each key in order and places the new item after those with its key |
| Retrieve.SortDescSpec | app/core/retrieve.py:24-26 | the sorted pool is a permutation of the pool in descending key order |
| Retrieve.SortStable | app/core/retrieve.py:24-26 | items with equal keys keep their input order |
| Retrieve.SameFiltersSame | app/core/retrieve.py:24-26 | two descending sequences that agree on the items of every key are equal |
| Retrieve.StableSortUnique | app/core/retrieve.py:24-26 | any descending, stable rearrangement of the pool is the sort result, so the model is Python's stable `sort(reverse=True)` |
| Retrieve.Take | app/core/retrieve.py:27 | `prelim[:k]`: a prefix of min(k, len) items, or all but the last -k items when k is negative |
| Retrieve.Keyed | app/core/retrieve.py:19-23 | each pool item keeps its rank, score and chunk and gets as rerank key the cross-encoder score of (question, its text) |
| Retrieve.RankedSpec | app/core/retrieve.py:19-26 | the ranked pool is a permutation of the annotated pool, descending by rerank or by score, with equal keys in search order |
| Retrieve.SortedPrefix | app/core/retrieve.py:27 | a prefix of the sorted pool is sorted, a sub-multiset, and outranks every item left out |
| Retrieve.RetrieveSpec | app/core/retrieve.py:15-27 | for k >= 0 the answer is the first min(k, pool size) ranked items: part of a permutation of the pool, sorted, with nothing left out outranking anything kept |
| Retrieve.EmptyPoolEmptyAnswer | app/core/retrieve.py:16-18 | an empty pool gives an empty answer, whatever k is |
| Retrieve.LargerKExtends | app/core/retrieve.py:16-27 | the pool is fetched with 50 whatever k is, so a larger k only extends the answer |
| Retrieve.Retriever.constructor | app/core/retrieve.py:4-13 | the reranker is present exactly when the cross-encoder import succeeded and a non-empty model name is given, and it is that model |
| Retrieve.Retriever.Retrieve | app/core/retrieve.py:15-27 | the search with pool size 50, the rerank annotation, the sort by the active key and the cut to k |
| Retrieve.Entries | app/core/retrieve.py:31-35 | one packed entry per chunk |
| Retrieve.PackEmpty | app/core/retrieve.py:36 | no chunks give the empty context |
| Retrieve.PackAppend | app/core/retrieve.py:31-36 | a further chunk appends a blank line and its entry; the first entry stands alone |
| Retrieve.Pack | app/core/retrieve.py:29-36 | the append loop builds the entries in order and joins them with blank lines |
| Retrieve.PagesTextNoNewline | app/core/retrieve.py:34 | the printed page list holds no newline |
| Retrieve.EntryReadBack | app/core/retrieve.py:34-35 | an entry reads back as its tag line, a newline, and the chunk's stripped text |
| Retrieve.PagesInStoredOrder | app/core/retrieve.py:33-34 | pages are printed in stored order, not re-sorted |
| Retrieve.MissingKeys | app/core/retrieve.py:33-35 | missing keys print as `None`, an empty page list and an empty body |
| Extract.DropLeadingFence | app/routes/extract.py:16 | removes at most a prefix, and leaves text without a leading fence alone |
| Extract.DropTrailingFence | app/routes/extract.py:17 | removes at most a suffix, and leaves text without a trailing fence alone |
| Extract.StripCodeFences | app/routes/extract.py:13-18 | the result is stripped and no longer than the input |
| Extract.LeadingFenceDropped | app/routes/extract.py:16 | an opening fence, an optional `json` tag in any case and the newline after it are removed |
| Extract.LeadingFenceKeepsTag | app/routes/extract.py:16 | any other tag stays; only the fence is removed |
| Extract.TrailingFenceDropped | app/routes/extract.py:17 | the closing fence and the newline before it are removed |
| Extract.FencedRoundTrip | app/routes/extract.py:13-18 | a stripped body fenced with ``` or ```json and newlines comes back unchanged |
| Extract.UpperCaseTag | app/routes/extract.py:16 | the tag `JSON` is removed like `json` |
| Extract.OtherTagRoundTrip | app/routes/extract.py:13-18 | a fenced stripped body that does not open with a json tag comes back whole, its tag included |
| Extract.OtherTagKept | app/routes/extract.py:16 | a `python` tag stays in the text |
| Extract.UnfencedOnlyStripped | app/routes/extract.py:13-18 | text with no fence at either end is only stripped |
| Extract.StepOk | app/routes/extract.py:26-35 | one character keeps the scanner invariant: depth is the open brace count since the start, and every yielded span is balanced, disjoint and in order |
| Extract.ScanInv | app/routes/extract.py:24-35 | the scanner invariant holds after every prefix |
| Extract.CandidatesSpec | app/routes/extract.py:20-35 | each candidate is the text from a `{` to the `}` that first brings the count back to zero; candidates are disjoint and in order of appearance |
| Extract.CandidateShape | app/routes/extract.py:24-35 | each candidate starts with `{`, ends with `}`, has as many of each, and stays open on every proper prefix |
| Extract.NoCloseNoCandidate | app/routes/extract.py:31-35 | characters other than `}` never yield a candidate, so an unclosed trailing `{` yields nothing |
| Extract.NoCloseNoCandidates | app/routes/extract.py:31-35 | text without `}` has no candidate |
| Extract.BracesInStringsCounted | app/routes/extract.py:26-35 | braces inside JSON strings count too: `{"}"}` yields `{"}` |
| Extract.BalancedCandidates | app/routes/extract.py:20-35 | the scan loop over depth and start yields exactly the candidates |
| Extract.WidestSpan | app/routes/extract.py:53-55 | stage 2 applies exactly when some `{` precedes some `}`, and then spans the first `{` to the last `}` |
| Extract.WidestBracesShape | app/routes/extract.py:53-56 | the stage 2 text starts with `{` and ends with `}` |
| Extract.FirstParse | app/routes/extract.py:62-67 | the first text that parses wins, and nothing is found only when none parses |
| Extract.StagesAreFirstAttempt | app/routes/extract.py:45-70 | the three stages return the first parse among the stripped text, the widest braces and the candidates, else the error |
| Extract.DecodeIsFirstAttempt | app/routes/extract.py:42-70 | blank text fails with "empty response" before any parse; otherwise the first attempt that parses is returned |
| Extract.StagesSound | app/routes/extract.py:45-67 | a decoded value is what the parser gave for one attempt, every earlier attempt having failed |
| Extract.StagesFailIffNothingParses | app/routes/extract.py:62-70 | the decoder fails exactly when no attempt parses |
| Extract.LaterAttemptsAreBraced | app/routes/extract.py:52-67 | stages 2 and 3 only parse texts from `{` to `}`; stage 1 may parse anything |
| Extract.ParseJsonSafely | app/routes/extract.py:37-70 | the blank check followed by the three stages |
| Extract.RunStages | app/routes/extract.py:45-70 | the direct parse, then the widest braces, then each candidate in turn, returning the first success |
| Extract.Snippet | app/routes/extract.py:102 | the first 400 characters of the reply, or all of it when shorter |
| Extract.NotFoundIffNoChunks | app/routes/extract.py:79-81 | the route answers 404 exactly when retrieval finds no chunks |
| Extract.ReplyOutcomeSpec | app/routes/extract.py:98-105 | 502 exactly when the reply does not decode, with the first 400 characters in the detail; a record exactly when the decoded value validates |
| Extract.ExtractRoute | app/routes/extract.py:72-106 | retrieval with the fixed query, packing, generation with 401 mapped, decoding with 502 on failure, then validation |
| Schemas.ValidateMetric | app/schemas.py:18-22 | a metric is accepted exactly when it is an object with string dataset and metric, a numeric value and an integer page >= 1 |
| Schemas.AllOf | app/schemas.py:26-30 | a list is accepted exactly when every element is, and each element becomes its validated value |
| Schemas.ListField | app/schemas.py:26-30 | a list field passes exactly when it is absent or a list of valid items; its value is `[]` when absent, else the items validated one for one; otherwise the error names the field |
| Schemas.Validate | app/schemas.py:24-30 | a record is accepted exactly when it is an object with a string title and each of the five list fields passes; the accepted record has that title and, for each list field, `[]` when absent or its items validated one for one; every metric's page is at least 1 |
| Schemas.TitleOnlyGetsDefaults | app/schemas.py:24-30 | a record with only a title gets empty lists for every other field |
| Schemas.TitleRequired | app/schemas.py:25 | without a string title the record is refused |
| Schemas.OneBadMetricFailsAll | app/schemas.py:29 | one invalid metric entry fails the whole record |
| Schemas.AnyObjectsAccepted | app/schemas.py:27-30 | methods, datasets and ablations keep any list of objects as it is |
| Schemas.PageBelowOneInvalid | app/schemas.py:22 | a metric whose page is below 1 is refused |
| Llm.NormalizeOllamaName | app/core/llm.py:9-14 | the empty name gives "llama3.1"; a name with the "ollama/" prefix loses it; any other name is unchanged |
| Llm.NormalizeDropsPrefix | app/core/llm.py:12-14 | prefixing "ollama/" is undone by the normalisation |
| Llm.NormalizeNotIdempotent | app/core/llm.py:12-14 | only one prefix is removed: "ollama/ollama/x" becomes "ollama/x", and "x" only on a second pass |
| Llm.AfterFirst | app/core/llm.py:34 | `split(sep, 1)[-1]`: what follows the first separator, or the whole string without one |
| Llm.BeforeFirst | app/core/llm.py:80 | `split(sep, 1)[0]`: the longest prefix without the separator |
| Llm.OpenAiModelIdStripsProvider | app/core/llm.py:34 | "provider/model" gives "model", keeping everything after the first "/" |
| Llm.OpenAiModelIdPlain | app/core/llm.py:34 | a name without "/" is used as it is; a missing or empty name gives "gpt-4o-mini" |
| Llm.InstalledIgnoresTag | app/core/llm.py:80-81 | the tag after ":" is ignored: any tag of an installed base name counts as installed |
| Llm.ModelKeyFallback | app/core/llm.py:80 | an entry with only a "model" key is matched by that key |
| Llm.Generate | app/core/llm.py:23-34 | Ollama exactly when use_local; OpenAI needs a non-empty key; the JSON flag and the messages are passed through |
| Llm.OllamaDefaultModel | app/core/llm.py:50 | without a local model name "llama3.1" is requested |
| Llm.OllamaPromptReadBack | app/core/llm.py:53 | the Ollama prompt opens with the system header and text and ends with the user header and text |

## Left out

- PDF access through PyMuPDF and pdfplumber is not modelled. The page, line, span and table
  structure is the input instead. A table pass that fails as a whole appears as a
  `PassAborted` marker at the page where it fails; a failed `extract_tables` on one page appears
  as `ExtractFailed`.
- `uuid4` is replaced by the supplied id sequence `ids`.
- Bounding boxes are always absent, as in the code. `figure_caption` is declared but never
  produced.
- File persistence is not modelled: the JSONL writes (app/core/parsing.py:98-102,
  app/core/chunking.py:60-75) and the FAISS index and metadata files (app/core/embed.py:20-31).
  The index store is a map from document id to what `build` would write. A document never built
  gives `None`, which the route reports as `Unhandled`, standing for the exception from the
  missing file.
- Inside the encoder, FAISS and the cross-encoder, nothing is modelled. They are the function
  parameters `encode`, `Knn` and `Scorer`. Floats are `real`, so NaN scores are out of scope.
- `json.loads` is the uninterpreted parameter `Parser`. Pydantic's lax-mode coercions (such as
  `"12"` to 12 or `3.0` to 3 for an integer field) are not modelled: validation follows the
  declared field types strictly. Extra keys are ignored, as by default.
- The LLM HTTP calls, the Ollama retry and backoff loop and the model-pull polling loop
  (app/core/llm.py:45-97) are not modelled. `Llm.Generate` gives the request that would be sent.
  The route's `generate` parameter stands for the whole call on the packed context. The prompt
  templates (app/core/prompts.py) are not part of this model.
- Python's `str.strip` and `str.isupper` are modelled on ASCII. Whitespace is the ten ASCII
  whitespace characters: space, tab, line feed, carriage return, vertical tab, form feed and
  U+001C to U+001F. Non-ASCII whitespace such as U+00A0 or U+2028 is not stripped here, and
  only A-Z and a-z are cased. The regular expressions of `_strip_code_fences` are modelled as the
  removal of a prefix and a suffix of the stripped text. The `$` of the trailing pattern also
  matching before a final newline never applies, because the text is stripped first.
- An empty build is modelled as failing before it writes anything, because the encoder's
  result for no texts has no second dimension (app/core/embed.py:19-20). That result shape
  comes from the sentence-transformers library, and the ingest route that reports the
  failure is not part of this model.
- The FastAPI request and response types, the ask and ingest routes, the UI and configuration
  loading are not modelled. The request's `doc_id`, `TOP_K` and `HAVE_XENC` are parameters.
- Retrieve.SortDesc: its own contract states only the length; the permutation, order and
  stability are stated by `Retrieve.SortDescSpec`, `Retrieve.SortStable` and
  `Retrieve.StableSortUnique`.
- Embed.Assemble: its own contract states only the bound on the count; what each result is
  comes from `Embed.AssembleSpec`, `Embed.AssembleComplete` and `Embed.PaddingDropped`.
