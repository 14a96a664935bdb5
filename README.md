# FIH rules assistant: chunker, store and query pipeline in Dafny

This project models the core of a retrieval-augmented assistant for the
FIH hockey rulebooks and proves properties of that model. The core has four
parts:

- **The hierarchical layout chunker** (`_layout_chunking` and its helpers
  `_sort_blocks_visually` and `_get_text`). It walks the Document AI shards,
  their pages, and each page's blocks in visual reading order. Along the way
  it keeps a current rule, chapter, section, content type, a pending bare
  number and the accumulated text. It emits a labelled chunk whenever a
  chapter title, a section heading, a numbered section title, a rule header
  or a change of page content type closes the accumulation.
- **The chunk table** (`PostgresVectorDB`): batch insert with the
  full-text search text, delete by variant, the existence probe, hybrid
  search by reciprocal rank fusion (RRF) of a vector ranking and a keyword
  ranking, and plain vector search.
- **The engine** (`FIHRulesEngine`): PDF ingestion into the store, the
  jurisdiction list, and the query pipeline. The pipeline contextualizes the
  query, routes it to a variant, strips the variant tag, retrieves on two
  paths (global and local), reranks, builds the cited context, and answers.
- **`clean_text`** of the loaders.

Modules:

| module | file | what it holds |
|---|---|---|
| `Wrappers` | wrappers.dfy | `Option`, used wherever Python passes `None` |
| `Text` | text.dfy | `str.isspace`, `strip`, ASCII case, Python slicing, string order, `join` |
| `Sorting` | sorting.dfy | the stable sort of `list.sort`/`sorted`, comprehensions as `Map`/`Filter` |
| `CleanText` | clean_text.dfy | `clean_text` |
| `Geometry` | geometry.dfy | blocks, vertices, `_get_text`, `_sort_blocks_visually` |
| `Patterns` | patterns.dfy | the chunker's four regular expressions |
| `Chunker` | chunker.dfy | `_layout_chunking` |
| `Store` | store.dfy | `database.py` |
| `Engine` | engine.dfy | `rag_engine.py` |

Functions that loop in the source are `method`s with loop invariants. Each
such method is proved equal to a pure specification function (for example
`Chunker.LayoutChunking` computes `Chunker.LayoutChunks`, and
`Geometry.SortBlocksVisually` computes `Geometry.VisualOrder`). The lemmas
then state what the source promises about those functions. The table is a
class, `Store.VectorStore`, whose row sequence `InsertBatch` and
`DeleteVariant` update in place.

The collaborators are parameters of the model: the language model, the
embeddings, the ranking service, the PDF loaders and the store's scoped
operations. Postgres computes vector distance and `ts_rank`, so the store's
queries take the orders these produce as inputs. An order is a sequence of
row positions, which stand in for the `SERIAL` id.

## Model

| member | source | states |
|---|---|---|
| Chunker.LayoutChunking | loaders/document_ai_common.py:9-207 | The nested shard, page and block loops return exactly the fold `LayoutChunks`: every block stepped in visual order, then the final flush of a non-empty accumulation dated to the last page of the last shard. Every returned chunk is well formed. |
| Chunker.LayoutChunksWellFormed | loaders/document_ai_common.py:37-49 | Each chunk of a document has non-empty stripped content, source "PDF (DocAI-Layout)" and the given variant. Outside the body content type its rule and section are "N/A". |
| Chunker.ProcessShard | loaders/document_ai_common.py:27-30 | The page loop of one shard runs its pages in order. |
| Chunker.ProcessPage | loaders/document_ai_common.py:30-60 | One page is the content-type switch, then the visual sort of its blocks, then every block in that order. |
| Chunker.SwitchContentType | loaders/document_ai_common.py:35-51 | The switch at the top of a page equals `EnterPage`: a changed content type flushes the accumulation first. |
| Chunker.EnterPageStep | loaders/document_ai_common.py:35-51 | A new content type flushes under the outgoing type, dated to the previous page (page 1 for the first page). Rule, chapter, section and the pending number are kept. The same content type changes nothing. |
| Chunker.PageContentType | loaders/document_ai_common.py:32-33 | The page's "content_type" in the page configuration, or "body" when the configuration, the page or the key is missing. |
| Chunker.ProcessBlock | loaders/document_ai_common.py:60-189 | One block of the inner loop equals `StepBlock` on the block's stripped anchor text, what the four patterns say of it, and whether it lies in the content zone. |
| Chunker.PendingBlock | loaders/document_ai_common.py:64-102 | The block becomes the pending number's title exactly when a number is pending and the block is a title. Otherwise the pending number is released into the content, followed by a newline. |
| Chunker.ClassifyBlock | loaders/document_ai_common.py:104-189 | The hierarchy and rule detection equals `Classify`, with the content zone computed from the greatest vertex y. |
| Chunker.EmptyBlockSkipped | loaders/document_ai_common.py:61-62 | A block whose text strips to nothing changes no state. |
| Chunker.PendingTitleStep | loaders/document_ai_common.py:65-97 | A short title after a pending number flushes, becomes the section "<number> <title>", clears the pending number and is not content. Rule and chapter stay. |
| Chunker.PendingFallbackStep | loaders/document_ai_common.py:99-102 | Any other block after a pending number is handled as if the number had been content followed by a newline. |
| Chunker.ChapterStep | loaders/document_ai_common.py:107-127 | A chapter title flushes the accumulation, including a released pending number. It becomes the chapter and resets the rule to "General". Section and content type stay, and the title is not content. |
| Chunker.SectionHeadingStep | loaders/document_ai_common.py:129-149 | A section heading flushes, becomes the section and resets the rule to "General". The chapter stays, and the heading is not content. |
| Chunker.RuleHeaderStep | loaders/document_ai_common.py:151-180 | In the content zone a rule header sets the rule to the matched token and restarts the accumulation with the block text and a space. The old accumulation becomes a chunk only when it is longer than 20 characters; otherwise it is dropped. |
| Chunker.RuleHeaderOutsideZoneStep | loaders/document_ai_common.py:154-161 | Outside the content zone a rule header is ordinary content: the rule stays and the text is appended with a newline. |
| Chunker.NumberStep | loaders/document_ai_common.py:183-186 | A bare number is held back as the pending number and is not added to the text. A number already pending is released first. |
| Chunker.ContentStep | loaders/document_ai_common.py:188-189 | Ordinary text is appended to the accumulation with a newline and nothing else changes. |
| Chunker.RunBlocksAsLines | loaders/document_ai_common.py:60-189 | On a page whose blocks all lie in the content zone, the block loop equals the loop over the blocks' stripped texts with what the patterns say of each. |
| Chunker.RuleResetting | tests/test_chunking.py:125-155 | A rule header, a line, a chapter title, a line, a section heading and a line give three chunks: the rule's, the chapter's with the rule reset to "General", and the section's with the rule still "General", each holding the line that followed its heading. |
| Chunker.EmittedCarriesState | loaders/document_ai_common.py:38-48 | An emitted chunk holds the stripped accumulation, the outgoing content type, the chapter and the page. In the body it also holds the rule and section. |
| Chunker.RunBlocksAppends | loaders/document_ai_common.py:60-189 | Running blocks only appends chunks, at most one per block. |
| Chunker.RunPagesAppends | loaders/document_ai_common.py:30-189 | Running pages only appends chunks: a chunk once emitted is never changed or removed. |
| Geometry.GetText | loaders/document_ai_common.py:282-289 | The loop returns `AnchorText`, the concatenation of `text[start:end]` over the segments in order, with Python slice clamping. |
| Geometry.AnchorTextConcat | loaders/document_ai_common.py:285-288 | The text of two segment lists one after the other is the text of the first followed by the text of the second. |
| Geometry.AnchorTextSingle | loaders/document_ai_common.py:286-288 | A segment inside the text denotes exactly that slice. |
| Geometry.Place | loaders/document_ai_common.py:218-232 | Top, bottom and left are the least y, the greatest y and the least x of the vertices, each attained by some vertex. A block without vertices gets 0, 0, 0. |
| Geometry.SortBlocksVisually | loaders/document_ai_common.py:209-280 | The method computes `VisualOrder` and returns a permutation of its input. |
| Geometry.EmitRows | loaders/document_ai_common.py:238-278 | The grouping loop emits the greedy rows one after the other, each sorted by left, the last open row included. |
| Geometry.RowsAreGreedy | loaders/document_ai_common.py:241-273 | The rows cover the top-sorted items in order. No row is empty. Every later item of a row has its vertical centre in the first item's band, and each row's first item does not. |
| Geometry.VisualOrderByRows | loaders/document_ai_common.py:234-280 | The output is the top-sorted permutation of the placed blocks, split into greedy rows, each emitted in left order. |
| Geometry.EmittedRowSorted | loaders/document_ai_common.py:271-278 | Every emitted row is ordered by left and is a permutation of the row. |
| Geometry.VisualOrderPermutation | loaders/document_ai_common.py:209-280 | The sorter returns every block exactly as often as it was given. |
| Sorting.SortBy | loaders/document_ai_common.py:235 | The sort returns a permutation of its input. |
| Sorting.SortBySorted | loaders/document_ai_common.py:235 | Under a total preorder the sort's output is ordered. |
| Sorting.SortByStable | loaders/document_ai_common.py:271 | Elements with equal keys keep their input order, as `list.sort` does. |
| Patterns.SectionHeadingIff | loaders/document_ai_common.py:21 | A text is a section heading exactly when it starts with digits, whitespace and a letter. |
| Patterns.HeaderMatch | loaders/document_ai_common.py:163 | `group(1)` is a prefix of the text that ends in a digit not followed by another digit. |
| Patterns.HeaderMatchIff | loaders/document_ai_common.py:20 | The header pattern matches exactly the texts that start with "Rule" (any case), whitespace and a digit, or with a dotted number whose first part is 1 to 19. |
| Patterns.HeaderMatchOfRule | loaders/document_ai_common.py:20 | On a text that starts with "Rule" and whitespace, the matched token also starts with "Rule". |
| Patterns.ChapterIsNothingElse | loaders/document_ai_common.py:22 | A chapter title matches none of the other three patterns. |
| Patterns.SectionHeadingIsNothingElse | loaders/document_ai_common.py:21 | A section heading is neither a bare number nor a rule header. |
| Patterns.SectionNumberIsNotHeader | loaders/document_ai_common.py:23 | A bare number is not a rule header. |
| Patterns.RuleNumberExample | loaders/document_ai_common.py:20 | "Rule 9.12 Penalty" yields the token "Rule 9.12". |
| Patterns.RuleAboveNineteenExample | loaders/document_ai_common.py:20 | "Rule 25.3" yields "Rule 25": the dotted form needs a first part from 1 to 19. |
| Patterns.NumberAboveNineteenExample | loaders/document_ai_common.py:20 | "20.1 Play" is no header. |
| CleanText.CleanText | loaders/utils.py:8-22 | `None` and "" give "". The result has no null character, no leading or trailing whitespace, and is no longer than the input. |
| CleanText.CleanTextIsTrimmedMiddle | loaders/utils.py:13-22 | The result is exactly the stripped middle of the null-free text, with interior whitespace and newlines kept. |
| CleanText.CleanTextIdempotent | loaders/utils.py:8-22 | Cleaning twice gives the same result as cleaning once. |
| Text.RemoveChar | loaders/utils.py:13 | `replace(c, "")` leaves no `c` and keeps the count of every other character. |
| Text.StripUnique | loaders/utils.py:22 | `strip` of whitespace, a stripped middle and whitespace is that middle. |
| Text.StripIdempotent | loaders/utils.py:22 | Stripping twice gives the same result as stripping once. |
| Text.StripEmptyIff | loaders/document_ai_common.py:37 | A text strips to nothing exactly when it is all whitespace. |
| Store.SearchText | database.py:98-101 | The search text is the content, then " " and a truthy heading, then " " and a truthy section. It is absent exactly when `join` raises on a truthy value that is not a string. |
| Store.BuildRows | database.py:95-109 | The first n zipped triples become rows holding content, vector, variant, metadata and search text. Building fails exactly when some triple's search text does. |
| Store.BatchRowsShape | database.py:92-109 | A batch is as long as its shortest input list and keeps the input order. Every row has the given variant. Without metadata every row gets an empty map and its bare content as search text. |
| Store.BatchFailsIff | database.py:96-101 | A batch raises exactly when some zipped row has a truthy heading or section that is not a string. |
| Store.VectorStore.InsertBatch | database.py:87-127 | On success the table is the old table followed by the batch's rows. When building a row raises, nothing is written. |
| Store.VectorStore.DeleteVariant | database.py:129-134 | The table keeps exactly the rows of other variants, in order. |
| Store.VectorStore.Exists | database.py:136-141 | True exactly when some row of the table has the variant. |
| Store.VariantExists | database.py:136-141 | True exactly when some row has the variant. |
| Store.DeletedVariantIsGone | database.py:129-141 | After `delete_variant(v)`, `variant_exists(v)` is false. |
| Store.DeleteKeepsOtherVariants | database.py:129-134 | Deleting one variant leaves every other variant's rows exactly as they were. |
| Store.ReplaceVariant | database.py:87-134 | Deleting a variant and then inserting a batch of it leaves exactly the batch as that variant's rows. |
| Store.Candidates | database.py:149-162 | A candidate list holds at most its limit, and only rows of the variant taken from the given order. |
| Store.CandidateLists | database.py:148-162 | Each candidate list holds at most 50 rows, all of the variant, from its ranking. |
| Store.Contribution | database.py:150 | A listed row contributes a score in (0, 1/61]. An absent row contributes 0, as `COALESCE` makes it. |
| Store.ContributionAtRank | database.py:150-157 | The candidate at 1-based rank r contributes 1/(r + 60). |
| Store.RankedIsUnion | database.py:163-168 | The ranked rows are exactly the rows present in at least one candidate list, each once. |
| Store.HybridHits | database.py:163-183 | Every hit is a row of the variant, and its combined score lies in (0, 2/61]. |
| Store.HybridOrder | database.py:169-170 | Hits come in non-increasing combined score. There are k of them unless fewer rows are present. |
| Store.HybridCoversUnion | database.py:166-170 | When at most k rows are present, every present row is a hit with its combined score. |
| Store.HybridKeepsBest | database.py:163-170 | `ORDER BY combined_score DESC LIMIT :k` keeps the best rows: the hits are distinct rows present in a candidate list, each with its content and combined score, and every present row that was cut scores no higher than any hit. |
| Store.SearchBounds | database.py:185-205 | At most k results, every one of the requested variant. |
| Store.SearchInDistanceOrder | database.py:189-193 | The results follow the distance order strictly, so no row comes twice. |
| Engine.Ingest | rag_engine.py:45-106 | Ingestion is rejected exactly when the variant is not one of outdoor, indoor, hockey5s. |
| Engine.IngestPdf | rag_engine.py:45-106 | The method's outcome is the call trace and count that `Ingest` specifies. |
| Engine.IngestRejectsInvalidVariant | rag_engine.py:54-55 | An unknown variant raises before any store call, with the message "Invalid variant '<v>'. Allowed: ['outdoor', 'indoor', 'hockey5s']". |
| Engine.TagDocuments | rag_engine.py:69-83 | Every loaded document is tagged in place as `Tagged` specifies. |
| Engine.TaggedMetadata | rag_engine.py:62-83 | With a country code a document gets country=code and type="local"; without, type="official". Content and every other key are kept. |
| Engine.IngestNothingLoaded | rag_engine.py:85-87 | No loaded document: the result is 0 and the only store call is the schema check. |
| Engine.IngestCallOrder | rag_engine.py:58-106 | Otherwise the count is the number of loaded documents and the schema check comes first. The scoped delete happens exactly when `clear_existing` is set, on the same scope, and before the one insert, which is the last call. |
| Engine.IngestInsertContents | rag_engine.py:96-103 | The insert carries the variant, the documents' texts in order, and each document's tagged metadata. |
| Engine.CodeToName | rag_engine.py:119 | The reversed nations map holds exactly the codes that some nation has, each mapped to a nation with that code. |
| Engine.CodeToNameLastWins | rag_engine.py:119 | A code shared by several nations maps to the last of them. |
| Engine.ReverseNations | rag_engine.py:119 | The dict comprehension computes `CodeToName`. |
| Engine.ListJurisdictions | rag_engine.py:109-129 | The loop and the sort compute `Jurisdictions`. |
| Engine.JurisdictionsCodes | rag_engine.py:121-125 | One entry per active code: the listing's codes are a permutation of the reported codes. |
| Engine.JurisdictionsSorted | rag_engine.py:128 | The listing is in non-decreasing order of name under Python's string order. |
| Engine.JurisdictionsNamed | rag_engine.py:119-125 | Each entry is named after the last nation with its code, or "Unknown (<code>)". |
| Engine.JurisdictionsStable | rag_engine.py:128 | Entries with equal names keep the order in which the store reported them. |
| Engine.ContextualizeQuery | rag_engine.py:287-300 | An empty history returns the query unchanged; otherwise the result is the model's answer, stripped. |
| Engine.LastTurns | rag_engine.py:298 | `history[-4:]` is the last min(4, n) turns. |
| Engine.ContextualizeUsesLastFourTurns | rag_engine.py:298 | Two histories with the same last four turns give the same standalone query. |
| Engine.RouteQueryQuotedSpace | rag_engine.py:305 | As written, the answer "' indoor'" becomes " indoor". That value is not stripped, is not a variant, and falls back to outdoor. |
| Engine.RouteQueryAsWrittenNormalised | rag_engine.py:302-305 | As written, the routed label has no quote character and no upper-case ASCII letter, for every answer of the model. Being stripped is not promised: see Engine.RouteQueryQuotedSpace. |
| Engine.RouteQueryNormalised | rag_engine.py:302-305 | The corrected routed label is stripped, has no quote character and no upper-case ASCII letter. |
| Engine.RouteQueryQuotedSpaceCorrected | rag_engine.py:305 | With the corrected order, "' indoor'" routes to indoor. |
| Engine.ResolveVariant | rag_engine.py:145-147 | The variant used is always allowed: the detected one when it is allowed, otherwise "outdoor". |
| Engine.TagClose | rag_engine.py:151 | The lazy `.*?\]` stops at the first `]`, and no line break may come before it. |
| Engine.StripVariantTag | rag_engine.py:151 | The result is a suffix of the query. A query that does not start with the tag is unchanged. A removed tag leaves no leading whitespace. |
| Engine.StripVariantTagMatched | rag_engine.py:151 | A matched tag is removed through its first `]`, together with every whitespace character after it, up to the first character that is not whitespace. |
| Engine.StripVariantTagExample | rag_engine.py:151 | "[variant: indoor]\n Penalty?" becomes "Penalty?", so the tag matches in any case and the whitespace removed includes line breaks. |
| Engine.StripVariantTagUnclosed | rag_engine.py:151 | A tag with no `]` on its line is left in place. |
| Engine.RerankDocuments | rag_engine.py:247-285 | The method computes `Reranked`: the documents at the response's record ids in order, or the input when the call raised or an id is not an index. |
| Engine.RerankedFromInput | rag_engine.py:274-285 | Every output document is an input document. When every id is an index there is one document per record. A failed call returns the input. |
| Engine.RerankedPermutation | rag_engine.py:256-281 | When the response lists every record once, reranking is a permutation of the input. |
| Engine.InvalidVariantMessageText | rag_engine.py:55 | The `ValueError` message lists the allowed variants as Python renders the list. |
| Engine.CitationOrigin | rag_engine.py:193-199 | The citation header opens with "[SOURCE: LOCAL (" exactly when the document has a country, and with "[SOURCE: OFFICIAL]" exactly when it has none. |
| Engine.HeaderOpensWithOrigin | rag_engine.py:187-207 | The citation header starts with the origin tag followed by the file and page (defaults "unknown" and "?"). The rule tag comes next exactly when the document has a rule. The header ends with the chapter tag when it has a chapter or a section. Its length is exactly that of these parts, so it holds nothing else. |
| Engine.ChunkCitation | rag_engine.py:186-207 | An official chunk of the layout chunker is cited with file "unknown", its page, rule, chapter and section, in that order. |
| Engine.ContextPieces | rag_engine.py:183-209 | The loop builds one snippet per document, in order, each of them the citation header and then the content. |
| Engine.Query | rag_engine.py:131-245 | The method computes `QueryResult` with the routing normalisation as written: contextualize, route and resolve the variant, strip the tag, retrieve on both paths, rerank and cut, then answer from the joined snippets or give the no-answer response. |
| Engine.QueryVariant | rag_engine.py:145-147 | For any normalisation of the router's answer, the answer is always for an allowed variant: the routed one when it is allowed, otherwise "outdoor". |
| Engine.QueryQuotedSpace | rag_engine.py:145-147 | When the router answers "' indoor'", the program answers from the outdoor rules, and the corrected normalisation from the indoor rules. |
| Engine.DualPath | rag_engine.py:156-171 | The merged list is the global results followed by the local ones. The local search runs only for a given country, and nothing is deduplicated. |
| Engine.SelectedFromRetrieved | rag_engine.py:176-180 | At most 10 documents are selected, each one a retrieved document. When the reranker fails, they are the first retrieved ones. |
| Engine.ContextEmptyIff | rag_engine.py:211-213 | The joined context is empty exactly when no document is selected. |
| Engine.QuerySources | rag_engine.py:211-245 | The no-answer response comes exactly when nothing is selected, and then it has no sources and the fixed message. Otherwise the sources are the selected documents. |

## Left out

- The language model, the embedding model and the ranking service are parameters: `Services` holds the answers they give. `summarize_text`, `_reformat_response` and the prompt templates are not modelled; the reformatted answer is a parameter.
- The PDF loaders are parameters: `Ingest` takes the documents each loader returns. File paths and `original_filename` go only to the loaders.
- Postgres plumbing is left out: connections, credentials, schema creation and migration, and SQL execution. `ensure_schema` appears only as a recorded call.
- Vector distance and `ts_rank` are computed by Postgres, so the store's queries take the two rankings as inputs. The `tsv` column is modelled by the text `to_tsvector` is applied to.
- `delete_scoped_data`, `get_active_jurisdictions` and the `country_code` keyword that the engine passes to `search_hybrid` are not defined in the store code. The model treats them as collaborators: a recorded call, the list of active codes, and the `retrieve` service.
- Tie order in `search_hybrid`: the SQL has no tie-breaker, so Postgres may order equal combined scores arbitrarily. The model keeps table order among ties, and no contract depends on that order.
- Floating point: coordinates and RRF scores are exact `real`s.
- Regular expressions are modelled on the patterns' own character classes. `\d` is read as ASCII digits; Python also accepts other Unicode decimal digits. `\s` and `str.strip` use the `str.isspace` set. IGNORECASE is modelled as ASCII case folding. That is exact for "Rule". In "[VARIANT:" Python would also accept the dotless "ı" (U+0131) and the dotted "İ" (U+0130) for the "I", which the model does not.
- `str.lower` is modelled on ASCII letters only.
- Metadata values are the scalar JSON values: null, booleans, integers and strings. Floats, lists and objects are not modelled. Those would change `Truthy` (Python treats 0.0, [] and {} as false), the `str()` of a value in the citation header, and the `json.dumps` of the metadata column.
- Engine.RerankDocuments: the record ids are taken as integers. An id that `int` cannot parse raises inside the `try`, as an out-of-range index does, and both fall back to the input.
- `TOP_50_NATIONS` is not defined in the configuration code. The model takes it as a parameter: the nations in order, each a name and an optional code.
- Logging and the web user interface are not modelled.

## Findings

| source | as written | input that shows it | evidently intended | confidence | as-written member | corrected member |
|---|---|---|---|---|---|---|
| rag_engine.py:305 | `_route_query` strips the model's answer before it removes the quote characters, so whitespace that was inside the quotes survives | the answer "' indoor'" gives " indoor", which is not a variant, so the query is answered from the outdoor rules | a stripped, lower-case, quote-free label, so that "' indoor'" routes to indoor | low, not executed | Engine.RouteQueryQuotedSpace | Engine.RouteQueryQuotedSpaceCorrected |
