# Knowledge-gap learning loop, modelled in Dafny

This project models the self-learning loop of a property-management support
backend (a FastAPI service). The loop works like this:

- Resolved Tier 3 tickets whose best knowledge-base match scores below a threshold become
  *knowledge gaps*.
- Each new gap becomes a Pending *learning event* that proposes a fresh `KB-SYN-nnnn`
  article id.
- A copilot answer with low confidence can also be reported as a gap.
- A draft article can be generated for an event.
- A human approves or rejects the event. On approval, the article is indexed in the vector
  store, upserted into the article table and linked to its sources in the lineage table.

The model also covers:

- the retrieval side: scoring, merging, ranking and batching in the vector store;
- the rule-based QA scorer;
- the sheet parser and the lookups that build the initial state.

How the model is built:

- **Handlers are pure state transformers.** The server's mutable `state` dict is the
  `LearningState.State` record. It holds article rows, the article-id lookup, lineage rows,
  learning events, the seed ticket, conversation and script rows with their lookups, and the
  vector store.
- **Every HTTP handler returns `Reply(state, result)`.** The result is `Ok` with the response
  payload, or `Err` with an `ApiError` variant: 400, 404, 422 or 500.
- **External services are parameters:**
  - the nearest-neighbour query of the vector database is a `QueryOracle`, a function from
    collection, query text and result count to neighbours with optional distances;
  - the language-model drafting calls are `TicketDrafter` and `GapDrafter`;
  - the copilot's answer composer is `compose`;
  - the regex checks over a transcript are booleans (`TranscriptSignals`);
  - the current time is a `now` string;
  - whether the vector store raises while indexing is an `indexFails` flag.

Modules follow the source files:

- `KbIds`, `KbRecords`, `LearningState`, `EventsView`, `GapEvents`, `Review` and
  `KnowledgeGraph` come from `backend/app/main.py`;
- `Services` comes from `backend/app/services.py`, and `PyFloat` models the Python
  `float()` that `detect_gaps` applies to a ticket's tier;
- `VectorStore` comes from `backend/app/vector_store.py`;
- `DataLoader` comes from `backend/app/data_loader.py`;
- `Text` and `Wrappers` hold the string helpers (Python's `strip`, `lower`, `row.get`,
  `f"{n:04d}"`) and `Option`/`Result`.

Where the code and its declared request models disagree, the model follows the code:

- `generate_draft` reads `req.event_id` and `req.question`, and `review_event` reads
  `action.edited_title` and `action.edited_body`. The request models in
  `backend/app/models.py` declare none of these fields.
- The model takes them as optional strings.
- A missing edit field on approval is a server error (500) raised after the proposed id has
  been minted, because `None.strip()` raises at that point. So that error still leaves the
  minted id on the event.
- `review_event` has no status guard: an event of any status can be reviewed again. Its
  `confidence_improvement` is always `None`.
- The gap scan's set of already-covered ticket numbers is computed once, before its loop. So
  two gaps of the same ticket within one scan both become events.

## Model

| member | source | states |
|---|---|---|
| KbIds.FormatParseRoundTrip | backend/app/main.py:54-74 | the id `KB-SYN-{n:04d}` matches `^KB-SYN-(\d+)$` and parses back to `n` |
| KbIds.FormatInjective | backend/app/main.py:518 | distinct sequence numbers give distinct article ids |
| KbIds.NextKbSequence | backend/app/main.py:57-74 | the next sequence is at least 1, is above every number parsed from an id in use, and is 1 or exactly one more than such a number |
| KbIds.MintedIsFresh | backend/app/main.py:57-74 | any id formatted from a number at or above the next sequence is none of the ids in use |
| KbIds.NextAfterMint | backend/app/main.py:644-650 | once the minted id is in use, the next sequence is one higher, so successive mints are consecutive |
| KbIds.LastMatchRaises | backend/app/main.py:66-73 | a matching id raises the running maximum to its number when that is larger, and leaves it otherwise |
| EventsView.StatusCounts | backend/app/main.py:77-87 | the three tallies add up to the number of events |
| EventsView.CountsMatchFilter | backend/app/main.py:77-87 | the Approved and Rejected tallies are the sizes of the case-insensitive status filters; every other status counts as Pending |
| EventsView.ListEvents | backend/app/main.py:408-426 | refused (422) exactly when the page is below 1, the page size is outside 1..100 or the filter is longer than 20 characters; otherwise the total is the filtered count, the tally covers all events, the page and page size are echoed, and a page holds at most page-size matching events |
| EventsView.PageOf | backend/app/main.py:422-425 | a page is `s[start:start+size]` with `start = (page-1)*size`: `min(size, len - start)` entries from `start` on, or none past the end |
| EventsView.ListEventsPage | backend/app/main.py:415-425 | a valid request's page is exactly the filtered events from `(page-1)*page_size` on, `min(page_size, total - start)` of them, or none past the end |
| EventsView.PagesCover | backend/app/main.py:408-426 | the filtered event at position j is entry j mod size of page j div size + 1, so consecutive pages cover the filtered list in order |
| KbRecords.UpsertRows | backend/app/main.py:111-122 | the rows grow by one iff the lookup did not know the id or no row carries it; an appended row is the record; only the first row carrying the id may change, and then it includes the record, keeps every other column it had, and gains no column from elsewhere; afterwards a row carries the id and includes the record |
| KbRecords.UpsertArticle | backend/app/main.py:90-124 | afterwards the lookup maps the id to the new record and no other id changes; an existing record's creation time is kept; the article rows are updated as `UpsertRows` states |
| KbRecords.UpsertKeepsLookupBacked | backend/app/main.py:111-124 | if every lookup id has an article row, it still has one after an upsert |
| KbRecords.UpsertIdempotent | backend/app/main.py:90-124 | repeating the same upsert changes nothing, given that an id the lookup does not know has no article row |
| KbRecords.AppendSource | backend/app/main.py:140-153 | a source without an id leaves the rows as they are; otherwise its key is afterwards present, and a row is appended only when the key was absent |
| KbRecords.AppendLineageOnlyAppends | backend/app/main.py:127-153 | the old rows are a prefix of the new ones, and each new row is the row of a given source with a non-empty id |
| KbRecords.AppendLineageCovers | backend/app/main.py:140-153 | every given source with a non-empty id has its key present afterwards |
| KbRecords.AppendLineageDistinct | backend/app/main.py:130-153 | no two rows share a key afterwards if none did before, even when a call lists one source twice |
| KbRecords.AppendLineageNothingNew | backend/app/main.py:145-146 | when every source's key is already present, nothing is appended |
| KbRecords.AppendLineageIdempotent | backend/app/main.py:127-153 | appending the same sources a second time changes nothing |
| LearningState.KbIdsInUse | backend/app/main.py:59-63 | the ids looked at are every article's id followed by every event's proposed id |
| LearningState.MintKbId | backend/app/main.py:518 | a minted id differs from every article id and every proposed id in use |
| LearningState.FindEvent | backend/app/main.py:501 | finds the first event with the id, or reports that none has it |
| LearningState.EventOfRow | backend/app/main.py:191-205 | a sheet row gives an event iff its Event_ID is non-empty; the status defaults to Pending |
| LearningState.InitEvents | backend/app/main.py:188-206 | every event comes from a row with an id, and every such row gives an event |
| LearningState.InitEventsAppend | backend/app/main.py:188-206 | parsing concatenated rows is concatenating the parses, so order is kept |
| GapEvents.NewGaps | backend/app/main.py:642-647 | the gaps kept are exactly those whose ticket number is on no existing event of any status |
| GapEvents.ScanEvent | backend/app/main.py:648-663 | the scan's event for a gap is Pending, numbered `LEARN-AUTO-nnnn`, proposes the given article number and carries the gap's ticket and score |
| GapEvents.ScanEventsShaped | backend/app/main.py:645-664 | the k-th event of the loop is for the k-th new gap, with event number and article sequence both advanced by k |
| GapEvents.AppendScan | backend/app/main.py:666 | a scan only appends events: the old events are a prefix and nothing else in the state changes |
| GapEvents.AppendScanShaped | backend/app/main.py:642-666 | each appended event is Pending, is for an uncovered ticket, and proposes the next sequence plus its offset, an id not yet in use |
| GapEvents.ScanForGaps | backend/app/main.py:634-675 | fails (500) exactly when gap detection fails, and then changes nothing; otherwise reports the tickets scanned, the number of events appended and the new total |
| GapEvents.AppendScanCovers | backend/app/main.py:642-666 | after a scan every gap's ticket number is on some event |
| GapEvents.AppendScanNothingNew | backend/app/main.py:645-647 | a scan whose gaps are all covered leaves the state unchanged |
| GapEvents.ScanTwiceAddsNothing | backend/app/main.py:634-675 | scanning again straight after a successful scan appends nothing |
| GapEvents.ReportGap | backend/app/main.py:678-704 | refused (400) exactly when the question is empty; otherwise it appends one Pending copilot event numbered after the existing ones, with no ticket and a non-empty conversation id, proposing the given id or a freshly minted one |
| Review.FirstFilled | backend/app/main.py:523-529 | an `a or b or ...` chain gives its first non-empty string, and is empty only when all are |
| Review.LineageSourcesShape | backend/app/main.py:453-473 | a lineage holds exactly the Ticket, Conversation, Script and Copilot edges whose ingredient is present, in that order |
| Review.ContextFor | backend/app/main.py:438-445 | the requested ticket number wins over the event's; without a ticket number there is no ticket or conversation; the script id is the ticket's Script_ID |
| Review.DraftPayload | backend/app/main.py:475-483 | the payload carries the drafter's title, body and tags, the ticket number and script id, and the draft lineage |
| Review.WithDraft | backend/app/main.py:485-488 | the draft is stored on the event, and the summary changes only when the draft title is non-empty |
| Review.GenerateDraft | backend/app/main.py:429-495 | 404 exactly when a given event id is unknown, leaving the state unchanged; without an event nothing changes; with one only that event is updated; the title comes from the ticket drafter when a ticket is found, else from the gap drafter on the question |
| Review.ApprovalOf | backend/app/main.py:521-546 | the title and body are never empty; the title follows the edit, draft, summary, gap, placeholder chain; a non-blank edited body wins; the source type is "generated" iff the ticket was found, else "copilot" |
| Review.WithProposedId | backend/app/main.py:516-519 | an empty proposed id is replaced by a freshly minted one, and a present one is kept |
| Review.Approve | backend/app/main.py:549-623 | an indexing failure gives 500 and changes nothing; otherwise the index, the article, the lineage and the event are all updated, and the reply carries the article id |
| Review.Approved | backend/app/main.py:565-623 | after approval only the reviewed event changes, keeping its id and proposed id, with status Approved and the title as summary; the article is recorded with the approval's title, body and source type; the lineage only grows |
| Review.RejectEvent | backend/app/main.py:508-631 | a rejection changes only the event's status and review fields, and touches no article, lineage or index |
| Review.ApproveEvent | backend/app/main.py:516-631 | fails (500) exactly when an edit field is missing or indexing fails; then no article, lineage or index changes and the status stays as it was |
| Review.ApprovalRecordsArticle | backend/app/main.py:516-606 | the article id is the proposed id or a freshly minted one; on success it is in the lookup with a non-empty title and body, it is indexed, and the lineage only grows |
| Review.ApprovalEdges | backend/app/main.py:575-606 | approval adds a Ticket edge when the event has a ticket number, and a Copilot edge from the event otherwise |
| Review.ApprovalSourceType | backend/app/main.py:543-573 | the recorded article's source type is "generated" iff the event's ticket was found |
| Review.ReviewEvent | backend/app/main.py:498-631 | 404 exactly when the event is unknown; otherwise only that event changes, with no status guard; a rejection or a failed approval leaves articles, lineage and index untouched; a success reports `kb_total_after` as the number of articles afterwards and no confidence improvement |
| KnowledgeGraph.AddNode | backend/app/main.py:338-354 | a node is added only under a new id, so node ids stay unique |
| KnowledgeGraph.ConversationFor | backend/app/main.py:373-376 | a conversation node reads the lookup record when found, else the first conversation row with that id, else nothing |
| KnowledgeGraph.WalkShaped | backend/app/main.py:325-380 | the walk keeps node ids unique, equal to the link endpoints, and each node built from the state |
| KnowledgeGraph.WalkLinks | backend/app/main.py:325-380 | the walk's links are the rows' links in order, cut at the limit |
| KnowledgeGraph.GetKnowledgeGraph | backend/app/main.py:318-382 | refused (422) exactly when the limit is outside 10..500; otherwise at most `limit` links |
| KnowledgeGraph.WalkFirstMentions | backend/app/main.py:325-380 | after the walk every node is the one built by the first row mentioning its id: the article node when the id is that row's article id, else a source node in the group of that row's `Source_Type` |
| KnowledgeGraph.GraphContents | backend/app/main.py:318-382 | the graph's links are the first `limit` links of the lineage rows, the graph is well-shaped, and each node is the one the first lineage row mentioning its id builds, so a later row does not change its group; the nodes come in the order of `MentionOrder` over those links |
| KnowledgeGraph.WalkOrder | backend/app/main.py:338-382 | the node ids are the link endpoints in the order they are first mentioned, a link's article id before its source id, as `list(nodes_map.values())` yields them |
| Services.Considered | backend/app/services.py:163-168 | a ticket is considered exactly when it is Closed with a resolution and its tier is blank or its `float` is not below 3 (NaN and positive infinity are not below 3); it is an error exactly when a closed, resolved ticket has a non-blank tier that `float` rejects |
| Services.WholeTier | backend/app/services.py:166-168 | a closed, resolved ticket with a whole-number tier n is considered iff n is at least 3 |
| Services.ScientificTier | backend/app/services.py:166-168 | a tier written `{n}e{k}` is read as n times 10 to the k, so `1e1` is considered |
| Services.UnderscoreTier | backend/app/services.py:166-168 | a tier of two digit runs joined by `_` is read as the joined digits, so `1_0` is considered |
| Services.WordTier | backend/app/services.py:166-168 | a tier of `inf`, `infinity` or `nan` in any case, with surrounding whitespace, is considered |
| Services.NegativeInfinityTier | backend/app/services.py:166-168 | a tier of `-inf` or `-infinity` in any case is below 3, so the ticket is skipped |
| Services.FiniteTierAlphabet | backend/app/services.py:166-168 | a considered ticket's finite tier holds only digits, `_`, `.`, `e`, `E` and signs once stripped |
| PyFloat.ParseFloatNat | backend/app/services.py:167 | `float` of the decimal rendering of n is n |
| PyFloat.ParseFloatScientific | backend/app/services.py:167 | `float` of `{n}e{k}` is n times 10 to the k |
| PyFloat.ParseFloatUnderscore | backend/app/services.py:167 | `float` of two digit runs joined by one underscore is the number their digits spell together |
| PyFloat.ParseFloatFraction | backend/app/services.py:167 | `float` of `{a}.{b}` is a plus b over 10 to the length of b |
| PyFloat.ParseFloatWord | backend/app/services.py:167 | `inf` and `infinity` in any case, with surrounding whitespace, give positive infinity, and `nan` gives NaN |
| PyFloat.FiniteAlphabet | backend/app/services.py:167 | a finite `float` comes only from stripped text made of digits, `_`, `.`, `e`, `E` and signs |
| Services.GapFrom | backend/app/services.py:170-181 | a considered ticket is a gap iff its best KB score is below the threshold; the gap carries the ticket number and the top hit's id, or none when there are no hits |
| Services.CollectGapsSound | backend/app/services.py:162-183 | every gap comes from some input ticket |
| Services.CollectGapsComplete | backend/app/services.py:162-183 | every ticket that yields a gap has it in the list |
| Services.CollectGapsAppend | backend/app/services.py:162-183 | gaps over concatenated tickets are the concatenated gaps, so input order is kept |
| Services.DetectGaps | backend/app/services.py:156-183 | every gap scores below the threshold and names a considered input ticket, and every gap-yielding ticket is listed |
| Services.GapIffNoStrongMatch | backend/app/services.py:171-174 | a considered ticket is a gap iff every KB candidate scores below the threshold |
| Services.CopilotCollections | backend/app/services.py:91-97 | each collection is searched iff its flag is set, in the order KB, scripts, tickets |
| Services.AnswerType | backend/app/services.py:118-123 | the answer type is KB, SCRIPT or TICKET_RESOLUTION exactly for the matching document type, else UNKNOWN |
| Services.CopilotReplyFor | backend/app/services.py:101-137 | no results give confidence 0, UNKNOWN and no sources; otherwise the confidence is the top score, the type follows the top hit, and at most 5 sources are returned, as a prefix of the results |
| Services.CopilotAnswer | backend/app/services.py:82-137 | at most 5 sources, each scoring between 0 and the confidence |
| Services.CopilotNothingSelected | backend/app/services.py:91-107 | with no collection selected the answer is the escalation reply |
| Services.CopilotConfidenceIsBest | backend/app/services.py:99-134 | the confidence is at least every candidate's score, and there are sources iff there are candidates |
| Services.HeuristicQa | backend/app/services.py:359-427 | the case score is 20 times the case count, there is an interaction score iff a transcript exists, the overall score follows the interaction score when present, and the recommendation is "Keep doing" iff the overall score is at least 70 |
| Services.HeuristicQaRanges | backend/app/services.py:367-395 | the case percentage is one of 20, 40, 60, 80, 100; the interaction percentage lies in 50..100 |
| Services.TwoSignalsKeepDoing | backend/app/services.py:394-426 | an instance of `HeuristicQa`'s contract, not a separate property: with a transcript and at least two transcript signals the recommendation is "Keep doing" |
| Services.RecommendationOfPct | backend/app/services.py:426 | reading back a printed percentage gives "Keep doing" iff it is at least 70 |
| VectorStore.BatchAdd | backend/app/vector_store.py:127-145 | succeeds exactly when no batch of 500 repeats an id, which the index refuses; on success it returns the total and adds what one add of all documents would; otherwise it stops at the first batch with a repeat, and the batches before it stay added |
| VectorStore.UniqueIdsIndexWhole | backend/app/vector_store.py:136-143 | documents with unique ids are never refused, and land in an empty collection whole and in order |
| VectorStore.BatchesPartition | backend/app/vector_store.py:136-143 | the batch bounds start at 0, end at the total, follow on from each other, and each holds 1 to 500 documents |
| VectorStore.AddDocsAppend | backend/app/vector_store.py:137-143 | adding two lists in turn is adding their concatenation |
| VectorStore.AddKbArticle | backend/app/vector_store.py:195-202 | the article is indexed (its text cut to 8000 characters) unless the add raises; no other collection changes |
| VectorStore.StageKb | backend/app/vector_store.py:47-63 | exactly the articles with an id and non-blank text are staged, each with its metadata and truncated text |
| VectorStore.StageScripts | backend/app/vector_store.py:74-92 | exactly the scripts with an id are staged |
| VectorStore.StageTickets | backend/app/vector_store.py:103-123 | exactly the tickets with a number are staged |
| VectorStore.IndexKbArticles | backend/app/vector_store.py:40-65 | a populated collection is left alone and its count returned; an empty one receives the staged articles and their count is returned, unless a batch repeats an article id, in which case the call raises with the earlier batches added |
| VectorStore.IndexScripts | backend/app/vector_store.py:67-94 | as above, for the scripts collection and repeated script ids |
| VectorStore.IndexTickets | backend/app/vector_store.py:96-125 | as above, for the tickets collection and repeated ticket numbers |
| VectorStore.Score | backend/app/vector_store.py:179-180 | the score is `max(0, 1 - distance)`, never negative, at most 1 for a non-negative distance, and 0 without a distance |
| VectorStore.ToHit | backend/app/vector_store.py:183-190 | a hit keeps the neighbour's id, has a snippet of at most 500 characters, and takes its document type from the metadata, falling back to the collection name |
| VectorStore.CollectionHitsBound | backend/app/vector_store.py:164-171 | a collection contributes at most `min(top_k, count)` hits |
| VectorStore.MergeBound | backend/app/vector_store.py:162-190 | the merge holds at most `top_k` hits per collection |
| VectorStore.Search | backend/app/vector_store.py:151-193 | at most `top_k` results, sorted by score, drawn from the merged hits and none outscored by a hit left out |
| VectorStore.SortByScoreStable | backend/app/vector_store.py:192 | the sort is stable: hits of equal score keep their relative order |
| VectorStore.SearchKeepsTieOrder | backend/app/vector_store.py:162-193 | results of equal score keep the order of the collections as passed |
| VectorStore.RankedHeadIsBest | backend/app/vector_store.py:192-193 | the first result outscores every merged hit, and there are results iff there are hits |
| DataLoader.HeaderName | backend/app/data_loader.py:33 | header i is the stripped text of the cell, or `col_i` when the cell is falsy |
| DataLoader.Serialize | backend/app/data_loader.py:47-53 | None becomes "", a date its ISO text, and every other value is kept |
| DataLoader.SerializeIdempotent | backend/app/data_loader.py:47-53 | serializing a serialized value changes nothing |
| DataLoader.ParseSheet | backend/app/data_loader.py:28-44 | an empty sheet gives no records; exactly the data rows with a non-empty cell give a record, in order, keyed by the header row |
| DataLoader.ZippedLastWins | backend/app/data_loader.py:38-41 | with duplicate headers the last column of that name gives the value |
| DataLoader.BuildLookup | backend/app/data_loader.py:86-103 | each of the four lookups (tickets and conversations by ticket number, scripts by script id, articles by article id) maps every key to a record holding it, reached only from a record of the sheet; every record with a truthy key is reachable by it |
| DataLoader.BuildLookupLastWins | backend/app/data_loader.py:86-103 | the last record with a key is the one the lookup keeps |

## Left out

- Language-model calls are oracle parameters: the copilot's LLM answer, `generate_kb_draft`,
  the undefined `generate_kb_draft_from_gap`, and the LLM branch of QA scoring. They are
  external and non-deterministic, and `generate_kb_draft_from_gap` is not defined anywhere.
- The vector database's embedding and nearest-neighbour search are the `QueryOracle`. Its
  `Honest` assumption, that a query for n results returns at most n, is a ghost predicate
  required only by `VectorStore.CollectionHitsBound` and `VectorStore.MergeBound`.
- The `where` filter of `search` is not modelled, because no caller in the loop passes one.
- Regular-expression matching is not modelled:
  - the transcript signals of the QA scorer are boolean inputs;
  - the OWASP and compliance scanner is left out entirely;
  - `^KB-SYN-(\d+)$` is modelled directly on ASCII digits, including Python's `$` matching
    before a final newline.
- I/O is not modelled: workbook loading, settings loading, logging, FastAPI routing and CORS.
  The constants used are the 0.35 similarity threshold, `retrieval_top_k` = 5, a batch size
  of 500, and truncation to 500 and 8000 characters.
- Timestamps from `datetime.now` are the `now` parameter.
- Floating point is not modelled:
  - `round(score, 4)` is the identity;
  - the `:.0%` texts in messages are fixed strings or inputs;
  - the scorer's `int(c / 5 * 100)` is the exact integer `20 * c`.
- Message texts and the markdown of fallback answers and bodies are not modelled. Where the source guarantees it, the model states that they are non-empty.
- JSON payload values other than strings and one real number are not modelled.
  `report_gap_from_copilot` takes a string question and a real confidence. The confidence's
  `:.0%` rendering is an input.
- Python's `lower()` is modelled on ASCII letters only. `strip()` uses Python's whitespace set.
- `DataLoader` models cells as strings, integers, booleans or dates. Floats are left out.
- The loop modules read every cell as text: a row is a map from column name to string.
  `DataLoader` records are not converted into such rows. So two behaviours of
  non-string cells are lost:
  - an integer tier of 0 is falsy in `detect_gaps`, so Python considers the ticket, while the
    model parses the text "0" and skips it;
  - an integer ticket number is a lookup key that the string lookups of `generate_draft` and
    `review_event` never match.
- `PyFloat.ParseFloat`: finite values are exact reals, so binary rounding is not modelled. A
  tier such as `2.99999999999999999` rounds to 3.0 in Python and is considered, but it is below
  3 in the model.
- `PyFloat.ParseFloat`: only ASCII digits are accepted. Python's `float` also accepts the other
  Unicode decimal digits.
- `get_stats`, the ticket, conversation and article list endpoints, `get_kb_article`,
  `ask_copilot`'s request wrapper and `qa_score`'s request wrapper are outside the learning
  loop.
- Concurrency is not modelled. The handlers run one at a time on a single state.
- Start-up is not modelled. An `Err` from `VectorStore.IndexKbArticles`, `VectorStore.IndexScripts`
  or `VectorStore.IndexTickets` is where the application's start-up would abort. The vector
  index refuses an `add` that repeats an id within the call. It skips an id that is already
  stored. The model takes both behaviours as given, because the index library is external.
- `VectorStore.BatchAdd`: the partition of `0..total` into batches is stated over a ghost
  out-parameter, `bounds`. What the method returns is stated over its real results.
- `Services.CopilotAnswer`: the answer text produced by `compose` is not constrained beyond
  what `Services.CopilotReplyFor` states.
