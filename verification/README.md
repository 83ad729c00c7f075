# VannaSQL-Agent core, modelled in Dafny

VannaSQL-Agent is a text-to-SQL assistant. A language model served by Ollama
writes SQL from a question. Training data (question/SQL pairs, DDL and
documentation) lives in three ChromaDB collections, and a FastAPI layer keeps
each conversation's intermediate results in an in-memory session cache. This
project models the deterministic part of that system as pure Dafny functions
over immutable data and proves what each part promises:

- `VectorStore` (`vector_store.dfy`) covers the ChromaDB training-data store:
  - id construction, with a kind suffix per collection;
  - removal by id suffix and collection reset by name;
  - the exact-question cache lookup;
  - the `get_training_data` listing;
  - the result-count configuration.
- `Retrieval` (`retrieval.dfy`) covers `_extract_documents`:
  - it flattens a query result, with all-or-nothing JSON decoding;
  - with the relevance filter on, it keeps distances of at most 0.9, sorts them stably and nearest first, and caps the result at five.
  `RetrievalFixture` proves what the filter returns on the concrete ten-document query result in `test2.py`.
- `Prompt` (`prompt.dfy`) covers `add_ddl_to_prompt`. DDL fragments are packed greedily under a characters/4 token estimate, in order; a fragment that does not fit is skipped rather than ending the packing.
- `SqlExtract` (`sql_extract.dfy`) covers `extract_sql`. Backslashes are normalised away. Then the reply is searched for a ```` ```sql ```` fenced block, then for a `select`/`with … as (` span; each is cut at the first `;`, `[` or ```` ``` ````. The regex searches are written as explicit leftmost searches.
- `Ollama` (`ollama.dfy`) covers:
  - client configuration and model-name tagging;
  - the thinking-support check;
  - the event sequence `_submit_prompt_stream` yields for a chunk stream.
- `SessionCache` (`session_cache.dfy`) covers `AsyncMemoryCache`: a map of maps whose session order follows insertion.
- `Handlers` (`handlers.dfy`) models each FastAPI handler that reads or writes the session cache. Each is a function from (cache, inputs, oracle answers) to (new cache, response, oracle calls made).
- `Inventory` and `InventorySeed` (`inventory.dfy`, `inventory_seed.dfy`) cover the inventory schema:
  - the get-or-create helpers;
  - `_adjust_stock`, with its stock levels and movement log;
  - the guarded, all-or-nothing `seed_inventory_data`.
  The seed is stated for any catalogue and then for the shipped demo catalogue.
- `Json` and `Text` (`json.dfy`, `text.dfy`) hold the shared vocabulary:
  - JSON values;
  - the `json.dumps` layout of a question/SQL pair, with a parser proved to invert it;
  - Python's `strip`, ASCII `lower` and `endswith`.
- `Common` (`common.dfy`) holds `Option`, `Outcome` (returned or raised) and `Result`.

Everything outside this core becomes a parameter of the function that uses it:
- the language model;
- the SQL validator and the retry loop;
- `deterministic_uuid` and `uuid4`;
- `json.loads`;
- the database;
- the model list of the Ollama server.

Where the code's doc comment and its code disagree, the model follows the code. `extract_sql`'s comment says a match also ends at the end of the string, but its regexes have no end-of-string alternative, so here an unterminated statement is not matched.

## Model

| member | source | states |
|---|---|---|
| VectorStore.MakeId | backend/app/vanna/chromadb/chromadb_vector.py:73-92 | a training-data id always ends with the suffix of its collection kind |
| VectorStore.IdsOfDifferentKindsDiffer | backend/app/vanna/chromadb/chromadb_vector.py:73-92 | ids made for different collections never collide, whatever the content |
| VectorStore.AddQuestionSql | backend/app/vanna/chromadb/chromadb_vector.py:65-80 | the id hashes the JSON of the question/SQL pair; the entry lands only in the sql collection, and adding an id already present leaves it unchanged |
| VectorStore.AddDdl | backend/app/vanna/chromadb/chromadb_vector.py:82-89 | the DDL is stored under its content id in the ddl collection only |
| VectorStore.AddDocumentation | backend/app/vanna/chromadb/chromadb_vector.py:91-98 | the text is stored under its content id in the documentation collection only |
| VectorStore.AddTwiceIsAddOnce | backend/app/vanna/chromadb/chromadb_vector.py:65-98 | adding the same content twice returns the same id and the same store as adding it once |
| VectorStore.AddKeepsTagged | backend/app/vanna/chromadb/chromadb_vector.py:65-98 | the add operations keep every collection's ids carrying that collection's suffix |
| VectorStore.DeleteIdMembers | backend/app/vanna/chromadb/chromadb_vector.py:167-173 | deleting an id from a collection removes exactly the entries with that id and keeps all others |
| VectorStore.RemoveTrainingData | backend/app/vanna/chromadb/chromadb_vector.py:165-176 | returns true iff the id ends in -sql, -ddl or -doc; then it deletes from that collection only, otherwise nothing changes |
| VectorStore.RemoveTrainingDataRemovesExactly | backend/app/vanna/chromadb/chromadb_vector.py:165-176 | in a store whose ids carry their suffixes, the id is gone from every collection afterwards, every other entry remains, and false means the id was stored nowhere |
| VectorStore.RemoveUndoesAdd | backend/app/vanna/chromadb/chromadb_vector.py:165-176 | removing the id an add returned restores the store held before a first add |
| VectorStore.RemoveCollection | backend/app/vanna/chromadb/chromadb_vector.py:178-207 | only "sql", "ddl" and "documentation" are accepted; the named collection is emptied and the others kept; any other name returns false and changes nothing |
| VectorStore.RemoveCollectionRefusesDoc | backend/app/vanna/chromadb/chromadb_vector.py:178-207 | the id suffix "doc" is not a collection name: resetting it is refused |
| VectorStore.FirstStop | backend/app/vanna/chromadb/chromadb_vector.py:265-272 | the lookup stops at the first document that decodes to an object with a string question and is not skipped |
| VectorStore.ExactFromFirstMatch | backend/app/vanna/chromadb/chromadb_vector.py:257-273 | the exact lookup returns the SQL of the first stored question equal to the query after strip and lowercase, skipping undecodable documents, or None when no document matches |
| VectorStore.ExactMatchIgnoresCaseAndSpace | backend/app/vanna/chromadb/chromadb_vector.py:268 | two queries equal after strip and lowercase get the same answer |
| VectorStore.AddThenExactMatch | backend/app/vanna/chromadb/chromadb_vector.py:257-273 | after a question/SQL pair is added, asking the question (up to case and surrounding space) returns its SQL when no earlier entry matched |
| VectorStore.DecodeAll | backend/app/vanna/chromadb/chromadb_vector.py:107 | decoding every document succeeds iff each one decodes, and then keeps order |
| VectorStore.SqlRows | backend/app/vanna/chromadb/chromadb_vector.py:105-119 | sql rows carry the id, the decoded question and sql, and type "sql"; the listing fails iff some document fails to decode or lacks either key |
| VectorStore.TextRows | backend/app/vanna/chromadb/chromadb_vector.py:123-159 | ddl and documentation rows carry a null question and the raw document as content |
| VectorStore.GetTrainingData | backend/app/vanna/chromadb/chromadb_vector.py:100-163 | all sql rows come first, then all ddl rows, then all documentation rows, each group in collection order |
| VectorStore.TrainingDataOfCanonicalStore | backend/app/vanna/chromadb/chromadb_vector.py:100-119 | when every sql document was written by add_question_sql, the listing succeeds and gives back each stored question and SQL |
| VectorStore.ResultCountsOf | backend/app/vanna/chromadb/chromadb_vector.py:25-27 | each count is its own config key when present, else "n_results", else 10, decided per key; a missing config gives 10 for all three |
| VectorStore.ResultCountsFallBack | backend/app/vanna/chromadb/chromadb_vector.py:25-27 | a collection lacking its own key gets "n_results" (or 10 without it), whatever keys the other collections carry |
| VectorStore.ResultCountsReadOnlyCountKeys | backend/app/vanna/chromadb/chromadb_vector.py:25-27 | only the four count keys of the config affect the counts |
| Retrieval.DecodeEvery | backend/app/vanna/chromadb/chromadb_vector.py:234-237 | decoding a nested list succeeds iff every item is a string that decodes |
| Retrieval.Flatten | backend/app/vanna/chromadb/chromadb_vector.py:232-237 | a single nested list is replaced by its decoded items when all decode and by its raw items otherwise; any other shape is kept |
| Retrieval.KeepCloseKeepsExactlyTheClose | backend/app/vanna/chromadb/chromadb_vector.py:242-245 | the filter keeps every pair at distance at most 0.9 as often as it occurs in the input, and no other pair |
| Retrieval.SortIsPermutation | backend/app/vanna/chromadb/chromadb_vector.py:248 | sorting by distance only reorders the pairs |
| Retrieval.SortIsSorted | backend/app/vanna/chromadb/chromadb_vector.py:248 | after sorting, distances ascend |
| Retrieval.SortIsStable | backend/app/vanna/chromadb/chromadb_vector.py:248 | pairs at equal distance keep their input order, as Python's sort guarantees |
| Retrieval.RelevantPairsProperties | backend/app/vanna/chromadb/chromadb_vector.py:240-253 | with the filter on, the result is the first min(5, number of close pairs) of the close pairs in distance order: each within 0.9, ascending, drawn from the zipped input |
| Retrieval.RelevantPairsAreNearest | backend/app/vanna/chromadb/chromadb_vector.py:248-251 | no close pair that was cut is nearer than a kept one |
| Retrieval.RelevantCommutesWithMap | backend/app/vanna/chromadb/chromadb_vector.py:241-251 | the filter chooses by distance alone: transforming the documents first or afterwards gives the same result |
| Retrieval.ApplyFilter | backend/app/vanna/chromadb/chromadb_vector.py:240-255 | with "yes" and some distances the relevant documents are returned, capped at five; otherwise the documents are returned untouched |
| Retrieval.ExtractDocuments | backend/app/vanna/chromadb/chromadb_vector.py:225-255 | no query result gives []; a result without documents gives None; otherwise the flattened documents go through the filter |
| Retrieval.ProcessQueryResults | backend/app/test2.py:5-35 | a result without documents gives [] |
| Retrieval.ProcessQueryResultsAgrees | backend/app/test2.py:5-35 | the standalone filter returns what the store's extractor returns whenever documents are present |
| Retrieval.UnfilteredIsExtractWithoutFilter | backend/app/play_with_rag.py:39-51 | the unfiltered extractor is the store's extractor with the filter off |
| Retrieval.SimilarQuestionSql | backend/app/vanna/chromadb/chromadb_vector.py:275-281 | similar-question retrieval returns the relevance-filtered flattened documents (at most five) when distances are present, the flattened documents when they are not, [] for no result and nothing for a result without documents |
| Retrieval.RelatedDocuments | backend/app/vanna/chromadb/chromadb_vector.py:283-297 | DDL and documentation retrieval never filter: they return the flattened documents |
| RetrievalFixture.FixtureClose | backend/app/test2.py:38-74 | seven of the ten fixture distances pass the cutoff |
| RetrievalFixture.FixtureSort | backend/app/test2.py:38-74 | sorted, the close pairs run 0.350, 0.410, 0.510, 0.760, 0.824, 0.870, 0.886 |
| RetrievalFixture.FixturePositions | backend/app/test2.py:38-74 | the filter picks the fourth, sixth, tenth, eighth and first documents, in that order |
| RetrievalFixture.FixtureOnAnyTen | backend/app/test2.py:19-33 | with the fixture's distances, any ten documents are reduced to those five, in that order |
| RetrievalFixture.FixtureResultKeepsFiveNearest | backend/app/test2.py:38-74 | on the fixture query result the filter returns the documents of ids 4, 6, 10, 8 and 1, whatever the decoder does |
| RetrievalFixture.FixtureExtractDocuments | backend/app/vanna/chromadb/chromadb_vector.py:225-255 | the store's extractor gives the same five documents on the fixture |
| Prompt.ApproxTokenCount | backend/app/play_with_rag.py:63-64 | the token estimate is the length divided by four, exactly |
| Prompt.FitsIffChars | backend/app/play_with_rag.py:73-77 | a fragment fits iff prompt length plus fragment length is below four times the budget |
| Prompt.AddDdlToPrompt | backend/app/play_with_rag.py:66-80 | an empty list leaves the prompt unchanged; otherwise the result starts with the prompt followed by the header once |
| Prompt.AddDdlToPromptIsSelection | backend/app/play_with_rag.py:69-78 | the result is prompt, header, then the chosen fragments each followed by a blank line, and the chosen fragments are an order-preserving subsequence of the input |
| Prompt.AppendFittingExtends | backend/app/play_with_rag.py:72-78 | packing only appends to the prompt |
| Prompt.AddDdlToPromptBound | backend/app/play_with_rag.py:73-78 | once a fragment is appended the length stays below four times the budget plus two |
| Prompt.SkipThenAppend | backend/app/play_with_rag.py:72-78 | a fragment that does not fit is skipped and a later shorter one is still appended |
| SqlExtract.RemoveBackslashes | backend/app/vanna/ollama/ollama.py:69 | no backslash survives, and text without one is unchanged |
| SqlExtract.NormaliseRemovesEveryBackslash | backend/app/vanna/ollama/ollama.py:68-69 | replacing escaped underscores first makes no difference once every backslash is removed |
| SqlExtract.FirstTerminator | backend/app/vanna/ollama/ollama.py:72-76 | finds the first `;`, `[` or three backticks at or after a position, or reports there is none |
| SqlExtract.SearchFence | backend/app/vanna/ollama/ollama.py:72 | finds the leftmost position where a sql fence is followed by a terminator |
| SqlExtract.SearchFenceFirstFence | backend/app/vanna/ollama/ollama.py:72 | the fenced match starts at the first sql fence, or there is none if that fence has no terminator after it |
| SqlExtract.SearchSelectWith | backend/app/vanna/ollama/ollama.py:74-76 | finds the leftmost position where select, or with … as (, starts a span ending at a terminator |
| SqlExtract.WithMatchFirstCandidate | backend/app/vanna/ollama/ollama.py:74 | the lazy with-branch ends at the first terminator after the first "as (" |
| SqlExtract.ExtractSql | backend/app/vanna/ollama/ollama.py:55-86 | the extracted text never contains a backslash |
| SqlExtract.ExtractSqlFenced | backend/app/vanna/ollama/ollama.py:72-80 | when a fenced match exists it wins: the result is the text between the fence and the first terminator, and it holds no terminator |
| SqlExtract.ExtractSqlSelectWith | backend/app/vanna/ollama/ollama.py:74-84 | otherwise the result is the leftmost select/with span, starts with that keyword and is followed by a terminator |
| SqlExtract.ExtractSqlIsPieceOfReply | backend/app/vanna/ollama/ollama.py:77-86 | the result is always a contiguous piece of the normalised reply |
| SqlExtract.ExtractSqlWithoutTerminator | backend/app/vanna/ollama/ollama.py:72-86 | a reply without any terminator is returned with only its backslashes removed |
| SqlExtract.FencedBodyRoundTrip | backend/app/vanna/ollama/ollama.py:72-80 | a plain statement wrapped in a sql fence is extracted exactly |
| SqlExtract.SelectCutAtSemicolon | backend/app/vanna/ollama/ollama.py:74-84 | an unfenced SELECT is cut just before its semicolon |
| Ollama.NormaliseModelName | backend/app/vanna/ollama/ollama.py:26-28 | the model name always ends up tagged and keeps the configured name as its prefix |
| Ollama.NormaliseModelNameIdempotent | backend/app/vanna/ollama/ollama.py:27-28 | tagging a tagged name changes nothing |
| Ollama.NormaliseKeepsTaggedName | backend/app/vanna/ollama/ollama.py:27 | a name containing ':' is kept as given |
| Ollama.Init | backend/app/vanna/ollama/ollama.py:21-36 | a missing or empty config, or one without a model, raises the config error; a client built has the tagged model, the host or its default, and pulls iff its model is not listed |
| Ollama.InitAcceptsStringModel | backend/app/vanna/ollama/ollama.py:21-35 | a config with a string model and no options builds a client with a context size of 2048 |
| Ollama.SupportsThinkingIgnoresCase | backend/app/vanna/ollama/ollama.py:115-120 | thinking support depends only on the lowercased model name |
| Ollama.UntaggedNameNeverThinks | backend/app/vanna/ollama/ollama.py:115-120 | an untagged configured name becomes ":latest" and so never supports thinking |
| Ollama.SubmitPromptRequest | backend/app/vanna/ollama/ollama.py:96-109 | the chat request keeps the model and the stream flag and passes the thinking flag only for a supporting model |
| Ollama.RunChunksPhased | backend/app/vanna/ollama/ollama.py:137-167 | thinking events come only before the first content; exactly one thinking_end is emitted once content arrives |
| Ollama.RunChunksContent | backend/app/vanna/ollama/ollama.py:164-166 | the running full response is the concatenation of every content piece, and the content events carry exactly those pieces in order |
| Ollama.StreamContract | backend/app/vanna/ollama/ollama.py:122-181 | the stream ends with one complete event carrying all content, or one error event on a failure, after phased chunk events with at most one thinking_end |
| Ollama.ThinkingOnlyStream | backend/app/vanna/ollama/ollama.py:140-174 | a stream without content completes with an empty response and thinking not complete |
| SessionCache.Get | backend/app/vanna/fastapi/cache.py:70-74 | an unknown id, or a known id without the field, reads as None |
| SessionCache.Set | backend/app/vanna/fastapi/cache.py:64-68 | set creates the session on first use, at the end of the order, and keeps the cache well formed |
| SessionCache.GetAfterSet | backend/app/vanna/fastapi/cache.py:64-74 | get returns what set stored |
| SessionCache.SetLeavesOthers | backend/app/vanna/fastapi/cache.py:64-68 | set changes no other (id, field) pair |
| SessionCache.SetKeepsFields | backend/app/vanna/fastapi/cache.py:66-68 | a session's other fields keep their values |
| SessionCache.Delete | backend/app/vanna/fastapi/cache.py:86-89 | delete drops exactly that session from the ids and the order; an unknown id is a no-op |
| SessionCache.DeleteKeepsValid | backend/app/vanna/fastapi/cache.py:86-89 | after delete the order still lists every stored id exactly once |
| SessionCache.DeleteSemantics | backend/app/vanna/fastapi/cache.py:70-89 | after delete every field of that session reads as None and other sessions read as before |
| SessionCache.GetAll | backend/app/vanna/fastapi/cache.py:76-84 | get_all returns one record per stored session, in insertion order |
| SessionCache.GetAllRecords | backend/app/vanna/fastapi/cache.py:79-83 | each record holds "id" and exactly the requested fields, None where the session lacks one |
| SessionCache.GetAllAfterNewSession | backend/app/vanna/fastapi/cache.py:64-84 | a new session's record comes last and the older records are unchanged |
| Handlers.Truthy | backend/app/vanna/fastapi/fastapi_api.py:476-477 | testing a cached value for truth raises only for a data frame, and None and "" are false |
| Handlers.SetStores | backend/app/vanna/fastapi/cache.py:64-68 | one cache write changes only its own field |
| Handlers.GenerateSql | backend/app/vanna/fastapi/fastapi_api.py:205-236 | an empty question is rejected with no call; otherwise the SQL comes from the model, validated, and the answer is "sql" iff it is valid, else "text" |
| Handlers.GenerateSqlStores | backend/app/vanna/fastapi/fastapi_api.py:222-236 | question and sql are stored under the fresh id and nothing else changes |
| Handlers.StoreSuccess | backend/app/vanna/fastapi/fastapi_api.py:268-276 | on success df and the final sql are stored, and error_history only when it is non-empty |
| Handlers.RunSql | backend/app/vanna/fastapi/fastapi_api.py:238-304 | run_sql is rejected iff no sql is cached or no database is connected; outside the success path at most df, sql and error_history change |
| Handlers.RunSqlCallsRetry | backend/app/vanna/fastapi/fastapi_api.py:255-264 | the retry routine gets the cached sql, two retries and the cached question, defaulting to "Query execution" |
| Handlers.RunSqlSuccess | backend/app/vanna/fastapi/fastapi_api.py:266-292 | success stores df and final sql, reports a correction iff the final sql differs and counts the history; with charts off no chart is suggested |
| Handlers.RunSqlExhausted | backend/app/vanna/fastapi/fastapi_api.py:293-301 | when retries run out nothing is written and a clarification is asked for |
| Handlers.FixSql | backend/app/vanna/fastapi/fastapi_api.py:306-338 | fix_sql is rejected iff the question or the sql is missing |
| Handlers.FixSqlOverwritesOnlySql | backend/app/vanna/fastapi/fastapi_api.py:313-338 | fixing asks the model once with the error, sql and question and overwrites only sql |
| Handlers.UpdateSql | backend/app/vanna/fastapi/fastapi_api.py:340-356 | update_sql overwrites sql unconditionally and changes nothing else |
| Handlers.FirstFollowups | backend/app/vanna/fastapi/fastapi_api.py:606-612 | the generated list is kept whole when it has at most five questions and cut to exactly its first five otherwise; no list stays None |
| Handlers.GenerateFollowupQuestions | backend/app/vanna/fastapi/fastapi_api.py:583-624 | df, question and sql are required in that order; an answer stores only followup_questions |
| Handlers.FollowupsBounded | backend/app/vanna/fastapi/fastapi_api.py:602-624 | stored follow-ups number at most five, and are [] with no model call when the model may not see data |
| Handlers.ContextPartsKeepAnswered | backend/app/vanna/fastapi/fastapi_api.py:479-485 | the context holds a "Q: … A: …" part for every non-blank answer and for nothing else |
| Handlers.ContextEmptyIffAllBlank | backend/app/vanna/fastapi/fastapi_api.py:479-485 | the context is empty iff every answer is blank |
| Handlers.AnswerConversation | backend/app/vanna/fastapi/fastapi_api.py:462-528 | a missing cache id or a missing question is rejected; only an enhanced question changes the cache |
| Handlers.AnswerConversationStores | backend/app/vanna/fastapi/fastapi_api.py:479-528 | the model is asked once with the original question and the context; on success only enhanced_question and conversation_context are stored, on failure an error is answered |
| Handlers.GetErrorHistory | backend/app/vanna/fastapi/fastapi_api.py:733-754 | reading the history changes nothing; a missing history is reported as [] |
| Handlers.ErrorHistoryAfterRun | backend/app/vanna/fastapi/fastapi_api.py:733-754 | after a corrected run the history read back is the retry routine's, with its length as attempts |
| Handlers.RenderFigure | backend/app/vanna/fastapi/fastapi_api.py:428-444 | a figure is rendered from the code and df; only fig_json is stored, and a rendering error changes nothing |
| Handlers.GeneratePlotlyFigure | backend/app/vanna/fastapi/fastapi_api.py:377-444 | df, question and sql are required in that order; the answer reports instructions applied iff they were non-blank; the code generator is shown only the "Running df.dtypes gives:" text of the frame's column types, never the frame |
| Handlers.PlotlyReusesCachedCode | backend/app/vanna/fastapi/fastapi_api.py:398-426 | without instructions cached plotly code is reused and not regenerated |
| Handlers.PlotlyGeneratesMissingCode | backend/app/vanna/fastapi/fastapi_api.py:398-426 | without instructions, missing code is generated from the cached question, sql and the frame's dtypes text, and stored |
| Handlers.PlotlyRegeneratesWithInstructions | backend/app/vanna/fastapi/fastapi_api.py:398-426 | non-blank instructions always regenerate the code from the extended question, sql and the frame's dtypes text, and store the code and the instructions |
| Handlers.GenerateSqlKeepsShapes | backend/app/vanna/fastapi/fastapi_api.py:205-236 | every field keeps the type the handlers give it |
| Handlers.RunSqlKeepsShapes | backend/app/vanna/fastapi/fastapi_api.py:238-304 | run_sql keeps every field's type and the cache well formed |
| Handlers.FollowupsKeepsShapes | backend/app/vanna/fastapi/fastapi_api.py:583-624 | generating follow-ups keeps every field's type |
| Handlers.AnswerConversationKeepsShapes | backend/app/vanna/fastapi/fastapi_api.py:462-528 | answering a conversation keeps every field's type |
| Handlers.PlotlyFigureKeepsShapes | backend/app/vanna/fastapi/fastapi_api.py:377-444 | generating a figure keeps every field's type |
| Inventory.FindName | backend/app/schemas/models.py:125 | the lookup finds the first row with the name, or reports none has it |
| Inventory.GetOrCreate | backend/app/schemas/models.py:124-151 | an existing row with the name is returned and the table is unchanged; otherwise exactly one row is appended with the given detail |
| Inventory.GetOrCreateIdempotent | backend/app/schemas/models.py:124-151 | a repeated call, whatever its other arguments, returns the same row and changes nothing |
| Inventory.GetOrCreateKeepsNamesUnique | backend/app/schemas/models.py:124-151 | the helpers never create a second row with the same name |
| Inventory.AdjustStock | backend/app/schemas/models.py:154-183 | a missing level starts at 0 and gets the delta with no lower bound; exactly one matching movement is logged and nothing else changes |
| Inventory.AdjustStockKeepsBalanced | backend/app/schemas/models.py:163-183 | each pair's quantity stays the sum of its logged deltas |
| Inventory.AdjustAllKeepsBalanced | backend/app/schemas/models.py:163-183 | any run of adjustments keeps quantities equal to the ledger |
| Inventory.LedgerFromEmpty | backend/app/schemas/models.py:163-183 | from an empty store every pair's quantity equals its movements' sum |
| InventorySeed.EnsureRowsConsistent | backend/app/schemas/models.py:215-226 | the by-name maps point at rows of that name and names stay unique |
| InventorySeed.CreateProducts | backend/app/schemas/models.py:246-257 | product creation fails iff a category or supplier name is unknown, as the dict lookup raises |
| InventorySeed.FindOne | backend/app/schemas/models.py:285 | .one() succeeds iff exactly one product has the sku |
| InventorySeed.StockFromLevels | backend/app/schemas/models.py:261-272 | every product gets 50 in the central warehouse and no other level moves |
| InventorySeed.Fulfil | backend/app/schemas/models.py:284-326 | an order succeeds iff every line's sku resolves, logging one movement per line |
| InventorySeed.FulfilQuantities | backend/app/schemas/models.py:284-326 | each level moves by the signed sum of its order lines |
| InventorySeed.SeedInventory | backend/app/schemas/models.py:186-331 | an existing product makes seeding a no-op; a failure rolls back to the store given; a success is the full seed |
| InventorySeed.SeedIdempotent | backend/app/schemas/models.py:191-194 | seeding a seeded store changes nothing |
| InventorySeed.SeedKeepsBalanced | backend/app/schemas/models.py:186-331 | seeding keeps levels equal to the movement ledger |
| InventorySeed.SeedAllCommits | backend/app/schemas/models.py:214-331 | on an empty store with a consistent catalogue the seed commits |
| InventorySeed.SeedStock | backend/app/schemas/models.py:261-326 | each product's central stock is 50 plus purchased minus sold |
| InventorySeed.SeedCommitsExpected | backend/app/schemas/models.py:186-331 | for any consistent catalogue the seed commits with one product per entry, one movement per product and order line, and the expected central stock |
| InventorySeed.DemoExpected | backend/app/schemas/models.py:196-326 | the shipped catalogue is consistent and its expected central stock is the listed table |
| InventorySeed.SeedDemo | backend/app/schemas/models.py:186-331 | seeding an empty store commits 12 products and 18 movements, leaving ELEC-001 90, OFF-001 150, APP-002 110, ELEC-002 45, FURN-001 48, GROC-001 40 and 50 for the rest in Central Warehouse |
| Json.QuestionSqlRoundTrip | backend/app/vanna/chromadb/chromadb_vector.py:66-72 | the JSON written for a question/SQL pair parses back to that pair |
| Json.LoadQuestionSqlRoundTrip | backend/app/vanna/chromadb/chromadb_vector.py:66-72 | loading a stored pair gives the object with exactly its question and sql |
| Json.EncodeQuestionSqlInjective | backend/app/vanna/chromadb/chromadb_vector.py:66-73 | different pairs are encoded as different JSON texts; their ids then differ unless the uuid function collides |
| Json.HexQuad | backend/app/vanna/chromadb/chromadb_vector.py:267 | a \u escape decodes iff all four characters are hex digits |
| Text.Strip | backend/app/vanna/chromadb/chromadb_vector.py:268 | strip cuts only a blank prefix and a blank suffix, leaving the slice between them with no space at either end |
| Text.StripEmptyIffBlank | backend/app/vanna/fastapi/fastapi_api.py:479-485 | a string strips to empty iff it is all whitespace |
| Text.Lower | backend/app/vanna/chromadb/chromadb_vector.py:268 | lower maps each character and keeps the length |

## Left out

- Embeddings, nearest-neighbour search and ChromaDB persistence: a query result (documents and distances) is an input.
- Distances are reals: floating-point rounding is not modelled; only `<= 0.9` and ordering matter.
- The language model, `is_sql_valid`, `run_sql_with_retry`, `should_generate_chart`, follow-up, enhancement and plotly generation: these are oracle parameters, and their code (in the Vanna base class) is not part of this model. An oracle that raises outside a handler's `try` is treated as returning.
- `_generate_enhanced_question` is an oracle returning text or raising; its exception handling lives inside that oracle.
- `deterministic_uuid`, `uuid4` and `json.loads` are parameters. A parser for exactly the `json.dumps` layout of a question/SQL pair stands in for `json.loads` where a lemma needs one.
- SqlExtract.StartsWithIgnoringCase: case folding is ASCII only; Python's IGNORECASE also folds a few non-ASCII letters (ſ, ı, İ, K).
- Text.Lower: ASCII only, where Python's `lower` maps all of Unicode.
- Ollama HTTP calls, model pulling and timeouts: the server's model list is a parameter and `pullModel` records whether a pull would be issued.
- Ollama.StreamContract: each yielded event is a snapshot at yield time; the source yields one mutable dict several times per chunk, which a consumer that keeps references would see mutated.
- The asyncio lock, `run_in_executor` and uvicorn: every cache operation is atomic, so the cache is a sequence of pure transitions.
- HTTP status codes and response bodies beyond their content, and the FastAPI handlers that do not touch the cache (training, listing, UI and auth routes).
- DataFrame, CSV, JSON and plotly serialisation: a data frame is an opaque handle with a row count, and `render` turns a cached value into the text the handlers embed.
- Logging and `print`.
- Decimal prices are whole cents; timestamps and ORM flush ordering are not modelled.
- Row ids are positions plus one, which is what auto-increment keys give tables that only grow.
- Database errors other than a failed dict lookup (`KeyError`) and `.one()` finding zero or several rows.
- InventorySeed.SeedStock: requires an empty stock-level table and unique warehouse names, which the foreign keys and the name unique constraint give the real database.
- InventorySeed.SeedDemo: requires the same, and states the central stock only for the 12 demo products.
- VectorStore.AddEntry: adding an id already present is a no-op; that is ChromaDB's behaviour for `collection.add`, not something the store's own code checks.
- Null "documents" and a `None` result: a query result cannot hold a present-but-null "documents", and `process_query_results` in `test2.py` is never given `None`; the code raises `TypeError` on both, which the model does not represent.
- Ollama.Init: a list given as the model is refused as a type error here, whereas the code's `in` and `+=` accept a list and go on to build a client with it; only string models are meaningful to the Ollama server.
- Handlers.AnswerConversation: the answers are assumed to be a map of strings; a null, 0 or false answer (skipped by the code), a truthy non-string answer or a null "answers" (both raising AttributeError) are not represented.
- The `n_results` values are passed to the vector index only; the model records which count each collection uses.
