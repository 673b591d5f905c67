# Jozef, the Neo-Latin studies chatbot: a Dafny model of its RAG core

This project models the deterministic core of the retrieval-augmented
chatbot in `src/rag_engine.py` and `src/document_processor.py`:

- the per-session conversation memory and its length cap;
- how retrieved passages become a numbered context block;
- how the prompt is assembled from the system prompt, that context, the
  last six messages and the new question;
- the reply taken from the language model, streamed or in one piece, and
  the apology used when the model call fails;
- the choice of model at start-up;
- the heuristic that decides whether sources are cited, and the fallback
  relevance filter;
- the `chat` turn: retrieval, prompt, reply, the two memory updates, and
  the sources, one per file;
- the vector store's skip-by-filename ingestion, the guard around
  similarity search, and the PDF pipeline's return value.

The model is split into these modules:

- `Builtins`: the Python built-ins the code relies on — `isspace`, `lower`,
  `strip`, `split`, substring `in`, `join`, slicing and comprehensions.
- `Docs`: langchain's `Document`.
- `Memory`: the class `ConversationMemory`, whose methods update its
  `conversations` map in place.
- `VectorStore`: the class `DocumentProcessor`, whose store is the
  sequence of records the collection lists.
- `Prompting`: `format_context` and `build_prompt`.
- `Generation`: the two generation paths and model selection.
- `Attribution`: `_should_show_sources` and `_filter_by_content_relevance`.
- `Engine`: the class `RAGEngine` and `chat`.

Each loop of the source is a method proved equal to a function that
specifies it. What the source promises is proved as lemmas about those
functions.

Foreign calls become parameters:

- the similarity search's result is `hits`, which is `None` when the search
  raises;
- the model server is a function `llm` from model name and prompt to a
  `Completion`, or a sequence of `Chunk`s plus a flag saying whether the
  stream raises;
- what the store does during one add is a `StoreEnv`: the store that
  initialisation yields, whether listing the stored metadata raises, and
  whether adding raises;
- the PDF loader's and text splitter's outputs are plain sequences.

## Model

| member | source | states |
|---|---|---|
| Builtins.Lower | src/rag_engine.py:116-117 | same length as the input, and every character is the ASCII lower-case of the one at the same index |
| Builtins.TrimStart | src/rag_engine.py:178 | a suffix of the input; the dropped prefix is all whitespace; the result does not start with whitespace |
| Builtins.TrimEnd | src/rag_engine.py:178 | a prefix of the input; the dropped suffix is all whitespace; the result does not end with whitespace |
| Builtins.Strip | src/rag_engine.py:178 | `strip()` neither starts nor ends with whitespace, and is empty exactly when the input is all whitespace |
| Builtins.StripIsCore | src/rag_engine.py:178 | `strip()` occurs in the input at an offset with only whitespace before and after it |
| Builtins.Split | src/rag_engine.py:98 | `split()` yields non-empty tokens without whitespace, and no tokens exactly when the input is all whitespace |
| Builtins.ContainsIffOccurs | src/rag_engine.py:125 | `needle in haystack` holds iff the needle occurs at some index |
| Builtins.AnyInIff | src/rag_engine.py:125 | `any(k in text for k in keywords)` holds iff some listed keyword is a substring of the text |
| Builtins.JoinCons | src/rag_engine.py:186 | `sep.join([first] + rest)` is `first + sep + sep.join(rest)` for non-empty `rest`: the separator stands between consecutive parts |
| Builtins.JoinSnoc | src/rag_engine.py:209 | appending a part to a non-empty list adds the separator and then that part at the end of the join |
| Builtins.JoinStartsWithFirst | src/rag_engine.py:186 | a join of non-empty parts starts with the first part's first character |
| Builtins.Abbreviate | src/rag_engine.py:181-182 | at most n + 3 characters; unchanged when at most n long; otherwise the first n characters followed by "..." |
| Builtins.Filter | src/document_processor.py:183-186 | the comprehension keeps exactly the elements that pass, each with its multiplicity, and is no longer than the input |
| Builtins.FilterAppend | src/document_processor.py:183-186 | filtering a concatenation is the concatenation of the filtered halves, so kept elements stay in input order |
| Builtins.FilterSingleton | src/document_processor.py:183-186 | a one-element list keeps its element exactly when it passes |
| Builtins.PySliceFrom | src/rag_engine.py:41 | `s[start:]`: from index min(start, len) for start >= 0; for a negative start the last min(-start, len) elements, so `[-0:]` is the whole list |
| Memory.Appended | src/rag_engine.py:29-41 | the new list is a suffix of old list + [message] and ends with the message; with a cap of at least 1 its length is min(old + 1, 2 * cap); with cap 0 nothing is dropped |
| Memory.TwoAppends | src/rag_engine.py:273-274 | the question then the reply leave the newest min(old + 2, 2 * cap) messages of old + [question, reply] |
| Memory.TurnKeepsPairs | src/rag_engine.py:273-274 | a full chat turn keeps a user/assistant-alternating history alternating; the cap never leaves half an exchange |
| Memory.BoundedUpdate | src/rag_engine.py:40-41 | storing a list within the cap keeps every session within the cap |
| Memory.ConversationMemory.constructor | src/rag_engine.py:21-27 | the cap defaults to MAX_CONVERSATION_HISTORY (5); no sessions are stored |
| Memory.ConversationMemory.GetConversationHistory | src/rag_engine.py:43-45 | the stored list, or [] for a session that is not stored |
| Memory.ConversationMemory.AddMessage | src/rag_engine.py:29-41 | only the session's list changes, and it becomes `Appended` of its old list; the cap invariant is kept |
| Memory.ConversationMemory.ClearConversation | src/rag_engine.py:47-50 | exactly that key is removed (nothing happens if it is absent); getting it afterwards returns []; other sessions are unchanged |
| VectorStore.ExistingSources | src/document_processor.py:169-177 | exactly the `source_file` values of the stored entries whose metadata is a non-empty dict containing that key |
| VectorStore.NewDocuments | src/document_processor.py:182-186 | the documents whose source (default '') is not stored yet, with their multiplicity; no de-duplication within the batch |
| VectorStore.NewDocumentsInOrder | src/document_processor.py:183-186 | `new_documents` of a concatenation is the concatenation of each half's, and a single document is kept exactly when its source is not stored: the batch order is kept |
| VectorStore.ToRecords | src/document_processor.py:195 | one record per added document, carrying its metadata and text |
| VectorStore.EmptyBatchRejected | src/document_processor.py:146-148 | an empty batch returns false and leaves the store as it was |
| VectorStore.AllStoredIsNoOp | src/document_processor.py:188-190 | when every document's source is already stored, the call returns true and the store is unchanged |
| VectorStore.AddAppendsNewDocuments | src/document_processor.py:192-198 | on an open store of a non-empty batch: when no document is new, true and the store unchanged; when some are new, true with exactly their records appended, or false with the store unchanged when adding raises; a listing that raises counts nothing as stored; the old records always stay a prefix |
| VectorStore.ExistingSourcesAppend | src/document_processor.py:169-177 | appending records keeps every stored source and adds the sources of the appended records |
| VectorStore.NewSourcesStored | src/document_processor.py:169-195 | after documents with a `source_file` are appended, each of their sources is among the stored sources |
| VectorStore.SecondAddIsNoOp | src/document_processor.py:144-202 | after a successful add, adding the same documents again (each with a `source_file`) returns true and adds nothing |
| VectorStore.Found | src/document_processor.py:238-248 | the search's hits when a store is open and the search succeeds; otherwise [] |
| VectorStore.ChunkDocuments | src/document_processor.py:135-142 | [] for no input; otherwise the splitter's output |
| VectorStore.DocumentProcessor.constructor | src/document_processor.py:42-44 | the store is whatever start-up initialisation produced |
| VectorStore.DocumentProcessor.AddDocumentsToVectorStore | src/document_processor.py:144-202 | the return value and the new store are those of `AddDocuments` applied to the old store: the empty-batch refusal, the lazy initialisation and its failure, the skip of stored sources, and the add failure are all covered |
| VectorStore.DocumentProcessor.SearchDocuments | src/document_processor.py:238-248 | [] when no store is open or the search raises; otherwise the hits |
| VectorStore.DocumentProcessor.ProcessAllPdfs | src/document_processor.py:204-232 | false with the store untouched when there are no pages or no chunks; otherwise the add step's result and store |
| Prompting.Passage | src/rag_engine.py:178-182 | the stripped text, cut to 500 characters plus "..." exactly when it is longer than 500; at most 503 characters |
| Prompting.SegmentAt | src/rag_engine.py:176-184 | segment k is "[Source k+1: label]\n" followed by the passage of document k, where the label defaults to "Unknown source" |
| Prompting.FormatContext | src/rag_engine.py:170-186 | the context is the numbered segments joined by blank lines |
| Prompting.ContextBlankIffNoPassages | src/rag_engine.py:170-186 | the context is "" (and is blank) exactly when there are no passages |
| Prompting.Window | src/rag_engine.py:201 | the last min(6, n) messages, in their original order |
| Prompting.AppendTurnLines | src/rag_engine.py:201-203 | the loop adds one "Human:"/"Assistant:" line per message of the window, in order |
| Prompting.BuildPrompt | src/rag_engine.py:188-209 | the joined parts equal the prompt: the system text, the context section when the context is not blank, the history section, the question and the open assistant turn |
| Prompting.PromptFrame | src/rag_engine.py:192-209 | the prompt starts with the system prompt and ends with "\n\nHuman: " + query + "\n\nAssistant: " |
| Prompting.PromptHasContextIff | src/rag_engine.py:195-196 | the "Relevant information" section follows the system prompt iff `context.strip()` is non-empty |
| Prompting.BarePrompt | src/rag_engine.py:188-209 | with no context and no history the prompt is the system prompt + "\n\nHuman: " + query + "\n\nAssistant: " |
| Prompting.OlderTurnsIgnored | src/rag_engine.py:201 | only the last six messages reach the prompt; older ones make no difference |
| Generation.GenerateResponse | src/rag_engine.py:211-228 | the fallback apology when the call raises; otherwise `Strip` of the `response` field ('' when it is missing), which is blank-free at both ends and empty exactly when the reply is all whitespace |
| Generation.YieldChunks | src/rag_engine.py:244-252 | the loop yields exactly what `StreamOutputWith` specifies |
| Generation.GenerateResponseStream | src/rag_engine.py:230-252 | what the generator yields is `StreamOutput` of the chunks and the failure |
| Generation.StreamStopsAtFirstDone | src/rag_engine.py:244-248 | up to the first `done` chunk, the output is the texts of the chunks up to and including it; nothing later, and no later failure, matters |
| Generation.StreamWithoutDone | src/rag_engine.py:244-252 | without a `done` chunk: every text in order, then exactly one fallback if the stream raised |
| Generation.SelectModel | src/rag_engine.py:71-84 | the loop and comprehension compute `SelectedModel` |
| Generation.FilterFirst | src/rag_engine.py:81-83 | the first element of a filtered list is the first element of the input that passes |
| Generation.SelectedModelCases | src/rag_engine.py:71-84 | the configured name stays if it (or name + ":latest") is listed, or if no listed model can generate; otherwise the first listed non-empty name without "embed" is chosen |
| Attribution.AnyOverlapIff | src/rag_engine.py:139-161 | the loop's flag is set iff some passage shares at least 3 meaningful words with the response |
| Attribution.ShouldShowSources | src/rag_engine.py:110-164 | the method's early returns, its loop with `break`, and its final test compute `SourcesShown` |
| Attribution.SourcesShownIff | src/rag_engine.py:110-164 | sources are shown iff there are passages, the query has no general keyword, the query has an academic keyword, and either the response has an academic keyword or some passage shares at least 3 meaningful words with it |
| Attribution.SmallTalkHidesSources | src/rag_engine.py:128-133 | a general keyword anywhere in the lower-cased query hides the sources, whatever the passages and the response |
| Attribution.WhichCountsAsSmallTalk | src/rag_engine.py:128-133 | the query "Which" never shows sources, because "hi" is a substring of "which" |
| Attribution.MorePassagesKeepSources | src/rag_engine.py:135-164 | adding passages never turns a shown-sources decision into a hidden one |
| Attribution.FilterByContentRelevance | src/rag_engine.py:92-108 | the loop computes `Filter` with the word-sharing test: exactly the passages sharing at least one lower-cased word with the query, with their multiplicity |
| Attribution.RelevanceInOrder | src/rag_engine.py:101-106 | the relevance filter of a concatenation is the concatenation of each half's, and a single passage is kept exactly when it shares a word: the passages keep their order |
| Engine.PreviewOf | src/rag_engine.py:284 | the content when at most 200 characters; otherwise its first 200 characters followed by "..." |
| Engine.DedupSources | src/rag_engine.py:276-285 | no more entries than passages |
| Engine.DedupCoversFiles | src/rag_engine.py:276-285 | the entries' files are exactly the passages' files (default 'Unknown') |
| Engine.DedupDistinct | src/rag_engine.py:276-285 | no file has two entries |
| Engine.DedupKeepsFirst | src/rag_engine.py:278-285 | every entry is built from the first passage of its file |
| Engine.DedupExtends | src/rag_engine.py:276-285 | more passages only add entries after the existing ones |
| Engine.CollectSources | src/rag_engine.py:276-293 | the dictionary loop followed by `values()` yields `DedupSources` |
| Engine.Reply | src/rag_engine.py:276-297 | the result holds the response, the deduplicated sources when `SourcesShown` holds (otherwise []), and the session id |
| Engine.RagEngine.constructor | src/rag_engine.py:55-90 | a fresh processor and memory, the system prompt, and the model chosen from the listing (the configured name when listing raises) |
| Engine.RagEngine.RetrieveRelevantDocuments | src/rag_engine.py:166-168 | what `search_documents` returns: the hits when a store is open and the search succeeds, [] otherwise |
| Engine.RagEngine.Answer | src/rag_engine.py:257-270 | the reply is generated from the prompt built from the retrieved passages and the history as it was before the turn |
| Engine.RagEngine.RecordExchange | src/rag_engine.py:272-274 | the session becomes `Appended` of the user turn, then of the assistant turn; nothing else changes |
| Engine.RagEngine.Chat | src/rag_engine.py:254-297 | the reply comes from the prompt built with the pre-turn history; the session then holds both new turns; the sources are the per-file first passages when the heuristic says so, and [] otherwise; the session id is echoed back |
| Engine.RagEngine.ClearConversation | src/rag_engine.py:299-301 | exactly that session is removed |
| Engine.RagEngine.ProcessDocuments | src/rag_engine.py:303-305 | the pipeline's result and store, as `ProcessAllPdfs` states them |

## Left out

- The Ollama client is not modelled: listing models, `generate`, and the streaming call. Its results are parameters. The options `temperature`, `num_predict` and `stop` (`TEMPERATURE`, `MAX_TOKENS`) are not modelled, because they only steer the external model.
- Chroma, embeddings, `similarity_search` (including how it uses `k`), `PyPDFLoader` and `RecursiveCharacterTextSplitter` are not modelled. Their outputs are parameters.
- The filesystem checks in `_initialize_vector_store` and `load_pdf_documents` are not modelled. Their outcome is part of `StoreEnv`, or a plain sequence of pages.
- `print`, the document counts printed after the pipeline, the interactive `main()` loops, `vectorize.py`, `app.py` (Flask routes, sessions) and `src/speech_service.py` are not modelled. They are I/O or outside the core.
- Environment parsing in `config.py` is not modelled. Its defaults are constants: `MAX_CONVERSATION_HISTORY = 5`, `OLLAMA_MODEL = "llama3.1"` and `SYSTEM_PROMPT`. `config.OLLAMA_MODEL` is a module-level variable that the connection test may overwrite; here it is the engine's `model` field, fixed when the engine is built.
- Concurrency is not modelled. The memory is a plain dict without locking, and each method runs alone.
- Builtins.Lower: lower-cases ASCII letters only. Python's `str.lower` also maps non-ASCII letters, so keyword and word tests on non-ASCII text can differ.
- Builtins.Split: only its token properties are stated, not that the tokens are exactly the maximal runs. Those definitions are the function's body.
- Builtins.NatToString: it only promises a non-empty result. The decimal rendering is its definition.
- Prompting.Segments: its contract gives only the length. The content of each segment is stated by `Prompting.SegmentAt`.
- Engine.RagEngine.Chat: it promises to keep the session cap invariant only if it held before the call. It does not require the invariant, because `add_message` does not either.
- A failure of `vector_store.add_documents` part-way through is modelled as leaving the store unchanged. Partial writes inside Chroma are not modelled.
- A store is "open" when it is not `None`. How Chroma objects behave under `if not self.vector_store` is assumed to be that test.

### Where the code and its comments differ

- `_should_show_sources` says "5+ words in common" in a comment. The code tests `overlap >= 3`, and the model follows the code.
- The general keywords are matched as substrings. Any query containing "hi", "time", "bye", etc. hides the sources, including "Which …", "this", "sometimes" and "Ovid's time". The model keeps this behaviour (`Attribution.WhichCountsAsSmallTalk`).
- The memory comment says it keeps "the last max_history messages". The code keeps `2 * max_history` messages. With `max_history == 0`, the slice `[-0:]` keeps the whole list, so nothing is dropped (`Memory.Appended`).
- The memory cap can cut a pair only if single messages are added. A full `chat` turn never leaves half an exchange (`Memory.TurnKeepsPairs`).
