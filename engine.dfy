/**
 * `RAGEngine` of src/rag_engine.py: the source list a chat turn returns, and
 * the turn itself — retrieval, prompt, generation, memory update and the
 * decision whether to show sources.
 */
module Engine {
  import opened Builtins
  import opened Docs
  import opened Memory
  import opened VectorStore
  import opened Prompting
  import opened Generation
  import opened Attribution

  /** One entry of a reply's `sources`: the file and a preview of the passage. */
  datatype SourceRef = SourceRef(file: string, contentPreview: string)

  /** The dictionary `chat` returns. */
  datatype ChatResult = ChatResult(response: string, sources: seq<SourceRef>, sessionId: string)

  /** The file a passage came from, or "Unknown". */
  function FileOf(d: Document): string {
    MetaGet(d.metadata, "source_file", "Unknown")
  }

  /** The first 200 characters of the passage, with "..." when it is longer. */
  function PreviewOf(d: Document): (p: string)
    ensures |d.pageContent| <= 200 ==> p == d.pageContent
    ensures |d.pageContent| > 200 ==> |p| == 203 && p[..200] == d.pageContent[..200] && p[200..] == "..."
  {
    Abbreviate(d.pageContent, 200)
  }

  function SourceOf(d: Document): SourceRef {
    SourceRef(FileOf(d), PreviewOf(d))
  }

  function Files(refs: seq<SourceRef>): set<string> {
    set k | 0 <= k < |refs| :: refs[k].file
  }

  function DocFiles(docs: seq<Document>): set<string> {
    set i | 0 <= i < |docs| :: FileOf(docs[i])
  }

  /** Whether passage `i` is the first (best-ranked) one from its file. */
  predicate FirstOfItsFile(docs: seq<Document>, i: int) {
    0 <= i < |docs| && forall j | 0 <= j < i :: FileOf(docs[j]) != FileOf(docs[i])
  }

  /**
   * The values of `sources_dict` after the loop in `chat`: one entry per file,
   * taken from the file's first passage, in the order the files first appear.
   */
  function DedupSources(docs: seq<Document>): (refs: seq<SourceRef>)
    ensures |refs| <= |docs|
  {
    if docs == [] then []
    else
      var refs := DedupSources(docs[..|docs| - 1]);
      var d := docs[|docs| - 1];
      if FileOf(d) in Files(refs) then refs else refs + [SourceOf(d)]
  }

  /** Every file among the passages has an entry, and no other file does. */
  lemma {:induction false} DedupCoversFiles(docs: seq<Document>)
    ensures Files(DedupSources(docs)) == DocFiles(docs)
  {
    if docs != [] {
      var init := docs[..|docs| - 1];
      var d := docs[|docs| - 1];
      DedupCoversFiles(init);
      var refs := DedupSources(init);
      assert DocFiles(docs) == DocFiles(init) + {FileOf(d)} by {
        forall f | f in DocFiles(docs) ensures f in DocFiles(init) + {FileOf(d)} {
          var i :| 0 <= i < |docs| && FileOf(docs[i]) == f;
          if i < |init| { assert init[i] == docs[i]; }
        }
        forall f | f in DocFiles(init) ensures f in DocFiles(docs) {
          var i :| 0 <= i < |init| && FileOf(init[i]) == f;
          assert docs[i] == init[i];
        }
        assert FileOf(docs[|docs| - 1]) == FileOf(d);
      }
      if FileOf(d) !in Files(refs) {
        FilesSnoc(refs, SourceOf(d));
      }
    }
  }

  /** No file has two entries. */
  lemma {:induction false} DedupDistinct(docs: seq<Document>)
    ensures forall a, b | 0 <= a < b < |DedupSources(docs)| ::
      DedupSources(docs)[a].file != DedupSources(docs)[b].file
  {
    if docs != [] {
      var init := docs[..|docs| - 1];
      var d := docs[|docs| - 1];
      DedupDistinct(init);
      var refs := DedupSources(init);
      if FileOf(d) !in Files(refs) {
        var ext := refs + [SourceOf(d)];
        assert DedupSources(docs) == ext;
        forall a, b | 0 <= a < b < |ext| ensures ext[a].file != ext[b].file {
          assert ext[a] == refs[a];
          if b == |refs| {
            assert ext[b].file == FileOf(d);
            assert refs[a].file in Files(refs);
          } else {
            assert ext[b] == refs[b];
          }
        }
      } else {
        assert DedupSources(docs) == refs;
      }
    }
  }

  predicate FromFirstPassages(docs: seq<Document>, refs: seq<SourceRef>) {
    forall k | 0 <= k < |refs| :: exists i | 0 <= i < |docs| && FirstOfItsFile(docs, i) :: refs[k] == SourceOf(docs[i])
  }

  /** Each entry is made from the first passage of its file. */
  lemma {:induction false} DedupKeepsFirst(docs: seq<Document>)
    ensures FromFirstPassages(docs, DedupSources(docs))
  {
    if docs != [] {
      var init := docs[..|docs| - 1];
      var last := |docs| - 1;
      var d := docs[last];
      DedupKeepsFirst(init);
      var refs := DedupSources(init);
      var out := DedupSources(docs);
      forall k | 0 <= k < |out| ensures exists i | 0 <= i < |docs| && FirstOfItsFile(docs, i) :: out[k] == SourceOf(docs[i]) {
        if k < |refs| {
          assert out[k] == refs[k];
          var i :| 0 <= i < |init| && FirstOfItsFile(init, i) && refs[k] == SourceOf(init[i]);
          assert docs[i] == init[i];
          assert forall j | 0 <= j < i :: docs[j] == init[j];
          assert FirstOfItsFile(docs, i);
        } else {
          assert FileOf(d) !in Files(refs) && out[k] == SourceOf(docs[last]);
          DedupCoversFiles(init);
          forall j | 0 <= j < last ensures FileOf(docs[j]) != FileOf(docs[last]) {
            assert docs[j] == init[j];
            assert FileOf(init[j]) in DocFiles(init);
          }
          assert FirstOfItsFile(docs, last);
        }
      }
      assert forall k | 0 <= k < |out| :: exists i | 0 <= i < |docs| && FirstOfItsFile(docs, i) :: out[k] == SourceOf(docs[i]);
      assert FromFirstPassages(docs, out);
    }
  }

  /** More passages only add entries after the existing ones. */
  lemma {:induction false} DedupExtends(docs: seq<Document>, more: seq<Document>)
    ensures var refs := DedupSources(docs);
      |refs| <= |DedupSources(docs + more)| && DedupSources(docs + more)[..|refs|] == refs
    decreases |more|
  {
    if more != [] {
      var all := docs + more;
      var init := more[..|more| - 1];
      assert all[..|all| - 1] == docs + init;
      DedupExtends(docs, init);
    } else {
      assert docs + more == docs;
    }
  }

  /**
   * The loop in `chat` that fills `sources_dict`, and
   * `list(sources_dict.values())`. The dictionary is kept as its key set and
   * its values in insertion order, which is the order `values()` returns.
   */
  method CollectSources(relevantDocs: seq<Document>) returns (sources: seq<SourceRef>)
    ensures sources == DedupSources(relevantDocs)
  {
    var dictKeys: set<string> := {};
    sources := [];
    for i := 0 to |relevantDocs|
      invariant sources == DedupSources(relevantDocs[..i])
      invariant dictKeys == Files(sources)
    {
      var doc := relevantDocs[i];
      var sourceFile := MetaGet(doc.metadata, "source_file", "Unknown");
      DedupStep(relevantDocs, i);
      if sourceFile !in dictKeys {
        var preview := if |doc.pageContent| > 200 then doc.pageContent[..200] + "..." else doc.pageContent;
        FilesSnoc(sources, SourceOf(doc));
        dictKeys := dictKeys + {sourceFile};
        sources := sources + [SourceRef(sourceFile, preview)];
      }
    }
    TakeAll(relevantDocs);
  }

  /** One more passage either repeats a file or adds its entry at the end. */
  lemma DedupStep(docs: seq<Document>, i: nat)
    requires i < |docs|
    ensures var refs := DedupSources(docs[..i]);
      DedupSources(docs[..i + 1]) == if FileOf(docs[i]) in Files(refs) then refs else refs + [SourceOf(docs[i])]
  {
    TakeOfTake(docs, i);
  }

  lemma FilesSnoc(refs: seq<SourceRef>, r: SourceRef)
    ensures Files(refs + [r]) == Files(refs) + {r.file}
  {
    var ext := refs + [r];
    forall f | f in Files(ext) ensures f in Files(refs) + {r.file} {
      var k :| 0 <= k < |ext| && ext[k].file == f;
      if k < |refs| { assert ext[k] == refs[k]; }
    }
    forall f | f in Files(refs) ensures f in Files(ext) {
      var k :| 0 <= k < |refs| && refs[k].file == f;
      assert ext[k] == refs[k];
    }
    assert ext[|refs|].file == r.file;
  }

  /** The end of `chat`: the sources, one per file, and the result dictionary. */
  method Reply(relevantDocs: seq<Document>, userQuery: string, response: string, sessionId: string)
    returns (result: ChatResult)
    ensures result == ChatResult(response,
      if SourcesShown(relevantDocs, userQuery, response) then DedupSources(relevantDocs) else [], sessionId)
  {
    var sources := CollectSources(relevantDocs);
    var showSources := ShouldShowSources(relevantDocs, userQuery, response);
    result := ChatResult(response, if showSources then sources else [], sessionId);
  }

  class RagEngine {
    const documentProcessor: DocumentProcessor
    const memory: ConversationMemory
    /** `config.SYSTEM_PROMPT`, as read when the engine is built. */
    const systemPrompt: string
    /** `config.OLLAMA_MODEL`, which the connection test may replace at start-up. */
    const model: string

    /**
     * `RAGEngine()`: the store as the start-up initialisation left it, a
     * memory with the configured window, and the model chosen from the
     * server's listing (`None` when listing the models raised).
     */
    constructor (store: Option<seq<Record>>, configuredModel: string, listing: Option<seq<string>>)
      ensures fresh(documentProcessor) && fresh(memory)
      ensures documentProcessor.vectorStore == store
      ensures memory.maxHistory == MaxConversationHistory && memory.conversations == map[] && memory.Valid()
      ensures systemPrompt == SystemPrompt
      ensures model == if listing.Some? then SelectedModel(configuredModel, listing.value) else configuredModel
    {
      documentProcessor := new DocumentProcessor(store);
      memory := new ConversationMemory(None);
      systemPrompt := SystemPrompt;
      var chosen := configuredModel;
      if listing.Some? {
        chosen := SelectModel(configuredModel, listing.value);
      }
      model := chosen;
    }

    /** `retrieve_relevant_documents` with its default of four passages. */
    method RetrieveRelevantDocuments(query: string, hits: Option<seq<Document>>) returns (docs: seq<Document>)
      ensures docs == Found(documentProcessor.vectorStore, hits)
    {
      docs := documentProcessor.SearchDocuments(query, 4, hits);
    }

    /**
     * `chat`. `hits` is what the similarity search returns (None when it
     * raises) and `llm(model, prompt)` what the server does with a prompt.
     * The reply is generated from the prompt built with the history as it
     * was before the turn; the turn then appends the question and the reply;
     * sources, one per file, are returned only when the attribution test
     * passes.
     */
    method Chat(userQuery: string, sessionId: string, hits: Option<seq<Document>>,
                llm: (string, string) -> Completion) returns (result: ChatResult)
      modifies memory
      ensures old(memory.Valid()) ==> memory.Valid()
      ensures result.response == GenerateResponse(Ask(llm, model, Prompt(systemPrompt, userQuery,
        ContextBlock(Found(old(documentProcessor.vectorStore), hits)), old(memory.GetConversationHistory(sessionId)))))
      ensures result.sources == if SourcesShown(Found(old(documentProcessor.vectorStore), hits), userQuery, result.response)
        then DedupSources(Found(old(documentProcessor.vectorStore), hits)) else []
      ensures result.sessionId == sessionId
      ensures memory.conversations == old(memory.conversations)[sessionId :=
        Appended(Appended(old(memory.GetConversationHistory(sessionId)), Message("user", userQuery), memory.maxHistory),
                 Message("assistant", result.response), memory.maxHistory)]
    {
      var relevantDocs, response := Answer(userQuery, sessionId, hits, llm);
      RecordExchange(sessionId, userQuery, response);
      result := Reply(relevantDocs, userQuery, response, sessionId);
    }

    /** The part of `chat` that produces the reply: retrieval, context, history, prompt and generation. */
    method Answer(userQuery: string, sessionId: string, hits: Option<seq<Document>>,
                  llm: (string, string) -> Completion) returns (relevantDocs: seq<Document>, response: string)
      ensures relevantDocs == Found(old(documentProcessor.vectorStore), hits)
      ensures response ==
        GenerateResponse(Ask(llm, model, Prompt(systemPrompt, userQuery, ContextBlock(relevantDocs), old(memory.GetConversationHistory(sessionId)))))
    {
      relevantDocs := RetrieveRelevantDocuments(userQuery, hits);
      var context := FormatContext(relevantDocs);
      var conversationHistory := memory.GetConversationHistory(sessionId);
      var prompt := BuildPrompt(systemPrompt, userQuery, context, conversationHistory);
      response := GenerateResponse(Ask(llm, model, prompt));
    }

    /** The two `add_message` calls of `chat`: the question, then the reply. */
    method RecordExchange(sessionId: string, userQuery: string, response: string)
      modifies memory
      ensures old(memory.Valid()) ==> memory.Valid()
      ensures var history := old(memory.GetConversationHistory(sessionId));
        memory.conversations == old(memory.conversations)[sessionId :=
          Appended(Appended(history, Message("user", userQuery), memory.maxHistory),
                   Message("assistant", response), memory.maxHistory)]
    {
      ghost var before := memory.conversations;
      ghost var asked := Appended(memory.GetConversationHistory(sessionId), Message("user", userQuery), memory.maxHistory);
      memory.AddMessage(sessionId, "user", userQuery);
      assert memory.conversations == before[sessionId := asked];
      assert memory.GetConversationHistory(sessionId) == asked;
      memory.AddMessage(sessionId, "assistant", response);
      ghost var answered := Appended(asked, Message("assistant", response), memory.maxHistory);
      assert memory.conversations == before[sessionId := asked][sessionId := answered];
      UpdateTwice(before, sessionId, asked, answered);
    }

    /** `clear_conversation`. */
    method ClearConversation(sessionId: string)
      modifies memory
      ensures old(memory.Valid()) ==> memory.Valid()
      ensures memory.conversations == old(memory.conversations) - {sessionId}
    {
      memory.ClearConversation(sessionId);
    }

    /** `process_documents`: ingest the PDFs through the document processor. */
    method ProcessDocuments(loaded: seq<Document>, split: seq<Document>, env: StoreEnv) returns (ok: bool)
      modifies documentProcessor
      ensures loaded == [] || split == [] ==> !ok && documentProcessor.vectorStore == old(documentProcessor.vectorStore)
      ensures loaded != [] && split != [] ==>
        AddResult(ok, documentProcessor.vectorStore) == AddDocuments(old(documentProcessor.vectorStore), split, env)
    {
      ok := documentProcessor.ProcessAllPdfs(loaded, split, env);
    }
  }
}
