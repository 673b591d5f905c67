/**
 * The vector-store side of `DocumentProcessor` in src/document_processor.py:
 * filename-based de-duplication when documents are added, the guard around
 * similarity search and the ingestion pipeline's return value. The Chroma
 * collection is abstracted to the sequence of records that `get()` returns.
 */
module VectorStore {
  import opened Builtins
  import opened Docs

  /** One stored entry as `vector_store.get()` lists it: its metadata (None for a null entry) and text. */
  datatype Record = Record(metadata: Option<map<string, string>>, content: string)

  /** What the collaborators do during one `add_documents_to_vector_store` call. */
  datatype StoreEnv = StoreEnv(
    initResult: Option<seq<Record>>, // the store the lazy initialisation yields (None: both attempts failed)
    listingFails: bool,          // `vector_store.get()` raises, so duplicates are not checked
    addFails: bool)              // `vector_store.add_documents` raises

  /** The return value of `add_documents_to_vector_store` and the `vector_store` field afterwards. */
  datatype AddResult = AddResult(ok: bool, store: Option<seq<Record>>)

  /** The source a stored record contributes: present only for a non-empty metadata dict with `source_file`. */
  function RecordSource(r: Record): Option<string> {
    if r.metadata.Some? && |r.metadata.value| > 0 && "source_file" in r.metadata.value
    then Some(r.metadata.value["source_file"])
    else None
  }

  /** `existing_sources`: the `source_file` of every stored record that has one, and nothing else. */
  function ExistingSources(records: seq<Record>): (sources: set<string>)
    ensures forall f :: f in sources <==> exists i | 0 <= i < |records| :: RecordSource(records[i]) == Some(f)
  {
    if records == [] then {}
    else
      var init := records[..|records| - 1];
      var last := records[|records| - 1];
      var sources := ExistingSources(init) + if RecordSource(last).Some? then {RecordSource(last).value} else {};
      assert forall i | 0 <= i < |init| :: init[i] == records[i];
      sources
  }

  /** `doc.metadata.get('source_file', '')`. */
  function DocSource(d: Document): string {
    MetaGet(d.metadata, "source_file", "")
  }

  /**
   * `new_documents`: the documents whose source is not stored yet, in input
   * order and with their multiplicity (several chunks of one new file all stay).
   */
  function NewDocuments(docs: seq<Document>, existing: set<string>): (r: seq<Document>)
    ensures forall d :: d in r <==> d in docs && DocSource(d) !in existing
    ensures forall d :: multiset(r)[d] == if DocSource(d) in existing then 0 else multiset(docs)[d]
  {
    Filter(docs, IsNew(existing))
  }

  /** The comprehension's test: the document's source is not stored yet. */
  function IsNew(existing: set<string>): Document -> bool {
    d => DocSource(d) !in existing
  }

  /** `new_documents` keeps the batch's order: it splits over a concatenation, one document at a time. */
  lemma NewDocumentsInOrder(a: seq<Document>, b: seq<Document>, d: Document, existing: set<string>)
    ensures NewDocuments(a + b, existing) == NewDocuments(a, existing) + NewDocuments(b, existing)
    ensures NewDocuments([d], existing) == if DocSource(d) in existing then [] else [d]
  {
    FilterAppend(a, b, IsNew(existing));
    FilterSingleton(d, IsNew(existing));
  }

  /** How `add_documents` records each document: its metadata and its text. */
  function ToRecords(docs: seq<Document>): (rs: seq<Record>)
    ensures |rs| == |docs|
    ensures forall i | 0 <= i < |docs| :: rs[i] == Record(Some(docs[i].metadata), docs[i].pageContent)
  {
    seq(|docs|, i requires 0 <= i < |docs| => Record(Some(docs[i].metadata), docs[i].pageContent))
  }

  /** The state transition of `add_documents_to_vector_store`. */
  function AddDocuments(store: Option<seq<Record>>, docs: seq<Document>, env: StoreEnv): AddResult {
    if docs == [] then AddResult(false, store)
    else
      var current := if store.Some? then store else env.initResult;
      if current.None? then AddResult(false, None)
      else
        var existing := if env.listingFails then {} else ExistingSources(current.value);
        var newDocs := NewDocuments(docs, existing);
        if newDocs == [] then AddResult(true, current)
        else if env.addFails then AddResult(false, current)
        else AddResult(true, Some(current.value + ToRecords(newDocs)))
  }

  /** An empty batch is refused and touches nothing. */
  lemma EmptyBatchRejected(store: Option<seq<Record>>, env: StoreEnv)
    ensures AddDocuments(store, [], env) == AddResult(false, store)
  {
  }

  /** A batch whose every source is already stored succeeds without changing the store. */
  lemma AllStoredIsNoOp(records: seq<Record>, docs: seq<Document>, env: StoreEnv)
    requires docs != [] && !env.listingFails
    requires forall d | d in docs :: DocSource(d) in ExistingSources(records)
    ensures AddDocuments(Some(records), docs, env) == AddResult(true, Some(records))
  {
    var newDocs := NewDocuments(docs, ExistingSources(records));
    assert forall d | d in docs :: d !in newDocs;
  }

  /**
   * Adding to an open store: the old records stay a prefix; when some
   * documents are new, a successful add appends exactly their records and
   * returns true, and a failing add returns false with the store as it was;
   * when none is new the call returns true and changes nothing. A listing
   * that raises counts no source as stored.
   */
  lemma AddAppendsNewDocuments(records: seq<Record>, docs: seq<Document>, env: StoreEnv)
    ensures var r := AddDocuments(Some(records), docs, env);
      r.store.Some? && r.store.value[..|records|] == records
    ensures var r := AddDocuments(Some(records), docs, env);
      var newDocs := NewDocuments(docs, if env.listingFails then {} else ExistingSources(records));
      docs != [] ==>
        r == if newDocs == [] then AddResult(true, Some(records))
             else if env.addFails then AddResult(false, Some(records))
             else AddResult(true, Some(records + ToRecords(newDocs)))
  {
    var newDocs := NewDocuments(docs, if env.listingFails then {} else ExistingSources(records));
    if docs != [] && newDocs != [] && !env.addFails {
      TakeAppend(records, ToRecords(newDocs));
    } else {
      TakeAll(records);
    }
  }

  /** Stored records keep their sources when more are appended, and appended records add theirs. */
  lemma ExistingSourcesAppend(records: seq<Record>, added: seq<Record>)
    ensures ExistingSources(records) <= ExistingSources(records + added)
    ensures forall j | 0 <= j < |added| && RecordSource(added[j]).Some? ::
      RecordSource(added[j]).value in ExistingSources(records + added)
  {
    var all := records + added;
    forall f | f in ExistingSources(records) ensures f in ExistingSources(all) {
      var i :| 0 <= i < |records| && RecordSource(records[i]) == Some(f);
      assert all[i] == records[i];
    }
    forall j | 0 <= j < |added| && RecordSource(added[j]).Some?
      ensures RecordSource(added[j]).value in ExistingSources(all)
    {
      assert all[|records| + j] == added[j];
    }
  }

  /**
   * Idempotence: after a successful add, adding the same batch again (every
   * document carrying a `source_file`, and the store listing its contents)
   * succeeds and changes nothing.
   */
  lemma {:induction false} SecondAddIsNoOp(store: Option<seq<Record>>, docs: seq<Document>, env: StoreEnv, env2: StoreEnv)
    requires forall d | d in docs :: "source_file" in d.metadata
    requires AddDocuments(store, docs, env).ok
    requires !env2.listingFails
    ensures var r := AddDocuments(store, docs, env);
      AddDocuments(r.store, docs, env2) == AddResult(true, r.store)
  {
    var current := if store.Some? then store else env.initResult;
    var existing := if env.listingFails then {} else ExistingSources(current.value);
    var newDocs := NewDocuments(docs, existing);
    var after := if newDocs == [] then current.value else current.value + ToRecords(newDocs);
    assert AddDocuments(store, docs, env).store == Some(after);
    if newDocs != [] {
      ExistingSourcesAppend(current.value, ToRecords(newDocs));
      NewSourcesStored(current.value, newDocs);
    }
    forall d | d in docs ensures DocSource(d) in ExistingSources(after) {
      if d in newDocs {
        assert DocSource(d) in ExistingSources(after);
      } else {
        assert DocSource(d) in existing;
      }
    }
    AllStoredIsNoOp(after, docs, env2);
  }

  /** Appending documents that carry a `source_file` makes each of their sources a stored source. */
  lemma NewSourcesStored(records: seq<Record>, docs: seq<Document>)
    requires forall d | d in docs :: "source_file" in d.metadata
    ensures forall d | d in docs :: DocSource(d) in ExistingSources(records + ToRecords(docs))
  {
    var added := ToRecords(docs);
    forall d | d in docs ensures DocSource(d) in ExistingSources(records + added) {
      var j :| 0 <= j < |docs| && docs[j] == d;
      assert RecordSource(added[j]) == Some(DocSource(d));
      ExistingSourcesAppend(records, added);
    }
  }

  /** What `search_documents` returns: the hits (None when the search raises), or none while no store is open. */
  function Found(store: Option<seq<Record>>, hits: Option<seq<Document>>): (results: seq<Document>)
    ensures store.None? || hits.None? ==> results == []
    ensures store.Some? && hits.Some? ==> results == hits.value
  {
    if store.Some? && hits.Some? then hits.value else []
  }

  class DocumentProcessor {
    /** `self.vector_store`: None until a store has been opened. */
    var vectorStore: Option<seq<Record>>

    /** The store is whatever the start-up initialisation produced (None when it failed). */
    constructor (initialized: Option<seq<Record>>)
      ensures vectorStore == initialized
    {
      vectorStore := initialized;
    }

    /** `add_documents_to_vector_store`. */
    method AddDocumentsToVectorStore(documents: seq<Document>, env: StoreEnv) returns (ok: bool)
      modifies this
      ensures AddResult(ok, vectorStore) == AddDocuments(old(vectorStore), documents, env)
    {
      if documents == [] {
        return false;
      }
      if vectorStore.None? {
        // `_initialize_vector_store(create_if_missing=True)`, then a new `Chroma(...)` as a second try
        vectorStore := env.initResult;
        if vectorStore.None? {
          return false;
        }
      }
      var existing: set<string> := {};
      if !env.listingFails {
        existing := ExistingSources(vectorStore.value);
      }
      var newDocuments := NewDocuments(documents, existing);
      if newDocuments == [] {
        return true;
      }
      if env.addFails {
        return false;
      }
      vectorStore := Some(vectorStore.value + ToRecords(newDocuments));
      ok := true;
    }

    /**
     * `search_documents`: the similarity-search hits (`hits`; None when the
     * search raises), or `[]` when no store is open or the search failed.
     */
    method SearchDocuments(query: string, k: int, hits: Option<seq<Document>>) returns (results: seq<Document>)
      ensures results == Found(vectorStore, hits)
    {
      if vectorStore.None? {
        return [];
      }
      results := if hits.Some? then hits.value else [];
    }

    /**
     * `process_all_pdfs`: `loaded` is what `load_pdf_documents` found and
     * `split` what the text splitter makes of it. No pages or no chunks give
     * false with the store untouched; otherwise the result is the add step's.
     */
    method ProcessAllPdfs(loaded: seq<Document>, split: seq<Document>, env: StoreEnv) returns (ok: bool)
      modifies this
      ensures loaded == [] || split == [] ==> !ok && vectorStore == old(vectorStore)
      ensures loaded != [] && split != [] ==> AddResult(ok, vectorStore) == AddDocuments(old(vectorStore), split, env)
    {
      if loaded == [] {
        return false;
      }
      var chunks := ChunkDocuments(loaded, split);
      if chunks == [] {
        return false;
      }
      ok := AddDocumentsToVectorStore(chunks, env);
    }
  }

  /** `chunk_documents`: `[]` for no input, otherwise the splitter's output. */
  function ChunkDocuments(documents: seq<Document>, split: seq<Document>): (chunks: seq<Document>)
    ensures documents == [] ==> chunks == []
    ensures documents != [] ==> chunks == split
  {
    if documents == [] then [] else split
  }
}
