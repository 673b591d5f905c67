/**
 * The keyword and word-overlap heuristics of `RAGEngine` in src/rag_engine.py:
 * `_should_show_sources`, which decides whether retrieved passages are cited
 * back to the user, and `_filter_by_content_relevance`.
 */
module Attribution {
  import opened Builtins
  import opened Docs

  /** `neo_latin_keywords`: subject-matter terms; matched as substrings. */
  const AcademicKeywords: seq<string> := [
    "neo-latin", "neolatin", "latin", "renaissance", "literature",
    "petrarch", "humanist", "classical", "manuscript", "poetry",
    "prose", "scholarly", "studies", "fifteenth", "sixteenth",
    "seventeenth", "eighteenth", "century", "medieval", "humanistic"]

  /** `general_keywords`: small talk and off-topic terms; matched as substrings. */
  const GeneralKeywords: seq<string> := [
    "weather", "time", "today", "tomorrow", "how are you",
    "hello", "hi", "thanks", "thank you", "goodbye", "bye",
    "current", "news", "politics", "sports", "food", "cooking"]

  /** `common_words`: the stop words dropped before comparing a passage with the response. */
  const CommonWords: set<string> := {
    "the", "a", "an", "and", "or", "but", "in", "on", "at", "to",
    "for", "of", "with", "by", "from", "is", "are", "was", "were",
    "have", "has", "had", "do", "does", "did", "will", "would",
    "could", "should", "can", "may", "might", "this", "that",
    "these", "those", "i", "you", "he", "she", "it", "we", "they"}

  /** The distinct whitespace-separated words of `text` that are not stop words. */
  function MeaningfulWords(text: string): set<string> {
    WordSet(text) - CommonWords
  }

  /** A passage shares at least three meaningful words with the lower-cased response. */
  predicate Overlaps(d: Document, responseLower: string) {
    |MeaningfulWords(Lower(d.pageContent)) * MeaningfulWords(responseLower)| >= 3
  }

  /** `has_content_overlap` once the loop over the passages has finished. */
  predicate AnyOverlap(docs: seq<Document>, responseLower: string) {
    docs != [] && (Overlaps(docs[0], responseLower) || AnyOverlap(docs[1..], responseLower))
  }

  lemma {:induction false} AnyOverlapIff(docs: seq<Document>, responseLower: string)
    ensures AnyOverlap(docs, responseLower) <==> exists d | d in docs :: Overlaps(d, responseLower)
  {
    if docs != [] {
      var tail := docs[1..];
      AnyOverlapIff(tail, responseLower);
      assert docs[0] in docs;
      assert forall d | d in docs :: d == docs[0] || d in tail;
      assert forall d | d in tail :: d in docs;
    }
  }

  /** The decision `_should_show_sources` returns, in the order the source tests it. */
  predicate SourcesShown(docs: seq<Document>, query: string, response: string) {
    if docs == [] then false
    else
      var q := Lower(query);
      var r := Lower(response);
      if AnyIn(GeneralKeywords, q) then false
      else AnyIn(AcademicKeywords, q) && (AnyIn(AcademicKeywords, r) || AnyOverlap(docs, r))
  }

  /** `_should_show_sources`. */
  method ShouldShowSources(documents: seq<Document>, query: string, response: string) returns (show: bool)
    ensures show == SourcesShown(documents, query, response)
  {
    if documents == [] {
      return false;
    }
    var queryLower := Lower(query);
    var responseLower := Lower(response);
    var queryHasAcademicKeywords := AnyIn(AcademicKeywords, queryLower);
    if AnyIn(GeneralKeywords, queryLower) {
      return false;
    }
    var responseHasSpecificInfo := AnyIn(AcademicKeywords, responseLower);
    var hasContentOverlap := false;
    var i := 0;
    while i < |documents|
      invariant 0 <= i <= |documents|
      invariant AnyOverlap(documents, responseLower) == (hasContentOverlap || AnyOverlap(documents[i..], responseLower))
    {
      var docWords := WordSet(Lower(documents[i].pageContent));
      var responseWords := WordSet(responseLower);
      var overlap := |(docWords - CommonWords) * (responseWords - CommonWords)|;
      assert documents[i..][1..] == documents[i + 1..];
      if overlap >= 3 {
        hasContentOverlap := true;
        break;
      }
      i := i + 1;
    }
    show := queryHasAcademicKeywords && (responseHasSpecificInfo || hasContentOverlap);
  }

  /**
   * What the heuristic decides, with the `any(...)` tests and the loop read as
   * quantifiers: there are passages, the query mentions no general keyword,
   * the query mentions an academic keyword, and either the response mentions
   * one or some passage shares three meaningful words with it.
   */
  lemma SourcesShownIff(docs: seq<Document>, query: string, response: string)
    ensures SourcesShown(docs, query, response) <==>
      && docs != []
      && !(exists k | k in GeneralKeywords :: Contains(Lower(query), k))
      && (exists k | k in AcademicKeywords :: Contains(Lower(query), k))
      && (|| (exists k | k in AcademicKeywords :: Contains(Lower(response), k))
          || (exists d | d in docs :: Overlaps(d, Lower(response))))
  {
    AnyInIff(GeneralKeywords, Lower(query));
    AnyInIff(AcademicKeywords, Lower(query));
    AnyInIff(AcademicKeywords, Lower(response));
    AnyOverlapIff(docs, Lower(response));
  }

  /** A query that contains any general keyword never shows sources, whatever the passages and response. */
  lemma SmallTalkHidesSources(docs: seq<Document>, query: string, response: string, k: string)
    requires k in GeneralKeywords && Contains(Lower(query), k)
    ensures !SourcesShown(docs, query, response)
  {
    SourcesShownIff(docs, query, response);
  }

  /** The general keywords are substrings, not words: "hi" inside "which" is enough. */
  lemma WhichCountsAsSmallTalk(docs: seq<Document>, response: string)
    ensures !SourcesShown(docs, "Which", response)
  {
    assert Lower("Which") == "which";
    assert Contains("hich", "hi");
    SmallTalkHidesSources(docs, "Which", response, "hi");
  }

  /** Retrieving more passages never withdraws sources that were shown. */
  lemma MorePassagesKeepSources(docs: seq<Document>, more: seq<Document>, query: string, response: string)
    requires SourcesShown(docs, query, response)
    ensures SourcesShown(docs + more, query, response)
  {
    SourcesShownIff(docs, query, response);
    SourcesShownIff(docs + more, query, response);
    assert forall d | d in docs :: d in docs + more;
  }

  // ---------------------------------------------------------------------------

  /** A passage shares at least one lower-cased whitespace word with the query. */
  predicate SharesWord(d: Document, query: string) {
    |WordSet(Lower(query)) * WordSet(Lower(d.pageContent))| >= 1
  }

  /** The filter's test, as a function value. */
  function RelevantTo(query: string): Document -> bool {
    d => SharesWord(d, query)
  }

  /** The relevance filter keeps the passages' order: it splits over a concatenation, one passage at a time. */
  lemma RelevanceInOrder(a: seq<Document>, b: seq<Document>, d: Document, query: string)
    ensures Filter(a + b, RelevantTo(query)) == Filter(a, RelevantTo(query)) + Filter(b, RelevantTo(query))
    ensures Filter([d], RelevantTo(query)) == if SharesWord(d, query) then [d] else []
  {
    FilterAppend(a, b, RelevantTo(query));
    FilterSingleton(d, RelevantTo(query));
  }

  /** `_filter_by_content_relevance`: the passages sharing a word with the query, in order, duplicates kept. */
  method FilterByContentRelevance(documents: seq<Document>, query: string) returns (relevant: seq<Document>)
    ensures relevant == Filter(documents, RelevantTo(query))
    ensures forall d :: d in relevant <==> d in documents && SharesWord(d, query)
    ensures forall d :: multiset(relevant)[d] == if SharesWord(d, query) then multiset(documents)[d] else 0
  {
    if documents == [] {
      return [];
    }
    var queryWords := WordSet(Lower(query));
    relevant := [];
    for i := 0 to |documents|
      invariant relevant == Filter(documents[..i], RelevantTo(query))
    {
      var doc := documents[i];
      var contentWords := WordSet(Lower(doc.pageContent));
      var overlap := |queryWords * contentWords|;
      TakeOfTake(documents, i);
      if overlap >= 1 {
        relevant := relevant + [doc];
      }
    }
    TakeAll(documents);
  }
}
