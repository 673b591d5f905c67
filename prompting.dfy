/**
 * Prompt assembly in `RAGEngine` of src/rag_engine.py: `format_context`
 * renders the retrieved passages, `build_prompt` puts the system prompt,
 * that context, the recent history and the new question together.
 */
module Prompting {
  import opened Builtins
  import opened Docs
  import opened Memory

  /** `config.SYSTEM_PROMPT`. */
  const SystemPrompt: string :=
    "You are Jozef, a knowledgeable assistant specializing in Neo-Latin Studies. \n"
    + "You have access to handbooks and scholarly materials about Neo-Latin literature, history, and culture.\n"
    + "\n"
    + "Guidelines:\n"
    + "- Provide accurate, scholarly information about Neo-Latin topics\n"
    + "- Draw from your knowledge of the handbooks when relevant\n"
    + "- Answer naturally without explicitly mentioning your sources unless asked\n"
    + "- If you're unsure about something, acknowledge the uncertainty\n"
    + "- Be helpful and educational in your responses\n"
    + "- Maintain an academic but approachable tone\n"

  // ---------------------------------------------------------------------------
  // format_context

  /** The label of a passage: its `source_file`, or "Unknown source". */
  function SourceLabel(d: Document): string {
    MetaGet(d.metadata, "source_file", "Unknown source")
  }

  /**
   * The stripped page text, cut to 500 characters plus "..." exactly when it
   * is longer than 500 characters.
   */
  function Passage(d: Document): (p: string)
    ensures var s := Strip(d.pageContent);
      && |p| <= 503
      && (|s| <= 500 ==> p == s)
      && (|s| > 500 ==> p == s[..500] + "...")
  {
    Abbreviate(Strip(d.pageContent), 500)
  }

  /** The `i`-th (1-based) segment of the context block. */
  function Segment(i: nat, d: Document): string {
    "[Source " + NatToString(i) + ": " + SourceLabel(d) + "]\n" + Passage(d)
  }

  /** One segment per passage, numbered from 1 in retrieval order. */
  function Segments(docs: seq<Document>): (parts: seq<string>)
    ensures |parts| == |docs|
  {
    if docs == [] then [] else Segments(docs[..|docs| - 1]) + [Segment(|docs|, docs[|docs| - 1])]
  }

  /** Segment `k` is the passage `docs[k]` under the number `k + 1`. */
  lemma {:induction false} SegmentAt(docs: seq<Document>, k: nat)
    requires k < |docs|
    ensures Segments(docs)[k] == Segment(k + 1, docs[k])
  {
    var init, last := docs[..|docs| - 1], Segment(|docs|, docs[|docs| - 1]);
    assert Segments(docs) == Segments(init) + [last];
    if k < |init| {
      SegmentAt(init, k);
      IndexAppend(Segments(init), [last], k);
      assert init[k] == docs[k];
    } else {
      assert k + 1 == |docs|;
    }
  }

  /** The context block: the numbered segments joined by blank lines. */
  function ContextBlock(docs: seq<Document>): string {
    Join(Segments(docs), "\n\n")
  }

  /** `format_context`. */
  method FormatContext(documents: seq<Document>) returns (context: string)
    ensures context == ContextBlock(documents)
  {
    if documents == [] {
      return "";
    }
    var contextParts: seq<string> := [];
    for i := 0 to |documents|
      invariant contextParts == Segments(documents[..i])
    {
      var doc := documents[i];
      var source := MetaGet(doc.metadata, "source_file", "Unknown source");
      var content := Strip(doc.pageContent);
      if |content| > 500 {
        content := content[..500] + "...";
      }
      var segment := "[Source " + NatToString(i + 1) + ": " + source + "]\n" + content;
      assert segment == Segment(i + 1, doc) by {
        assert content == Passage(doc);
      }
      TakeOfTake(documents, i);
      contextParts := contextParts + [segment];
    }
    TakeAll(documents);
    context := Join(contextParts, "\n\n");
  }

  /**
   * No passages give the empty context, and any passage gives a context that
   * is not blank: the prompt builder sees "no context" exactly when nothing
   * was retrieved.
   */
  lemma ContextBlankIffNoPassages(docs: seq<Document>)
    ensures ContextBlock(docs) == "" <==> docs == []
    ensures AllSpace(ContextBlock(docs)) <==> docs == []
  {
    if docs != [] {
      var parts := Segments(docs);
      SegmentAt(docs, 0);
      assert parts[0][0] == '[';
      JoinStartsWithFirst(parts, "\n\n");
      assert !IsSpace(ContextBlock(docs)[0]);
    }
  }

  // ---------------------------------------------------------------------------
  // build_prompt

  // Written in two pieces so that the verifier can look up its leading characters.
  const ContextHeader: string := "\nRelevant information " + "from Neo-Latin handbooks:\n"
  const HistoryHeader: string := "\nConversation history:"

  /** "Human" for a `user` message and "Assistant" for every other role. */
  function Speaker(m: Message): string {
    if m.role == "user" then "Human" else "Assistant"
  }

  function TurnLine(m: Message): string {
    Speaker(m) + ": " + m.content
  }

  /** `conversation_history[-6:]`: the last three exchanges. */
  function Window(h: seq<Message>): (w: seq<Message>)
    ensures |w| == Min(6, |h|) && w == h[|h| - |w|..]
  {
    PySliceFrom(h, -6)
  }

  /** The turns, each on a line of its own. */
  function TurnLines(ms: seq<Message>): string {
    if ms == [] then "" else TurnLines(ms[..|ms| - 1]) + "\n" + TurnLine(ms[|ms| - 1])
  }

  /** The closing lines: the question as a Human turn, then an open Assistant turn. */
  function QuestionTurn(query: string): string {
    "\n\nHuman: " + query + "\n\nAssistant: "
  }

  function ContextSection(context: string): string {
    if Strip(context) != "" then "\n" + (ContextHeader + context) else ""
  }

  function HistorySection(history: seq<Message>): string {
    if history == [] then "" else "\n" + (HistoryHeader + TurnLines(Window(history)))
  }

  /**
   * The prompt as one string: the system text, the context section when the
   * context is not blank, the history section when there is history, then the
   * question and the open assistant turn.
   */
  function Prompt(system: string, query: string, context: string, history: seq<Message>): string {
    system + ContextSection(context) + HistorySection(history) + QuestionTurn(query)
  }

  /**
   * `build_prompt`: the parts it collects, joined with newlines.
   * `systemPrompt` is `config.SYSTEM_PROMPT`.
   */
  method BuildPrompt(systemPrompt: string, userQuery: string, context: string, conversationHistory: seq<Message>)
    returns (prompt: string)
    ensures prompt == Prompt(systemPrompt, userQuery, context, conversationHistory)
  {
    var promptParts := [systemPrompt];
    if Strip(context) != "" {
      promptParts := promptParts + [ContextHeader + context];
    }
    ghost var head := systemPrompt + ContextSection(context);
    ContextPartJoined(systemPrompt, context, promptParts);
    if conversationHistory != [] {
      JoinSnoc(promptParts, HistoryHeader, "\n");
      promptParts := promptParts + [HistoryHeader];
      var window := PySliceFrom(conversationHistory, -6);
      promptParts := AppendTurnLines(promptParts, window);
      HistoryJoined(head, conversationHistory);
    } else {
      AppendEmpty(head);
    }
    ghost var body := head + HistorySection(conversationHistory);
    assert Join(promptParts, "\n") == body;
    ClosingJoined(promptParts, body, userQuery);
    promptParts := promptParts + ["\nHuman: " + userQuery];
    promptParts := promptParts + ["\nAssistant: "];
    prompt := Join(promptParts, "\n");
  }

  /** The loop of `build_prompt` that adds one "Role: content" part per message. */
  method AppendTurnLines(parts: seq<string>, window: seq<Message>) returns (result: seq<string>)
    requires parts != []
    ensures result != [] && Join(result, "\n") == Join(parts, "\n") + TurnLines(window)
  {
    result := parts;
    ghost var lead := Join(parts, "\n");
    assert window[..0] == [];
    for j := 0 to |window|
      invariant result != []
      invariant Join(result, "\n") == lead + TurnLines(window[..j])
    {
      var msg := window[j];
      var role := if msg.role == "user" then "Human" else "Assistant";
      HistoryLineStep(result, lead, window, j);
      result := result + [role + ": " + msg.content];
    }
    TakeAll(window);
  }

  lemma ContextPartJoined(system: string, context: string, parts: seq<string>)
    requires parts == if Strip(context) != "" then [system, ContextHeader + context] else [system]
    ensures Join(parts, "\n") == system + ContextSection(context)
  {
    if Strip(context) != "" {
      AppendAssoc(system, "\n", ContextHeader + context);
    }
  }

  lemma HistoryJoined(head: string, history: seq<Message>)
    requires history != []
    ensures head + "\n" + HistoryHeader + TurnLines(Window(history)) == head + HistorySection(history)
  {
    var lines := TurnLines(Window(history));
    AppendAssoc(head, "\n", HistoryHeader);
    AppendAssoc(head, "\n" + HistoryHeader, lines);
    AppendAssoc("\n", HistoryHeader, lines);
  }

  lemma HistoryLineStep(parts: seq<string>, lead: string, window: seq<Message>, j: nat)
    requires parts != [] && j < |window|
    requires Join(parts, "\n") == lead + TurnLines(window[..j])
    ensures Join(parts + [TurnLine(window[j])], "\n") == lead + TurnLines(window[..j + 1])
  {
    JoinSnoc(parts, TurnLine(window[j]), "\n");
    TakeOfTake(window, j);
    var t := TurnLines(window[..j]);
    AppendAssoc(lead, t + "\n", TurnLine(window[j]));
    AppendAssoc(lead, t, "\n");
  }

  /** The two closing parts joined onto the body give the question turn. */
  lemma ClosingJoined(parts: seq<string>, body: string, query: string)
    requires parts != [] && Join(parts, "\n") == body
    ensures Join(parts + ["\nHuman: " + query] + ["\nAssistant: "], "\n") == body + QuestionTurn(query)
  {
    JoinSnoc(parts, "\nHuman: " + query, "\n");
    JoinSnoc(parts + ["\nHuman: " + query], "\nAssistant: ", "\n");
    QuestionTurnJoined(body, query);
  }

  lemma QuestionTurnJoined(body: string, query: string)
    ensures body + "\n" + ("\nHuman: " + query) + "\n" + "\nAssistant: " == body + QuestionTurn(query)
  {
    assert "\n" + "\nHuman: " == "\n\nHuman: ";
    assert "\n" + "\nAssistant: " == "\n\nAssistant: ";
  }

  /** The prompt opens with the system text and closes with the question and an open assistant turn. */
  lemma PromptFrame(system: string, query: string, context: string, history: seq<Message>)
    ensures var p := Prompt(system, query, context, history);
      StartsWith(p, system) && EndsWith(p, "\n\nHuman: " + query + "\n\nAssistant: ")
  {
    var withContext := system + ContextSection(context);
    var head := withContext + HistorySection(history);
    ConcatEnds(system, ContextSection(context));
    ConcatEnds(withContext, HistorySection(history));
    ConcatEnds(head, QuestionTurn(query));
    PrefixTrans(head + QuestionTurn(query), head, withContext);
    PrefixTrans(head + QuestionTurn(query), withContext, system);
  }

  /** The context section follows the system text exactly when the context is not blank. */
  lemma PromptHasContextIff(system: string, query: string, context: string, history: seq<Message>)
    ensures StartsWith(Prompt(system, query, context, history), system + "\n" + ContextHeader)
      <==> Strip(context) != ""
  {
    var lead := system + "\n" + ContextHeader;
    var tail := HistorySection(history) + QuestionTurn(query);
    var p := Prompt(system, query, context, history);
    AppendAssoc(system + ContextSection(context), HistorySection(history), QuestionTurn(query));
    if Strip(context) != "" {
      AppendAssoc(system, "\n", ContextHeader + context);
      AppendAssoc(system + "\n", ContextHeader, context);
      ConcatEnds(lead, context);
      PrefixExtends(lead + context, lead, tail);
    } else {
      AppendEmpty(system);
      TailOpening(history, query);
      NoHeaderBefore(system, tail);
    }
  }

  /** What follows an empty context section has no "R" where the context header would have one. */
  lemma TailOpening(history: seq<Message>, query: string)
    ensures var tail := HistorySection(history) + QuestionTurn(query);
      |tail| >= 3 && tail[2] != 'R'
  {
    var tail := HistorySection(history) + QuestionTurn(query);
    if history == [] {
      assert tail[2] == 'H';
    } else {
      assert HistorySection(history)[2] == 'C';
    }
  }

  lemma NoHeaderBefore(system: string, tail: string)
    requires |tail| >= 3 && tail[2] != 'R'
    ensures !StartsWith(system + tail, system + "\n" + ContextHeader)
  {
    var n := |system|;
    assert ContextHeader[1] == 'R';
    assert (system + "\n" + ContextHeader)[n + 2] == 'R';
    assert (system + tail)[n + 2] == tail[2];
  }

  /** With no context and no history the prompt is the system text, the question and the open turn. */
  lemma BarePrompt(system: string, query: string)
    ensures Prompt(system, query, "", []) == system + "\n\nHuman: " + query + "\n\nAssistant: "
  {
    assert Strip("") == "";
  }

  /** Only the last six messages reach the prompt: any older ones are ignored. */
  lemma OlderTurnsIgnored(system: string, query: string, context: string, older: seq<Message>, recent: seq<Message>)
    requires |recent| >= 6
    ensures Prompt(system, query, context, older + recent) == Prompt(system, query, context, recent)
  {
    WindowOfLonger(older, recent);
    assert HistorySection(older + recent) == HistorySection(recent);
  }

  lemma WindowOfLonger(older: seq<Message>, recent: seq<Message>)
    requires |recent| >= 6
    ensures Window(older + recent) == Window(recent)
  {
    var all := older + recent;
    assert all[|all| - 6..] == recent[|recent| - 6..];
  }
}
