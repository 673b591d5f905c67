/**
 * The completion side of src/rag_engine.py with the Ollama client abstracted:
 * `generate_response` over the outcome of one blocking call,
 * `generate_response_stream` over the chunks the streaming call delivers, and
 * the model choice made in `_test_ollama_connection`.
 */
module Generation {
  import opened Builtins

  /** The apology both generation paths return when the backend raises. */
  const Fallback: string :=
    "I apologize, but I'm having trouble generating a response right now. Please try again."

  /** `config.OLLAMA_MODEL` with no environment override. */
  const DefaultModel: string := "llama3.1"

  /** The outcome of `ollama_client.generate(...)`: the reply's `response` field (if any), or an exception. */
  datatype Completion = Completed(response: Option<string>) | Raised

  /**
   * `ollama_client.generate(model=..., prompt=...)`: what the server does with
   * a prompt, for a server that behaves like the function `llm`.
   */
  function Ask(llm: (string, string) -> Completion, model: string, prompt: string): Completion {
    llm(model, prompt)
  }

  /**
   * `generate_response`: the stripped `response` field (`''` when missing), or
   * the fallback when the call raised. A completed reply never starts or ends
   * with whitespace.
   */
  function GenerateResponse(c: Completion): (r: string)
    ensures c.Raised? ==> r == Fallback
    ensures c.Completed? ==> r == Strip(c.response.GetOr(""))
    ensures c.Completed? ==> r == [] || (!IsSpace(r[0]) && !IsSpace(r[|r| - 1]))
    ensures c.Completed? && c.response.Some? ==> (r == [] <==> AllSpace(c.response.value))
    ensures c == Completed(None) ==> r == []
  {
    match c
    case Raised => Fallback
    case Completed(response) => Strip(response.GetOr(""))
  }

  // ---------------------------------------------------------------------------
  // Streaming

  /** One streamed chunk: its `response` field, if the chunk has one, and its `done` flag. */
  datatype Chunk = Chunk(response: Option<string>, done: bool)

  /** What one chunk contributes to the output: its text, when it has a `response` field. */
  function Emitted(c: Chunk): seq<string> {
    if c.response.Some? then [c.response.value] else []
  }

  /** The texts of a run of chunks, in order. */
  function Texts(cs: seq<Chunk>): seq<string> {
    if cs == [] then [] else Emitted(cs[0]) + Texts(cs[1..])
  }

  /**
   * What the generator yields for a stream of `chunks` that, if `raises`,
   * throws when asked for the chunk after the last one: chunk texts up to and
   * including the first `done` chunk; the fallback after them when the stream
   * raised before any `done` chunk.
   */
  function StreamOutput(chunks: seq<Chunk>, raises: bool): seq<string> {
    StreamOutputWith(chunks, raises, Fallback)
  }

  /** `StreamOutput` with the text yielded on failure left open. */
  function StreamOutputWith(chunks: seq<Chunk>, raises: bool, fallback: string): seq<string> {
    if chunks == [] then (if raises then [fallback] else [])
    else Emitted(chunks[0]) + if chunks[0].done then [] else StreamOutputWith(chunks[1..], raises, fallback)
  }

  /** `generate_response_stream`, with the chunks and the failure passed in. */
  method GenerateResponseStream(chunks: seq<Chunk>, raises: bool) returns (yielded: seq<string>)
    ensures yielded == StreamOutput(chunks, raises)
  {
    yielded := YieldChunks(chunks, raises, Fallback);
  }

  /** The generator's loop: yield each `response`, stop after a `done` chunk, yield `fallback` on failure. */
  method YieldChunks(chunks: seq<Chunk>, raises: bool, fallback: string) returns (yielded: seq<string>)
    ensures yielded == StreamOutputWith(chunks, raises, fallback)
  {
    yielded := [];
    for i := 0 to |chunks|
      invariant yielded + StreamOutputWith(chunks[i..], raises, fallback) == StreamOutputWith(chunks, raises, fallback)
    {
      var chunk := chunks[i];
      StreamStep(chunks, i, raises, fallback, yielded);
      if chunk.response.Some? {
        yielded := yielded + [chunk.response.value];
      }
      if chunk.done {
        return;
      }
    }
    if raises {
      yielded := yielded + [fallback];
    }
  }

  /** One turn of the generator's loop, given what it has yielded so far. */
  lemma StreamStep(chunks: seq<Chunk>, i: nat, raises: bool, fallback: string, yielded: seq<string>)
    requires i < |chunks|
    requires yielded + StreamOutputWith(chunks[i..], raises, fallback) == StreamOutputWith(chunks, raises, fallback)
    ensures chunks[i].done ==> yielded + Emitted(chunks[i]) == StreamOutputWith(chunks, raises, fallback)
    ensures !chunks[i].done ==>
      yielded + Emitted(chunks[i]) + StreamOutputWith(chunks[i + 1..], raises, fallback)
      == StreamOutputWith(chunks, raises, fallback)
  {
    SliceOfSlice(chunks, i, 1);
    var emitted := Emitted(chunks[i]);
    if chunks[i].done {
      AppendEmpty(emitted);
    } else {
      AppendAssoc(yielded, emitted, StreamOutputWith(chunks[i + 1..], raises, fallback));
    }
  }

  /**
   * Up to the first `done` chunk: the output is the texts up to and including
   * that chunk; the chunks after it and any later failure play no part.
   */
  lemma {:induction false} StreamStopsAtFirstDone(chunks: seq<Chunk>, k: nat, raises: bool)
    requires k < |chunks| && chunks[k].done
    requires forall j | 0 <= j < k :: !chunks[j].done
    ensures StreamOutput(chunks, raises) == Texts(chunks[..k + 1])
  {
    if k > 0 {
      StreamStopsAtFirstDone(chunks[1..], k - 1, raises);
      assert chunks[1..][..k] == chunks[..k + 1][1..];
    }
  }

  /** Without a `done` chunk: every text, then the fallback exactly when the stream raised. */
  lemma {:induction false} StreamWithoutDone(chunks: seq<Chunk>, raises: bool)
    requires forall j | 0 <= j < |chunks| :: !chunks[j].done
    ensures StreamOutput(chunks, raises) == Texts(chunks) + if raises then [Fallback] else []
  {
    if chunks != [] {
      StreamWithoutDone(chunks[1..], raises);
    }
  }

  // ---------------------------------------------------------------------------
  // Model selection

  /** A listed model usable for generation: a non-empty name without "embed" in its lower-cased form. */
  predicate IsGenerationModel(name: string) {
    name != [] && !Contains(Lower(name), "embed")
  }

  /** The model name in effect after `_test_ollama_connection` lists `available`. */
  function SelectedModel(configured: string, available: seq<string>): string {
    if exists m | m in available :: m == configured || m == configured + ":latest" then configured
    else
      var generation := Filter(available, IsGenerationModel);
      if generation != [] then generation[0] else configured
  }

  /** The loop and the comprehension of `_test_ollama_connection`. */
  method SelectModel(configured: string, available: seq<string>) returns (chosen: string)
    ensures chosen == SelectedModel(configured, available)
  {
    var found := false;
    var i := 0;
    while i < |available| && !found
      invariant 0 <= i <= |available|
      invariant found ==> i < |available| && (available[i] == configured || available[i] == configured + ":latest")
      invariant forall j | 0 <= j < i :: available[j] != configured && available[j] != configured + ":latest"
      decreases |available| - i, !found
    {
      var m := available[i];
      if m == configured || m == configured + ":latest" {
        found := true;
      } else {
        i := i + 1;
      }
    }
    if found {
      assert available[i] in available;
      return configured;
    }
    var generation := Filter(available, IsGenerationModel);
    chosen := if generation != [] then generation[0] else configured;
  }

  /** The first element of a filter is the first element that passes it. */
  lemma {:induction false} FilterFirst<T(!new)>(s: seq<T>, keep: T -> bool, k: nat)
    requires k < |s| && keep(s[k]) && forall j | 0 <= j < k :: !keep(s[j])
    ensures Filter(s, keep) != [] && Filter(s, keep)[0] == s[k]
    decreases |s|
  {
    var init := s[..|s| - 1];
    if k < |s| - 1 {
      FilterFirst(init, keep, k);
    } else {
      FilterNone(init, keep);
    }
  }

  lemma {:induction false} FilterNone<T(!new)>(s: seq<T>, keep: T -> bool)
    requires forall j | 0 <= j < |s| :: !keep(s[j])
    ensures Filter(s, keep) == []
    decreases |s|
  {
    if s != [] {
      FilterNone(s[..|s| - 1], keep);
    }
  }

  /**
   * The configured name stays when it (or its `:latest` tag) is listed, or
   * when nothing listed can generate; otherwise the first listed model that
   * can generate is chosen.
   */
  lemma SelectedModelCases(configured: string, available: seq<string>)
    ensures var chosen := SelectedModel(configured, available);
      && ((exists m | m in available :: m == configured || m == configured + ":latest") ==> chosen == configured)
      && (chosen == configured || (chosen in available && IsGenerationModel(chosen)))
      && (forall k | 0 <= k < |available| ::
            (forall m | m in available :: m != configured && m != configured + ":latest")
            && IsGenerationModel(available[k]) && (forall j | 0 <= j < k :: !IsGenerationModel(available[j]))
            ==> chosen == available[k])
  {
    var generation := Filter(available, IsGenerationModel);
    if generation != [] {
      assert generation[0] in generation;
    }
    forall k | 0 <= k < |available| && IsGenerationModel(available[k])
        && (forall j | 0 <= j < k :: !IsGenerationModel(available[j]))
      ensures generation != [] && generation[0] == available[k]
    {
      FilterFirst(available, IsGenerationModel, k);
    }
  }
}
