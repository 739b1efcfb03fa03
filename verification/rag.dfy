/** `get_response_with_rag` of bedrock_utils.py: retrieve passages from the
    knowledge base, lay out a single prompt around them, and stream the
    model's completion fragments, ending with a fixed apology on any fault.

  The two Bedrock clients are function parameters: `retrieve` answers the
  knowledge-base query and `generate` answers the streaming model call.
  The generator is modelled by the finite list of fragments it yields.
 */
module RagResponder {
  import opened Outcomes
  import Text

  /** The persona and grounding instructions placed before the context. */
  const SystemPrompt: string :=
    "You are a friendly and knowledgeable question-answering agent for the Rivertown Ball "
    + "Company. Your mission is to assist users by answering their questions based on a set "
    + "of provided search results. Your goal is to provide accurate, helpful, and engaging "
    + "answers. Remember, your personality shines through\U{2014}you are warm, approachable, "
    + "and helpful, while also being precise and trustworthy. Also note the company sells "
    + "High end exotic designer wooden craft balls. while we do have many different designs, "
    + "styles, and options. We do not make sports balls. \n\nI will provide you with a set "
    + "of search results that may contain the information needed to answer the user's "
    + "question. The user will ask you a question, and it's your job to answer it using only "
    + "the information from the search results. If the search results do not contain the "
    + "information needed to answer the question, let the user know politely that you don't "
    + "know the answer to their question.\n\nDon't let the user know you searched for the "
    + "answer, just present it as you knew it the entire time as fact. Do not ever cite any "
    + "sources.\n\nIf the user asserts something as a fact, don't automatically accept "
    + "it\U{2014}double-check it against the search results to make sure it's accurate. Your "
    + "job is to be both supportive and trustworthy, so validating information is key."

  const Apology: string := "I apologize, but I encountered an error while processing your request."
  const ModelId: string := "anthropic.claude-instant-v1"
  const AnthropicVersion: string := "bedrock-2023-05-31"
  const ResultCount: nat := 3
  const MaxTokensToSample: nat := 2048
  const StopSequences: seq<string> := ["\n\nHuman:", "\n\nAssistant:"]

  /** The knowledge-base query (`retrieve_and_generate` arguments); the
      sampling constants `temperature` and `top_p` are not modelled. */
  datatype RetrievalRequest = RetrievalRequest(
    text: string, knowledgeBaseId: string, modelArn: string, numberOfResults: nat)

  /** The `content` of one retrieval result: absent, a string, or some other value. */
  datatype ResultContent = NoContent | StringContent(s: string) | OtherContent

  datatype RetrieveOutcome =
    | Retrieved(retrievalResults: Option<seq<ResultContent>>)
    | RetrieveFailed

  /** The body of `invoke_model_with_response_stream`. */
  datatype GenerationRequest = GenerationRequest(
    modelId: string, prompt: string, maxTokensToSample: nat,
    stopSequences: seq<string>, anthropicVersion: string)

  /** One event of the response stream: a `chunk` whose bytes decode to JSON
      with or without a `completion`, a chunk that does not decode, or an
      event of another kind. */
  datatype StreamEvent = Chunk(completion: Option<string>) | UndecodableChunk | OtherEvent

  /** The events the stream delivers, and whether iterating it then raises. */
  datatype EventStream = EventStream(events: seq<StreamEvent>, raisesAfter: bool)

  datatype GenerateOutcome = Streaming(body: Option<EventStream>) | GenerateFailed

  /** What one call does: the query it issues, the model request it issues
      (if it gets that far) and the fragments it yields. */
  datatype RagRun = RagRun(retrieval: RetrievalRequest, generation: Option<GenerationRequest>, fragments: seq<string>)

  /** `result.get('content', '')`: a string passage, or `None` for a value
      that will make the join raise. */
  function Passage(c: ResultContent): (r: Option<string>)
    ensures c.NoContent? ==> r == Some("")
    ensures c.StringContent? ==> r == Some(c.s)
    ensures c.OtherContent? <==> r.None?
  {
    match c
    case NoContent => Some("")
    case StringContent(s) => Some(s)
    case OtherContent => None
  }

  /** The passages, one per result in result order, or `None` when one of
      them is not a string. */
  function Passages(results: seq<ResultContent>): (r: Option<seq<string>>)
    ensures r.Some? <==> forall i :: 0 <= i < |results| ==> !results[i].OtherContent?
    ensures r.Some? ==> (|r.value| == |results|
      && forall i :: 0 <= i < |results| ==> Some(r.value[i]) == Passage(results[i]))
    decreases |results|
  {
    if |results| == 0 then Some([])
    else
      match (Passage(results[0]), Passages(results[1..]))
      case (Some(p), Some(ps)) => Some([p] + ps)
      case _ => None
  }

  /** `"\n".join(passages)`; a missing `retrievalResults` counts as no results. */
  function Context(results: Option<seq<ResultContent>>): (r: Option<string>)
    ensures results.None? ==> r == Some("")
    ensures r.Some? <==> Passages(results.GetOr([])).Some?
    ensures r.Some? ==> r.value == Text.Join(Passages(results.GetOr([])).value, "\n")
  {
    match Passages(results.GetOr([]))
    case Some(ps) => Some(Text.Join(ps, "\n"))
    case None => None
  }

  /** The context gives its passages back when none of them holds a line break. */
  lemma ContextSplitsIntoPassages(results: seq<ResultContent>)
    requires |results| > 0
    requires forall i :: 0 <= i < |results| ==>
      results[i].NoContent? || (results[i].StringContent? && '\n' !in results[i].s)
    ensures Context(Some(results)).Some?
    ensures Text.Split(Context(Some(results)).value, '\n') == Passages(results).value
  {
    var ps := Passages(results).value;
    assert forall i :: 0 <= i < |ps| ==> '\n' !in ps[i] by {
      forall i | 0 <= i < |ps| ensures '\n' !in ps[i] {
        assert Some(ps[i]) == Passage(results[i]);
      }
    }
    Text.SplitJoin(ps, '\n');
  }

  /** The prompt sent to the model. */
  function Layout(context: string, question: string): string {
    "\n\nHuman: " + SystemPrompt + "\n\nContext: " + context + "\n\nHuman: " + question + "\n\nAssistant:"
  }

  /** For a fixed context, the prompt determines the question. */
  lemma LayoutDeterminesQuestion(context: string, q1: string, q2: string)
    requires Layout(context, q1) == Layout(context, q2)
    ensures q1 == q2
  {
    var head := "\n\nHuman: " + SystemPrompt + "\n\nContext: " + context + "\n\nHuman: ";
    var tail := "\n\nAssistant:";
    assert Layout(context, q1) == head + q1 + tail;
    assert Layout(context, q2) == head + q2 + tail;
    BetweenInjective(head, tail, q1, q2);
  }

  /** Text between a fixed head and a fixed tail is determined by the whole. */
  lemma BetweenInjective(head: string, tail: string, x: string, y: string)
    requires head + x + tail == head + y + tail
    ensures x == y
  {
    assert |x| == |y|;
    assert x == (head + x + tail)[|head|..|head| + |x|];
    assert y == (head + y + tail)[|head|..|head| + |y|];
  }

  /** The fragments of the events before the first undecodable chunk, and
      whether such a chunk stopped the loop. */
  datatype Emission = Emission(fragments: seq<string>, stopped: bool)

  /** The `for event in response.get('body')` loop. */
  function Emit(events: seq<StreamEvent>): (r: Emission)
    ensures |r.fragments| <= |events|
    decreases |events|
  {
    if |events| == 0 then Emission([], false)
    else
      match events[0]
      case UndecodableChunk => Emission([], true)
      case OtherEvent => Emit(events[1..])
      case Chunk(c) =>
        var rest := Emit(events[1..]);
        Emission([c.GetOr("")] + rest.fragments, rest.stopped)
  }

  /** The fragment an event yields, if any: `chunk_data.get('completion', '')`. */
  function ChunkFragment(e: StreamEvent): Option<string> {
    if e.Chunk? then Some(e.completion.GetOr("")) else None
  }

  /** Without undecodable chunks the loop yields exactly one fragment per chunk event, in order. */
  lemma {:induction false} EmitDecodable(events: seq<StreamEvent>)
    requires forall i :: 0 <= i < |events| ==> !events[i].UndecodableChunk?
    ensures Emit(events) == Emission(FilterMap(events, ChunkFragment), false)
    decreases |events|
  {
    if |events| > 0 {
      EmitDecodable(events[1..]);
    }
  }

  /** An undecodable chunk stops the loop: what follows it is never read. */
  lemma {:induction false} EmitStopsAtUndecodable(before: seq<StreamEvent>, after: seq<StreamEvent>)
    requires forall i :: 0 <= i < |before| ==> !before[i].UndecodableChunk?
    ensures Emit(before + [UndecodableChunk] + after) == Emission(FilterMap(before, ChunkFragment), true)
    decreases |before|
  {
    if |before| == 0 {
      assert before + [UndecodableChunk] + after == [UndecodableChunk] + after;
    } else {
      assert (before + [UndecodableChunk] + after)[1..] == before[1..] + [UndecodableChunk] + after;
      EmitStopsAtUndecodable(before[1..], after);
    }
  }

  /** The fragments of a whole stream: a fault while iterating ends them with the apology. */
  function StreamFragments(stream: EventStream): seq<string> {
    var e := Emit(stream.events);
    if e.stopped || stream.raisesAfter then e.fragments + [Apology] else e.fragments
  }

  /** A stream that ends normally yields one fragment per chunk event, in order,
      a chunk without `completion` yielding the empty string. */
  lemma StreamWithoutFault(events: seq<StreamEvent>)
    requires forall i :: 0 <= i < |events| ==> !events[i].UndecodableChunk?
    ensures StreamFragments(EventStream(events, false)) == FilterMap(events, ChunkFragment)
    ensures |StreamFragments(EventStream(events, false))| == CountSome(events, ChunkFragment)
  {
    EmitDecodable(events);
    FilterMapLength(events, ChunkFragment);
  }

  /** A stream that raises after its events keeps the fragments already
      yielded and adds the apology as the last one. */
  lemma StreamRaisingAtEnd(events: seq<StreamEvent>)
    requires forall i :: 0 <= i < |events| ==> !events[i].UndecodableChunk?
    ensures StreamFragments(EventStream(events, true)) == FilterMap(events, ChunkFragment) + [Apology]
  {
    EmitDecodable(events);
  }

  /** An undecodable chunk midway: the fragments before it, then the apology, then nothing. */
  lemma StreamFaultMidway(before: seq<StreamEvent>, after: seq<StreamEvent>, raisesAfter: bool)
    requires forall i :: 0 <= i < |before| ==> !before[i].UndecodableChunk?
    ensures StreamFragments(EventStream(before + [UndecodableChunk] + after, raisesAfter))
      == FilterMap(before, ChunkFragment) + [Apology]
  {
    EmitStopsAtUndecodable(before, after);
  }

  /** `get_response_with_rag(agent_runtime_client, runtime_client, prompt, knowledge_base_id)`.
      The knowledge base id is always a parameter here; the Python default
      `A2QCDWSKKV` is what a caller that leaves it out passes. */
  function GetResponseWithRag(
    question: string, knowledgeBaseId: string,
    retrieve: RetrievalRequest -> RetrieveOutcome,
    generate: GenerationRequest -> GenerateOutcome): (r: RagRun)
    ensures r.retrieval == RetrievalRequest(question, knowledgeBaseId, ModelId, 3)
    ensures r.generation.Some? <==>
      retrieve(r.retrieval).Retrieved? && Context(retrieve(r.retrieval).retrievalResults).Some?
    ensures r.generation.Some? ==>
      && retrieve(r.retrieval).Retrieved?
      && Context(retrieve(r.retrieval).retrievalResults).Some?
      && r.generation.value == GenerationRequest(ModelId,
           Layout(Context(retrieve(r.retrieval).retrievalResults).value, question),
           2048, ["\n\nHuman:", "\n\nAssistant:"], AnthropicVersion)
    ensures r.generation.None? ==> r.fragments == [Apology]
    ensures r.generation.Some? ==>
      ((generate(r.generation.value).Streaming? && generate(r.generation.value).body.Some?) ==>
         r.fragments == StreamFragments(generate(r.generation.value).body.value))
      && ((generate(r.generation.value).GenerateFailed? || generate(r.generation.value).body.None?) ==>
         r.fragments == [Apology])
  {
    var query := RetrievalRequest(question, knowledgeBaseId, ModelId, ResultCount);
    match retrieve(query)
    case RetrieveFailed => RagRun(query, None, [Apology])
    case Retrieved(results) =>
      match Context(results)
      case None => RagRun(query, None, [Apology])
      case Some(context) =>
        var request := GenerationRequest(ModelId, Layout(context, question), MaxTokensToSample, StopSequences, AnthropicVersion);
        match generate(request)
        case GenerateFailed => RagRun(query, Some(request), [Apology])
        case Streaming(None) => RagRun(query, Some(request), [Apology])
        case Streaming(Some(stream)) => RagRun(query, Some(request), StreamFragments(stream))
  }
}
