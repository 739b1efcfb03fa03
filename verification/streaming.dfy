/** app/utils/bedrock-utils.ts: the streaming responder of the Next.js app.

  `get_response_with_rag` sends one completion request to the Bedrock
  runtime, parses the JSON body of the answer, and returns a response whose
  stream replays the completion word by word: the completion is split at
  spaces and every piece is sent with a space after it, each as one frame
  (`iteratorToStream`).

  The runtime client is the parameter `send`; the JSON parse of the answer
  is folded into what `send` returns.  The 50 ms pause between words, the
  sampling parameters and the client construction are not modelled.
 */
module StreamingResponder {
  import opened Outcomes
  import Text
  import Frames

  const ModelId: string := "anthropic.claude-v2"
  const MaxTokensToSample: int := 1000

  /** The fields of the `InvokeModelCommand` that the model keeps. */
  datatype InvokeRequest = InvokeRequest(modelId: string, prompt: string, maxTokensToSample: int)

  /** The parsed answer body: not JSON (the parser's error), or an object
      whose `completion` is a string or something else (`None`). */
  datatype AnswerBody = NotJson(parseError: Error) | Json(completion: Option<string>)

  datatype InvokeOutcome = Answered(body: AnswerBody) | SendFailed(error: Error)

  /** How a source of values ends: finished, or threw. */
  datatype IteratorEnd = Done | Threw

  /** How a `ReadableStream` ends for its reader: closed, or errored. */
  datatype StreamEnd = Closed | Errored

  /** What a reader of the stream sees: the enqueued frames, then the end. */
  datatype Stream = Stream(frames: seq<string>, end: StreamEnd)

  /** `` `\n\nHuman: ${prompt}\n\nAssistant:` ``. */
  function WrapPrompt(prompt: string): string {
    "\n\nHuman: " + prompt + "\n\nAssistant:"
  }

  /** The wrapper is fixed text on both sides, so the prompt can be read back. */
  lemma WrapPromptInjective(p1: string, p2: string)
    requires WrapPrompt(p1) == WrapPrompt(p2)
    ensures p1 == p2
  {
    var w1, w2 := WrapPrompt(p1), WrapPrompt(p2);
    assert |p1| == |p2|;
    assert w1[9..9 + |p1|] == p1;
    assert w2[9..9 + |p2|] == p2;
  }

  /** `iteratorToStream`: every value the iterator yields becomes one frame,
      in order; the stream closes when the iterator is done and errors when
      it throws. */
  function IteratorToStream(values: seq<string>, end: IteratorEnd): (r: Stream)
    ensures |r.frames| == |values|
    ensures forall i :: 0 <= i < |r.frames| ==> Frames.ScanRead(r.frames[i]) == Frames.Scan([values[i]], false)
    ensures Frames.ScanRead(Text.Concat(r.frames)) == Frames.Scan(values, false)
    ensures r.end == Closed <==> end == Done
  {
    forall i | 0 <= i < |values|
      ensures Frames.ScanRead(Frames.Frames(values)[i]) == Frames.Scan([values[i]], false)
    {
      Frames.ScanFrames([values[i]]);
      assert Frames.FrameText([values[i]]) == Frames.Frames(values)[i];
    }
    Frames.ScanFrames(values);
    Stream(Frames.Frames(values), if end == Done then Closed else Errored)
  }

  /** The values the generator yields: each piece of `completion.split(" ")`
      followed by a space. */
  function WordChunks(completion: string): (r: seq<string>)
  {
    Spaced(Text.Split(completion, ' '))
  }

  function Spaced(pieces: seq<string>): (r: seq<string>)
    ensures |r| == |pieces|
    ensures forall i :: 0 <= i < |r| ==> r[i] == pieces[i] + " "
    decreases |pieces|
  {
    if |pieces| == 0 then [] else [pieces[0] + " "] + Spaced(pieces[1..])
  }

  lemma {:induction false} SpacedConcat(pieces: seq<string>)
    requires |pieces| >= 1
    ensures Text.Concat(Spaced(pieces)) == Text.Join(pieces, " ") + " "
    decreases |pieces|
  {
    if |pieces| > 1 {
      SpacedConcat(pieces[1..]);
    }
  }

  /** The chunks put together give the completion back with one space added,
      there is one chunk more than the completion has spaces, and every chunk
      is a space-free word followed by exactly one space. */
  lemma WordChunksReassemble(completion: string)
    ensures Text.Concat(WordChunks(completion)) == completion + " "
    ensures |WordChunks(completion)| == Text.Count(completion, ' ') + 1
    ensures forall i :: 0 <= i < |WordChunks(completion)| ==>
      Text.Count(WordChunks(completion)[i], ' ') == 1
  {
    var pieces := Text.Split(completion, ' ');
    SpacedConcat(pieces);
    Text.JoinSplit(completion, ' ');
    Text.SplitCount(completion, ' ');
    Text.SplitPiecesFree(completion, ' ');
    forall i | 0 <= i < |pieces|
      ensures Text.Count(WordChunks(completion)[i], ' ') == 1
    {
      Text.CountAppend(pieces[i], " ", ' ');
    }
  }

  /** `get_response_with_rag(…, prompt)`: the request sent, and then either
      the streaming response or the error rethrown. */
  datatype Answer = Answer(request: InvokeRequest, response: Result<Stream>)

  function GetResponseWithRag(prompt: string, send: InvokeRequest -> InvokeOutcome): (r: Answer)
    ensures r.request == InvokeRequest(ModelId, WrapPrompt(prompt), MaxTokensToSample)
    ensures send(r.request).SendFailed? ==> r.response == Err(send(r.request).error)
    ensures (send(r.request).Answered? && send(r.request).body.NotJson?) ==>
      r.response == Err(send(r.request).body.parseError)
    ensures (send(r.request).Answered? && send(r.request).body.Json?) ==>
      r.response.Ok? &&
      (match send(r.request).body.completion
       case Some(c) => r.response.value == IteratorToStream(WordChunks(c), Done)
       case None => r.response.value == Stream([], Errored))
  {
    var request := InvokeRequest(ModelId, WrapPrompt(prompt), MaxTokensToSample);
    var response :=
      match send(request)
      case SendFailed(e) => Err(e)
      case Answered(NotJson(e)) => Err(e)
      case Answered(Json(None)) =>
        // `responseBody.completion.split` throws inside the generator, at the
        // first pull, so it errors the stream rather than the call.
        Ok(IteratorToStream([], Threw))
      case Answered(Json(Some(c))) => Ok(IteratorToStream(WordChunks(c), Done));
    Answer(request, response)
  }

  /** Reading the stream of an answer back gives the completion and a
      trailing space, whatever the completion holds. */
  lemma AnswerReadsBack(prompt: string, send: InvokeRequest -> InvokeOutcome, completion: string)
    requires send(InvokeRequest(ModelId, WrapPrompt(prompt), MaxTokensToSample)) == Answered(Json(Some(completion)))
    ensures GetResponseWithRag(prompt, send).response.Ok?
    ensures GetResponseWithRag(prompt, send).response.value.end == Closed
    ensures Text.Concat(Frames.ScanRead(Text.Concat(GetResponseWithRag(prompt, send).response.value.frames)).contents)
      == completion + " "
  {
    Frames.ScanFrames(WordChunks(completion));
    WordChunksReassemble(completion);
  }
}
