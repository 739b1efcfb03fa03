/** app/api/chat/route.ts: the `POST /api/chat` handler of the Next.js app.

  The handler reads `message` (and `csMode`, which it never uses) from the
  JSON request, runs the response generator on the message, writes one
  event-stream frame per generated chunk, closes the writer, and answers
  with the event stream.  That is the intended handler, `Post`; as written
  the first awaited write stalls, which `PostAsWritten` models.  Any fault — an unparsable request or a generator
  that throws — is answered with status 500 and a fixed JSON error.

  `generateResponse` (from `@/lib/bedrock`, not part of this model) is the
  parameter `generate`: the finite list of chunks it yields and whether it
  throws after them.
 */
module ChatRoute {
  import opened Outcomes
  import Text
  import Frames

  /** A request body: not JSON, or an object with string-valued fields. */
  datatype RequestJson = Unparsable | Object(fields: map<string, string>)

  /** What the generator yields for a message: its chunks, in order, and
      whether it throws after the last one. */
  datatype Generation = Generation(chunks: seq<string>, throws: bool)

  const StreamHeaders: seq<(string, string)> :=
    [("Content-Type", "text/event-stream"), ("Cache-Control", "no-cache"), ("Connection", "keep-alive")]

  const ErrorStatus: int := 500

  datatype Response =
    | EventStream(headers: seq<(string, string)>, frames: seq<string>)
    | JsonError(status: int, body: string)

  /** `NextResponse.json({ error: 'Internal Server Error' }, { status: 500 })`. */
  const InternalError: Response := JsonError(ErrorStatus, Frames.MemberJson("error", "Internal Server Error"))

  /** The `message` field of a request, `None` where it is `undefined`. */
  function MessageOf(body: RequestJson): (r: Option<string>)
    ensures r.Some? <==> body.Object? && "message" in body.fields
    ensures r.Some? ==> r.value == body.fields["message"]
  {
    if body.Object? && "message" in body.fields then Some(body.fields["message"]) else None
  }

  /** The body a client sends to ask about `message`: `{ message }`. */
  function RequestFor(message: string): (r: RequestJson)
    ensures MessageOf(r) == Some(message)
  {
    Object(map["message" := message])
  }

  /** `POST(req)`, answering once the frames are written, as intended. */
  function Post(body: RequestJson, generate: Option<string> -> Generation): (r: Response)
    ensures body.Unparsable? ==> r == InternalError
    ensures body.Object? && generate(MessageOf(body)).throws ==> r == InternalError
    ensures body.Object? && !generate(MessageOf(body)).throws ==>
      r.EventStream? && r.headers == StreamHeaders &&
      |r.frames| == |generate(MessageOf(body)).chunks| &&
      forall i :: 0 <= i < |r.frames| ==> r.frames[i] == Frames.Frame(generate(MessageOf(body)).chunks[i])
  {
    match body
    case Unparsable => InternalError
    case Object(_) =>
      var generation := generate(MessageOf(body));
      if generation.throws then InternalError
      else EventStream(StreamHeaders, Frames.Frames(generation.chunks))
  }

  /** The handler as written, with the stream's flow control: a
      `TransformStream` built with the default strategies has a readable
      side of high-water mark 0 and starts with backpressure, so a
      `writer.write` settles only once someone reads the readable side.  The
      handler awaits each write before it hands the readable side out, so
      the first chunk's write never settles and no response is ever sent.
      `None` stands for that response that never comes. */
  function PostAsWritten(body: RequestJson, generate: Option<string> -> Generation): (r: Option<Response>)
    ensures r.None? <==> body.Object? && |generate(MessageOf(body)).chunks| > 0
    ensures r.Some? ==> r.value == Post(body, generate)
  {
    match body
    case Unparsable => Some(InternalError)
    case Object(_) =>
      var generation := generate(MessageOf(body));
      if |generation.chunks| > 0 then None
      else if generation.throws then Some(InternalError)
      else Some(EventStream(StreamHeaders, []))
  }

  /** As written, a message the generator answers with any text at all gets
      no response, where the intended handler streams that text back. */
  lemma AnswerNeverSent(message: string, generate: Option<string> -> Generation)
    requires |generate(Some(message)).chunks| > 0
    ensures PostAsWritten(RequestFor(message), generate) == None
    ensures !generate(Some(message)).throws ==>
      Post(RequestFor(message), generate).EventStream? &&
      |Post(RequestFor(message), generate).frames| == |generate(Some(message)).chunks|
  {
    assert MessageOf(RequestFor(message)) == Some(message);
  }

  /** `csMode`, and every field other than `message`, has no effect. */
  lemma OnlyMessageMatters(b1: RequestJson, b2: RequestJson, generate: Option<string> -> Generation)
    requires b1.Object? && b2.Object?
    requires MessageOf(b1) == MessageOf(b2)
    ensures Post(b1, generate) == Post(b2, generate)
  {
  }

  /** A client that reads the event stream in reads of whole frames gets the
      generated text: the chunks, concatenated in generation order. */
  lemma PostReadsBack(message: string, generate: Option<string> -> Generation, groups: seq<seq<string>>)
    requires !generate(Some(message)).throws
    requires Frames.Flatten(groups) == generate(Some(message)).chunks
    ensures Post(RequestFor(message), generate).EventStream?
    ensures Text.Concat(Post(RequestFor(message), generate).frames) == Frames.FrameText(Frames.Flatten(groups))
    ensures Frames.ScanReads(Frames.ReadsOf(groups)).contents == generate(Some(message)).chunks
  {
    PostFrames(message, generate);
    Frames.ScanWholeFrameReads(groups);
  }

  lemma PostFrames(message: string, generate: Option<string> -> Generation)
    requires !generate(Some(message)).throws
    ensures Post(RequestFor(message), generate)
      == EventStream(StreamHeaders, Frames.Frames(generate(Some(message)).chunks))
  {
    assert MessageOf(RequestFor(message)) == Some(message);
  }
}
