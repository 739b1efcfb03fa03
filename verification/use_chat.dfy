/** hooks/use-chat.ts: the `useChat` hook's `sendMessage`.

  `sendMessage` posts to `/api/chat` a body holding the message under
  `prompt` (while the route reads `message`), throws when the response
  is not ok, and otherwise reads the body to its end, decoding the
  `data: ` lines of every read and appending their `content` to the result.
  The loading flag is set for the call and cleared on every way out.

  `fetch` is the parameter `fetch`: it either fails (the error is
  rethrown) or answers with the `ok` flag and, when the response has a
  body, what its reader sees (`Body`).
 */
module ChatHook {
  import opened Outcomes
  import Text
  import Frames
  import ChatRoute

  /** A response body as its reader sees it: the text of each
      `reader.read()` that resolves with a value, in order, then how the
      next read ends: `done` (`None`), or rejected with an error. */
  datatype Body = Body(chunks: seq<string>, rejection: Option<Error>)

  datatype FetchOutcome =
    | FetchFailed(error: Error)
    | Responded(ok: bool, body: Option<Body>)

  /** How `sendMessage` ends: with the accumulated text, by rethrowing or
      throwing an error, or with the `SyntaxError` of `JSON.parse` on a data
      line whose payload is not the object the server writes. */
  datatype SendOutcome = Returned(text: string) | Threw(error: Error) | MalformedFrame

  /** The outcome, and the loading flag as the call leaves it. */
  datatype SendRun = SendRun(outcome: SendOutcome, isLoading: bool)

  const NotOkError: Error := Error("Failed to send message")

  /** The request body as the hook writes it: `{ prompt: message }`. */
  function PromptBody(message: string): ChatRoute.RequestJson {
    ChatRoute.Object(map["prompt" := message])
  }

  /** The route reads `message`, which this body does not have: the route
      passes `undefined` to the generator whatever was typed. */
  lemma PromptBodyUnread(m1: string, m2: string)
    ensures ChatRoute.MessageOf(PromptBody(m1)) == None
    ensures ChatRoute.MessageOf(PromptBody(m1)) == ChatRoute.MessageOf(PromptBody(m2))
  {
    assert "message" !in PromptBody(m1).fields;
    assert "message" !in PromptBody(m2).fields;
  }

  /** The decoded text of the reads, or the fault. */
  function Accumulate(chunks: seq<string>): (r: SendOutcome)
    ensures r.Returned? || r.MalformedFrame?
    ensures r.Returned? <==> !Frames.ScanReads(chunks).fault
    ensures r.Returned? ==> r.text == Text.Concat(Frames.ScanReads(chunks).contents)
  {
    var scan := Frames.ScanReads(chunks);
    if scan.fault then MalformedFrame else Returned(Text.Concat(scan.contents))
  }

  /** The reading loop: the reads are decoded in order until a data line
      fails to parse; a rejected read is rethrown once every read before it
      has been decoded. */
  function ReadBody(body: Body): (r: SendOutcome)
    ensures body.rejection.None? ==> r == Accumulate(body.chunks)
    ensures r.MalformedFrame? <==> Frames.ScanReads(body.chunks).fault
    ensures r.Threw? <==> !Frames.ScanReads(body.chunks).fault && body.rejection.Some?
    ensures r.Threw? ==> r.error == body.rejection.value
  {
    match body.rejection
    case None => Accumulate(body.chunks)
    case Some(e) => if Frames.ScanReads(body.chunks).fault then MalformedFrame else Threw(e)
  }

  /** How `sendMessage` ends once `fetch` has answered. */
  function Receive(response: FetchOutcome): (r: SendRun)
    ensures !r.isLoading
    ensures response.FetchFailed? ==> r.outcome == Threw(response.error)
    ensures response.Responded? && !response.ok ==> r.outcome == Threw(NotOkError)
    ensures response.Responded? && response.ok && response.body.None? ==> r.outcome == Returned("")
    ensures response.Responded? && response.ok && response.body.Some? && response.body.value.rejection.None? ==>
      r.outcome == Accumulate(response.body.value.chunks)
    ensures response.Responded? && response.ok && response.body.Some? && response.body.value.rejection.Some? ==>
      r.outcome == if Frames.ScanReads(response.body.value.chunks).fault then MalformedFrame
                   else Threw(response.body.value.rejection.value)
  {
    var outcome :=
      match response
      case FetchFailed(e) => Threw(e)
      case Responded(ok, body) =>
        if !ok then Threw(NotOkError)
        else
          match body
          case None => Returned("")
          case Some(b) => ReadBody(b);
    SendRun(outcome, false)
  }

  /** `sendMessage(message)` as written: it posts `{ prompt: message }`. */
  function SendMessage(message: string, fetch: ChatRoute.RequestJson -> FetchOutcome): (r: SendRun)
    ensures !r.isLoading
    ensures exists b: ChatRoute.RequestJson :: (b.Object? && "prompt" in b.fields && b.fields["prompt"] == message
      && ChatRoute.MessageOf(b) == None && r == Receive(fetch(b)))
  {
    assert "message" !in PromptBody(message).fields;
    Receive(fetch(PromptBody(message)))
  }

  /** `sendMessage(message)` posting `{ message }`, the body the route reads. */
  function SendMessageFixed(message: string, fetch: ChatRoute.RequestJson -> FetchOutcome): (r: SendRun)
    ensures !r.isLoading
    ensures exists b: ChatRoute.RequestJson :: (b.Object? && ChatRoute.MessageOf(b) == Some(message)
      && r == Receive(fetch(b)))
  {
    Receive(fetch(ChatRoute.RequestFor(message)))
  }

  /** What `fetch` hands the hook for a response of `POST /api/chat`: the
      stream's ok response with its whole body in one read, or the 500
      response, which is not ok. */
  function Delivered(response: ChatRoute.Response): (r: FetchOutcome)
    ensures r.Responded? && r.body.Some? && r.body.value.rejection.None?
    ensures r.ok <==> response.EventStream?
    ensures response.EventStream? ==> r.body.value.chunks == [Text.Concat(response.frames)]
  {
    match response
    case EventStream(_, frames) => Responded(true, Some(Body([Text.Concat(frames)], None)))
    case JsonError(_, body) => Responded(false, Some(Body([body], None)))
  }

  /** `fetch` as the route answers it. */
  function RouteFetch(generate: Option<string> -> ChatRoute.Generation): ChatRoute.RequestJson -> FetchOutcome {
    (b: ChatRoute.RequestJson) => Delivered(ChatRoute.Post(b, generate))
  }

  /** The hook as written, talking to the route: the text that comes back is
      the same whatever was typed, namely what the generator produces for an
      `undefined` message. */
  lemma HookIgnoresMessage(m1: string, m2: string, generate: Option<string> -> ChatRoute.Generation)
    ensures SendMessage(m1, RouteFetch(generate)) == SendMessage(m2, RouteFetch(generate))
    ensures !generate(None).throws ==>
      SendMessage(m1, RouteFetch(generate)).outcome == Returned(Text.Concat(generate(None).chunks))
  {
    PromptBodyUnread(m1, m2);
    ChatRoute.OnlyMessageMatters(PromptBody(m1), PromptBody(m2), generate);
    assert RouteFetch(generate)(PromptBody(m1)) == RouteFetch(generate)(PromptBody(m2));
    if !generate(None).throws {
      RouteAnswer(PromptBody(m1), generate);
    }
  }

  /** The corrected hook, talking to the route: it returns the chunks the
      generator produced for the typed message, and throws
      `Failed to send message` when the generator throws. */
  lemma FixedHookGetsAnswer(message: string, generate: Option<string> -> ChatRoute.Generation)
    ensures !generate(Some(message)).throws ==>
      SendMessageFixed(message, RouteFetch(generate)).outcome == Returned(Text.Concat(generate(Some(message)).chunks))
    ensures generate(Some(message)).throws ==>
      SendMessageFixed(message, RouteFetch(generate)).outcome == Threw(NotOkError)
  {
    assert ChatRoute.MessageOf(ChatRoute.RequestFor(message)) == Some(message);
    if !generate(Some(message)).throws {
      RouteAnswer(ChatRoute.RequestFor(message), generate);
    }
  }

  /** An event stream the route answers with reads back, through the hook,
      as the generated chunks. */
  lemma RouteAnswer(body: ChatRoute.RequestJson, generate: Option<string> -> ChatRoute.Generation)
    requires body.Object? && !generate(ChatRoute.MessageOf(body)).throws
    ensures Receive(RouteFetch(generate)(body)).outcome
      == Returned(Text.Concat(generate(ChatRoute.MessageOf(body)).chunks))
  {
    var chunks := generate(ChatRoute.MessageOf(body)).chunks;
    assert ChatRoute.Post(body, generate).frames == Frames.Frames(chunks);
    assert [chunks][1..] == [];
    assert Frames.ReadsOf([chunks]) == [Frames.FrameText(chunks)];
    assert Frames.Flatten([chunks]) == chunks;
    Frames.ScanWholeFrameReads([chunks]);
  }

  /** Data lines are the only ones read: a read of blank lines and other
      text contributes nothing. */
  lemma OtherLinesIgnored(read: string)
    requires forall i :: 0 <= i < |Text.Split(read, '\n')| ==> !Text.StartsWith(Text.Split(read, '\n')[i], Frames.DataPrefix)
    ensures Accumulate([read]) == Returned("")
  {
    Frames.ScanSkipsOtherLines(Text.Split(read, '\n'), []);
    assert Text.Split(read, '\n') + [] == Text.Split(read, '\n');
    assert Frames.ScanRead(read) == Frames.Scan([], false);
    assert [read][1..] == [];
    assert Frames.ScanReads([read]) == Frames.Scan([], false);
  }

  /** When every read holds whole frames and the reader then reports `done`,
      the result is the concatenation of the values the server framed, in
      order. */
  lemma ReceiveReadsFrames(groups: seq<seq<string>>)
    ensures Receive(Responded(true, Some(Body(Frames.ReadsOf(groups), None)))).outcome
      == Returned(Text.Concat(Frames.Flatten(groups)))
  {
    Frames.ScanWholeFrameReads(groups);
  }

  /** A read that rejects after reads of whole frames throws its error: the
      text decoded so far is lost. */
  lemma RejectedReadThrows(groups: seq<seq<string>>, e: Error)
    ensures Receive(Responded(true, Some(Body(Frames.ReadsOf(groups), Some(e))))).outcome == Threw(e)
  {
    Frames.ScanWholeFrameReads(groups);
  }
}
