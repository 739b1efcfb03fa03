/** rivernext/app/api/chat/route.ts: the `POST /api/chat` handler of the
    rivernext app.

  The handler requires a non-empty `messages` array, forwards it unchanged
  to the model in one request, and answers with the text items of the
  reply's `content`, joined by single spaces, as `{ content }`.  Anything
  that throws — the validation, the model call, reading or parsing the
  reply — is answered with status 500 and the thrown error's message.

  The model client is the parameter `invoke`; the conversion of the reply
  stream to text and its JSON parse are folded into what it returns.
  A conversation turn is kept as the JSON text it arrived as, since the
  route never looks inside it.
 */
module ReplyRoute {
  import opened Outcomes
  import Text
  import Frames

  /** One conversation turn, as the JSON text the client sent. */
  datatype Turn = Turn(json: string)

  /** The `messages` field: missing or falsy, present but not an array, or an array. */
  datatype MessagesField = Missing | NotArray | Array(turns: seq<Turn>)

  datatype RequestBody = Unparsable(parseError: Error) | Body(messages: MessagesField)

  const ModelId: string := "us.anthropic.claude-3-5-haiku-20241022-v1:0"
  const AnthropicVersion: string := "bedrock-2023-05-31"
  const MaxTokens: int := 1024

  /** The fields of the model request that the model keeps. */
  datatype ModelRequest = ModelRequest(modelId: string, anthropicVersion: string, messages: seq<Turn>, maxTokens: int)

  /** One item of the reply's `content`: its `type`, and its `text`
      (`None` where it is `undefined` or `null`, which `join` writes as ""). */
  datatype ContentItem = ContentItem(kind: string, text: Option<string>)

  /** What the model call gives back: the reply's content items, or a
      thrown value (an `Error` with its message, or something else). */
  datatype ModelOutcome = Replied(content: seq<ContentItem>) | Raised(error: Option<Error>)

  datatype Response = Response(status: int, body: string)

  const ValidationMessage: string := "Messages array is required and must not be empty"
  const FallbackMessage: string := "Internal Server Error"

  /** `NextResponse.json({ error: message }, { status: 500 })`. */
  function ErrorResponse(message: string): (r: Response)
    ensures r.status == 500
    ensures Frames.ParseMember("error", r.body) == Some(message)
  {
    Frames.ParseMemberJson("error", message);
    Response(500, Frames.MemberJson("error", message))
  }

  /** `NextResponse.json({ content: reply }, { status: 200 })`. */
  function ReplyResponse(reply: string): (r: Response)
    ensures r.status == 200
    ensures Frames.ParseContent(r.body) == Some(reply)
  {
    Frames.ParseMemberJson("content", reply);
    Response(200, Frames.ContentJson(reply))
  }

  /** The texts of the `text` items, in order. */
  function TextsOf(items: seq<ContentItem>): (r: seq<string>)
    ensures |r| <= |items|
    decreases |items|
  {
    if |items| == 0 then []
    else
      var rest := TextsOf(items[1..]);
      if items[0].kind == "text" then [items[0].text.GetOr("")] + rest else rest
  }

  /** `content.filter(item => item.type === 'text').map(item => item.text).join(' ')`. */
  function Reply(items: seq<ContentItem>): string {
    Text.Join(TextsOf(items), " ")
  }

  lemma {:induction false} TextsOfAppend(a: seq<ContentItem>, b: seq<ContentItem>)
    ensures TextsOf(a + b) == TextsOf(a) + TextsOf(b)
    decreases |a|
  {
    if |a| == 0 {
      assert a + b == b;
    } else {
      assert (a + b)[1..] == a[1..] + b;
      TextsOfAppend(a[1..], b);
    }
  }

  /** An item of any other type contributes nothing, wherever it stands. */
  lemma NonTextIgnored(before: seq<ContentItem>, item: ContentItem, after: seq<ContentItem>)
    requires item.kind != "text"
    ensures Reply(before + [item] + after) == Reply(before + after)
  {
    TextsOfAppend(before + [item], after);
    TextsOfAppend(before, [item]);
    TextsOfAppend(before, after);
    assert [item][1..] == [];
    assert TextsOf([item]) == [];
    assert TextsOf(before + [item] + after) == TextsOf(before) + TextsOf(after);
  }

  /** When every item is text, the reply holds every text, in order: split
      at single spaces it gives them back, as long as no text holds a space
      itself. */
  lemma {:induction false} ReplySplitsIntoTexts(items: seq<ContentItem>)
    requires |items| >= 1
    requires forall i :: 0 <= i < |items| ==> items[i].kind == "text" && items[i].text.Some?
    requires forall i :: 0 <= i < |items| ==> ' ' !in items[i].text.value
    ensures Text.Split(Reply(items), ' ') == seq(|items|, i requires 0 <= i < |items| => items[i].text.value)
  {
    AllTexts(items);
    Text.SplitJoin(TextsOf(items), ' ');
  }

  lemma {:induction false} AllTexts(items: seq<ContentItem>)
    requires forall i :: 0 <= i < |items| ==> items[i].kind == "text" && items[i].text.Some?
    ensures TextsOf(items) == seq(|items|, i requires 0 <= i < |items| => items[i].text.value)
    decreases |items|
  {
    if |items| > 0 {
      AllTexts(items[1..]);
    }
  }

  /** `POST(req)`: the request sent to the model (when validation passes) and the response. */
  datatype Exchange = Exchange(request: Option<ModelRequest>, response: Response)

  function Post(body: RequestBody, invoke: ModelRequest -> ModelOutcome): (r: Exchange)
    ensures body.Unparsable? ==> r == Exchange(None, ErrorResponse(body.parseError.message))
    ensures (body.Body? && !(body.messages.Array? && |body.messages.turns| > 0)) ==>
      r == Exchange(None, ErrorResponse(ValidationMessage))
    ensures (body.Body? && body.messages.Array? && |body.messages.turns| > 0) ==>
      r.request == Some(ModelRequest(ModelId, AnthropicVersion, body.messages.turns, MaxTokens))
    ensures r.request.Some? && invoke(r.request.value).Replied? ==>
      r.response == ReplyResponse(Reply(invoke(r.request.value).content))
    ensures r.request.Some? && invoke(r.request.value).Raised? ==>
      r.response == ErrorResponse(
        match invoke(r.request.value).error
        case Some(e) => e.message
        case None => FallbackMessage)
    ensures r.response.status == 200 <==> r.request.Some? && invoke(r.request.value).Replied?
  {
    match body
    case Unparsable(e) => Exchange(None, ErrorResponse(e.message))
    case Body(messages) =>
      if !messages.Array? || |messages.turns| == 0 then Exchange(None, ErrorResponse(ValidationMessage))
      else
        var request := ModelRequest(ModelId, AnthropicVersion, messages.turns, MaxTokens);
        Exchange(Some(request), Respond(invoke(request)))
  }

  /** The response to the model's outcome: the joined text, or the error's
      message (the fallback text when there is none). */
  function Respond(outcome: ModelOutcome): (r: Response)
    ensures r.status == 200 <==> outcome.Replied?
    ensures outcome.Replied? ==> r == ReplyResponse(Reply(outcome.content))
    ensures outcome.Raised? ==> r == ErrorResponse(if outcome.error.Some? then outcome.error.value.message else FallbackMessage)
  {
    match outcome
    case Replied(content) => ReplyResponse(Reply(content))
    case Raised(Some(e)) => ErrorResponse(e.message)
    case Raised(None) => ErrorResponse(FallbackMessage)
  }
}
