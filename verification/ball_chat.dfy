/** rivernext/components/customer-service-chatbot.tsx: the conversation
    of the rivernext chatbot and how `handleSend` changes it.

  The conversation opens with one greeting from the bot (id 1) and a
  counter at 2.  Sending trimmed text appends the user's message, posts it
  as a one-turn conversation, and appends one bot message: the reply's
  `content` when the response is ok and the content is a non-empty string,
  and otherwise the fixed error text.  Every appended message takes the
  next counter value.

  `fetch` is the parameter `fetch`: it fails, or answers with the `ok`
  flag and the body text.  The body is read as the one-member object the
  route writes (`{"content":…}`); any other body has no usable `content`.
  Rendering, scrolling and animation are not modelled.
 */
module BallChat {
  import opened Outcomes
  import Text
  import Frames
  import ReplyRoute

  datatype Sender = User | Bot

  datatype Message = Message(id: int, text: string, sender: Sender)

  datatype State = State(messages: seq<Message>, nextId: int, input: string, isTyping: bool)

  const Greeting: string := "Bounce into the world of Rivertown Ball Company!"
  const ErrorText: string := "Sorry, there was an error processing your request."

  const Initial: State := State([Message(1, Greeting, Bot)], 2, "", false)

  datatype FetchOutcome = FetchFailed | Received(ok: bool, body: string)

  /** Ids strictly increase along the conversation and stay below the counter. */
  predicate WellNumbered(s: State) {
    (forall i, j :: 0 <= i < j < |s.messages| ==> s.messages[i].id < s.messages[j].id) &&
    (forall i :: 0 <= i < |s.messages| ==> s.messages[i].id < s.nextId)
  }

  lemma InitialWellNumbered()
    ensures WellNumbered(Initial)
    ensures |Initial.messages| == 1 && Initial.messages[0].id == 1 && Initial.nextId == 2
  {
  }

  /** The JSON text of the one turn sent:
      `{ role: 'user', content: [{ type: 'text', text }] }`. */
  function TurnJson(text: string): string {
    "{\"role\":\"user\",\"content\":[{\"type\":\"text\",\"text\":" + Frames.Quote(text) + "}]}"
  }

  /** The request body: `{ messages: [turn] }`. */
  function RequestFor(text: string): (r: ReplyRoute.RequestBody)
    ensures r.Body? && r.messages.Array? && |r.messages.turns| == 1
  {
    ReplyRoute.Body(ReplyRoute.Array([ReplyRoute.Turn(TurnJson(text))]))
  }

  /** The bot's message text for a response: the content when the response
      is ok and the content is truthy, the error text otherwise. */
  function BotText(response: FetchOutcome): (r: string)
    ensures r != ""
    ensures r != ErrorText ==>
      response.Received? && response.ok && Frames.ParseContent(response.body) == Some(r)
    ensures (response.Received? && response.ok && Frames.ParseContent(response.body).Some?
             && Frames.ParseContent(response.body).value != "")
            ==> r == Frames.ParseContent(response.body).value
  {
    match response
    case FetchFailed => ErrorText
    case Received(ok, body) =>
      if !ok then ErrorText
      else
        match Frames.ParseContent(body)
        case Some(content) => if content != "" then content else ErrorText
        case None => ErrorText
  }

  /** `handleSend()`. */
  function HandleSend(s: State, fetch: ReplyRoute.RequestBody -> FetchOutcome): (r: State)
    ensures Text.Trim(s.input) == "" ==> r == s
    ensures Text.Trim(s.input) != "" ==>
      r.messages == s.messages + [
        Message(s.nextId, Text.Trim(s.input), User),
        Message(s.nextId + 1, BotText(fetch(RequestFor(Text.Trim(s.input)))), Bot)] &&
      r.nextId == s.nextId + 2 && r.input == "" && !r.isTyping
  {
    var text := Text.Trim(s.input);
    if text == "" then s
    else
      var user := Message(s.nextId, text, User);
      var bot := Message(s.nextId + 1, BotText(fetch(RequestFor(text))), Bot);
      State(s.messages + [user, bot], s.nextId + 2, "", false)
  }

  /** Sending keeps ids unique and increasing. */
  lemma HandleSendWellNumbered(s: State, fetch: ReplyRoute.RequestBody -> FetchOutcome)
    requires WellNumbered(s)
    ensures WellNumbered(HandleSend(s, fetch))
  {
    var text := Text.Trim(s.input);
    if text != "" {
      var s1 := Append(s, text, User);
      var s2 := Append(s1, BotText(fetch(RequestFor(text))), Bot);
      assert HandleSend(s, fetch).messages == s2.messages;
      assert HandleSend(s, fetch).nextId == s2.nextId;
    }
  }

  /** Ids stay unique from the greeting on, over any number of sends. */
  function SendAll(s: State, inputs: seq<string>, fetch: ReplyRoute.RequestBody -> FetchOutcome): (r: State)
    decreases |inputs|
  {
    if |inputs| == 0 then s
    else SendAll(HandleSend(s.(input := inputs[0]), fetch), inputs[1..], fetch)
  }

  lemma {:induction false} SendAllWellNumbered(s: State, inputs: seq<string>, fetch: ReplyRoute.RequestBody -> FetchOutcome)
    requires WellNumbered(s)
    ensures WellNumbered(SendAll(s, inputs, fetch))
    ensures |SendAll(s, inputs, fetch).messages| == |s.messages| + 2 * (|inputs| - CountBlank(inputs))
    decreases |inputs|
  {
    if |inputs| > 0 {
      var s' := HandleSend(s.(input := inputs[0]), fetch);
      HandleSendWellNumbered(s.(input := inputs[0]), fetch);
      SendAllWellNumbered(s', inputs[1..], fetch);
    }
  }

  /** How many inputs are blank once trimmed. */
  function CountBlank(inputs: seq<string>): (n: nat)
    ensures n <= |inputs|
    ensures n == 0 <==> forall i :: 0 <= i < |inputs| ==> Text.Trim(inputs[i]) != ""
    ensures n == |inputs| <==> forall i :: 0 <= i < |inputs| ==> Text.Trim(inputs[i]) == ""
    decreases |inputs|
  {
    if |inputs| == 0 then 0 else (if Text.Trim(inputs[0]) == "" then 1 else 0) + CountBlank(inputs[1..])
  }

  // ---------------------------------------------------------------------
  // Overlapping sends

  /** Nothing stops a second send while a reply is pending (`isTyping` only
      shows the typing indicator), so the two halves of `handleSend` can
      interleave with another send's: the user message goes in when the send
      starts, the bot message when its response has been read. */
  datatype Event = Started(typed: string) | Answered(response: FetchOutcome)

  /** A message appended with the counter's value; the counter moves on. */
  function Append(s: State, text: string, sender: Sender): (r: State)
    ensures r.messages == s.messages + [Message(s.nextId, text, sender)]
    ensures r.nextId == s.nextId + 1
    ensures WellNumbered(s) ==> WellNumbered(r)
  {
    s.(messages := s.messages + [Message(s.nextId, text, sender)], nextId := s.nextId + 1)
  }

  /** One half of a send: each adds at most one message and keeps the
      conversation well numbered. */
  function Step(s: State, e: Event): (r: State)
    ensures |s.messages| <= |r.messages| <= |s.messages| + 1
    ensures r.messages[..|s.messages|] == s.messages
    ensures WellNumbered(s) ==> WellNumbered(r)
  {
    match e
    case Started(typed) =>
      if Text.Trim(typed) == "" then s
      else Append(s, Text.Trim(typed), User).(input := "", isTyping := true)
    case Answered(response) => Append(s, BotText(response), Bot).(isTyping := false)
  }

  /** The state after a sequence of send halves, in the order they happen. */
  function Run(s: State, events: seq<Event>): State
    decreases |events|
  {
    if |events| == 0 then s else Run(Step(s, events[0]), events[1..])
  }

  /** However the halves of several sends interleave, every message gets an
      id of its own, ids increase along the conversation, and each event
      adds at most one message. */
  lemma {:induction false} RunWellNumbered(s: State, events: seq<Event>)
    requires WellNumbered(s)
    ensures WellNumbered(Run(s, events))
    ensures |s.messages| <= |Run(s, events).messages| <= |s.messages| + |events|
    ensures Run(s, events).messages[..|s.messages|] == s.messages
    decreases |events|
  {
    if |events| > 0 {
      var s' := Step(s, events[0]);
      RunWellNumbered(s', events[1..]);
      var r := Run(s', events[1..]);
      assert Run(s, events) == r;
      assert r.messages[..|s.messages|] == r.messages[..|s'.messages|][..|s.messages|];
    }
  }

  /** A send left to finish on its own is its two halves run back to back. */
  lemma HandleSendHalves(s: State, fetch: ReplyRoute.RequestBody -> FetchOutcome)
    requires Text.Trim(s.input) != ""
    ensures HandleSend(s, fetch)
      == Run(s, [Started(s.input), Answered(fetch(RequestFor(Text.Trim(s.input))))])
  {
    var text := Text.Trim(s.input);
    var response := fetch(RequestFor(text));
    RunTwo(s, Started(s.input), Answered(response));
    var s1 := State(s.messages + [Message(s.nextId, text, User)], s.nextId + 1, "", true);
    assert Step(s, Started(s.input)) == s1;
    assert Step(s1, Answered(response)).messages
      == s.messages + [Message(s.nextId, text, User), Message(s.nextId + 1, BotText(response), Bot)];
  }

  lemma RunTwo(s: State, a: Event, b: Event)
    ensures Run(s, [a, b]) == Step(Step(s, a), b)
  {
    assert [a, b][1..] == [b];
    assert [b][1..] == [];
    assert Run(s, [a, b]) == Run(Step(s, a), [b]);
    assert Run(Step(s, a), [b]) == Run(Step(Step(s, a), b), []);
  }

  /** The request a send makes passes the route's validation and reaches
      the model with the one turn. */
  lemma SendPassesValidation(text: string, invoke: ReplyRoute.ModelRequest -> ReplyRoute.ModelOutcome)
    ensures ReplyRoute.Post(RequestFor(text), invoke).request
      == Some(ReplyRoute.ModelRequest(ReplyRoute.ModelId, ReplyRoute.AnthropicVersion,
                                      [ReplyRoute.Turn(TurnJson(text))], ReplyRoute.MaxTokens))
  {
  }

  /** Against the rivernext route, a send shows the model's joined text
      items, or the error text when the model call fails or its text is empty. */
  lemma SendThroughRoute(s: State, invoke: ReplyRoute.ModelRequest -> ReplyRoute.ModelOutcome)
    requires Text.Trim(s.input) != ""
    ensures var fetch := (b: ReplyRoute.RequestBody) =>
              Received(ReplyRoute.Post(b, invoke).response.status == 200, ReplyRoute.Post(b, invoke).response.body);
            var request := ReplyRoute.ModelRequest(ReplyRoute.ModelId, ReplyRoute.AnthropicVersion,
                             [ReplyRoute.Turn(TurnJson(Text.Trim(s.input)))], ReplyRoute.MaxTokens);
            HandleSend(s, fetch).messages[|s.messages| + 1].text ==
              if invoke(request).Replied? && ReplyRoute.Reply(invoke(request).content) != ""
              then ReplyRoute.Reply(invoke(request).content)
              else ErrorText
  {
    var text := Text.Trim(s.input);
    var fetch := (b: ReplyRoute.RequestBody) =>
      Received(ReplyRoute.Post(b, invoke).response.status == 200, ReplyRoute.Post(b, invoke).response.body);
    var response := ReplyRoute.Post(RequestFor(text), invoke).response;
    assert fetch(RequestFor(text)) == Received(response.status == 200, response.body);
    RouteBotText(text, invoke);
    assert HandleSend(s, fetch).messages[|s.messages| + 1].text == BotText(fetch(RequestFor(text)));
  }

  /** The bot text for the route's answer to a one-turn request. */
  lemma RouteBotText(text: string, invoke: ReplyRoute.ModelRequest -> ReplyRoute.ModelOutcome)
    ensures var request := ReplyRoute.ModelRequest(ReplyRoute.ModelId, ReplyRoute.AnthropicVersion,
                             [ReplyRoute.Turn(TurnJson(text))], ReplyRoute.MaxTokens);
            var response := ReplyRoute.Post(RequestFor(text), invoke).response;
            BotText(Received(response.status == 200, response.body)) ==
              if invoke(request).Replied? && ReplyRoute.Reply(invoke(request).content) != ""
              then ReplyRoute.Reply(invoke(request).content)
              else ErrorText
  {
    var request := ReplyRoute.ModelRequest(ReplyRoute.ModelId, ReplyRoute.AnthropicVersion,
                     [ReplyRoute.Turn(TurnJson(text))], ReplyRoute.MaxTokens);
    SendPassesValidation(text, invoke);
    var response := ReplyRoute.Post(RequestFor(text), invoke).response;
    match invoke(request)
    case Replied(content) =>
      assert response == ReplyRoute.ReplyResponse(ReplyRoute.Reply(content));
    case Raised(e) =>
      var message := if e.Some? then e.value.message else ReplyRoute.FallbackMessage;
      assert response == ReplyRoute.ErrorResponse(message);
      ErrorBodyHasNoContent(message);
  }

  /** An error body never reads as having content. */
  lemma ErrorBodyHasNoContent(message: string)
    ensures Frames.ParseContent(ReplyRoute.ErrorResponse(message).body) == None
  {
    var body := ReplyRoute.ErrorResponse(message).body;
    var open := "{" + Frames.Quote("content") + ":\"";
    assert body[1] == '"' && body[2] == 'e';
    if |body| >= |open| + 2 {
      assert open[2] == 'c';
      assert body[..|open|] != open;
    }
  }
}
