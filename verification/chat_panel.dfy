/** components/customer-service-chatbot.tsx: the message list of the
    Next.js chat panel and how `handleSubmit` changes it.

  A submit with text (after trimming) while no request is pending appends
  the user's message, posts it, and merges every `content` the event
  stream carries into the conversation: the first opens an assistant
  message, every later one is added to it after a space.  Any fault adds
  a fixed apology from the assistant.  The input is cleared and the
  loading flag is reset at the end.

  The functional `setMessages(prev => …)` updates are applied in order, so
  each is a function from the message list to the next one.  Rendering is
  not modelled.
 */
module ChatPanel {
  import opened Outcomes
  import Text
  import Frames
  import ChatRoute
  import ChatHook

  datatype Role = User | Assistant

  datatype Message = Message(role: Role, content: string)

  datatype State = State(messages: seq<Message>, input: string, isLoading: bool)

  const Initial: State := State([], "", false)

  const Apology: Message := Message(Assistant, "Sorry, there was an error processing your request.")

  /** The update one decoded frame makes: the last message grows by a space
      and the content when it is the assistant's; otherwise a new assistant
      message is appended. */
  function Merge(messages: seq<Message>, content: string): (r: seq<Message>)
    ensures |r| == |messages| || |r| == |messages| + 1
    ensures |r| > 0 && r[|r| - 1].role == Assistant
    ensures forall i :: 0 <= i < |messages| - 1 ==> r[i] == messages[i]
    ensures (|messages| > 0 && messages[|messages| - 1].role == Assistant) ==>
      |r| == |messages| &&
      r[|r| - 1].content == messages[|messages| - 1].content + " " + content
    ensures (|messages| == 0 || messages[|messages| - 1].role != Assistant) ==>
      r == messages + [Message(Assistant, content)]
  {
    if |messages| > 0 && messages[|messages| - 1].role == Assistant then
      var last := messages[|messages| - 1];
      messages[..|messages| - 1] + [Message(Assistant, last.content + " " + content)]
    else
      messages + [Message(Assistant, content)]
  }

  /** The frames, merged one after another. */
  function MergeAll(messages: seq<Message>, contents: seq<string>): (r: seq<Message>)
    decreases |contents|
  {
    if |contents| == 0 then messages else MergeAll(Merge(messages, contents[0]), contents[1..])
  }

  lemma JoinHead(x: string, y: string, rest: seq<string>, sep: string)
    ensures Text.Join([x + sep + y] + rest, sep) == Text.Join([x, y] + rest, sep)
  {
    var a, b := [x + sep + y] + rest, [x, y] + rest;
    assert b[1..] == [y] + rest;
    if |rest| > 0 {
      assert a[1..] == rest;
      assert ([y] + rest)[1..] == rest;
    }
  }

  /** Frames after an assistant message all extend that one message. */
  lemma {:induction false} MergeExtendsLast(base: seq<Message>, a: string, contents: seq<string>)
    ensures MergeAll(base + [Message(Assistant, a)], contents)
      == base + [Message(Assistant, Text.Join([a] + contents, " "))]
    decreases |contents|
  {
    if |contents| == 0 {
      assert [a] + contents == [a];
    } else {
      var a' := a + " " + contents[0];
      MergeStep(base, a, contents[0]);
      MergeExtendsLast(base, a', contents[1..]);
      JoinHead(a, contents[0], contents[1..], " ");
      assert [a, contents[0]] + contents[1..] == [a] + contents;
    }
  }

  /** A frame after an assistant message extends it by a space and the content. */
  lemma MergeStep(base: seq<Message>, a: string, content: string)
    ensures Merge(base + [Message(Assistant, a)], content) == base + [Message(Assistant, a + " " + content)]
  {
    var m := base + [Message(Assistant, a)];
    assert m[..|m| - 1] == base;
  }

  /** After a message that is not the assistant's, the frames of one reply
      make exactly one assistant message: their contents joined by spaces.
      No frame at all adds nothing. */
  lemma MergeReply(base: seq<Message>, contents: seq<string>)
    requires |base| > 0 && base[|base| - 1].role != Assistant
    ensures MergeAll(base, contents)
      == if |contents| == 0 then base else base + [Message(Assistant, Text.Join(contents, " "))]
  {
    if |contents| > 0 {
      MergeExtendsLast(base, contents[0], contents[1..]);
      assert [contents[0]] + contents[1..] == contents;
    }
  }

  /** Nothing is sent: the input is blank after trimming, or a request is pending. */
  predicate Ignored(s: State) {
    Text.Trim(s.input) == "" || s.isLoading
  }

  /** The messages once the response has been read. */
  function Replies(withUser: seq<Message>, response: ChatHook.FetchOutcome): seq<Message> {
    match response
    case FetchFailed(_) => withUser + [Apology]
    case Responded(ok, body) =>
      if !ok then withUser + [Apology]
      else
        match body
        case None => withUser + [Apology]   // "No reader available"
        case Some(b) =>
          var scan := Frames.ScanReads(b.chunks);
          var merged := MergeAll(withUser, scan.contents);
          if scan.fault || b.rejection.Some? then merged + [Apology] else merged
  }

  /** What `fetch` answers to the post of the trimmed input. */
  function Answer(s: State, fetch: ChatRoute.RequestJson -> ChatHook.FetchOutcome): ChatHook.FetchOutcome {
    fetch(ChatRoute.RequestFor(Text.Trim(s.input)))
  }

  /** `handleSubmit`, with `fetch` answering the post of `{ message }`. */
  function HandleSubmit(s: State, fetch: ChatRoute.RequestJson -> ChatHook.FetchOutcome): (r: State)
    ensures Ignored(s) ==> r == s
    ensures !Ignored(s) ==>
      r.input == "" && !r.isLoading &&
      |r.messages| >= |s.messages| + 1 &&
      r.messages[..|s.messages| + 1] == s.messages + [Message(User, Text.Trim(s.input))]
    ensures (!Ignored(s) &&
      (Answer(s, fetch).FetchFailed? ||
       !Answer(s, fetch).ok ||
       Answer(s, fetch).body.None?)) ==>
      r.messages == s.messages + [Message(User, Text.Trim(s.input)), Apology]
    ensures (!Ignored(s) &&
      Answer(s, fetch).Responded? &&
      Answer(s, fetch).ok &&
      Answer(s, fetch).body.Some?) ==>
      var b := Answer(s, fetch).body.value;
      var scan := Frames.ScanReads(b.chunks);
      r.messages == s.messages + [Message(User, Text.Trim(s.input))] + Streamed(scan.contents)
                    + (if scan.fault || b.rejection.Some? then [Apology] else [])
  {
    if Ignored(s) then s
    else
      var text := Text.Trim(s.input);
      var withUser := s.messages + [Message(User, text)];
      var response := Answer(s, fetch);
      RepliesKeepUser(withUser, response);
      RepliesOfFailure(withUser, response);
      RepliesOfBody(withUser, response);
      AppendPair(s.messages, Message(User, text), Apology);
      State(Replies(withUser, response), "", false)
  }

  /** A fetch failure, a response that is not ok, or one without a reader
      gives the apology alone. */
  lemma RepliesOfFailure(withUser: seq<Message>, response: ChatHook.FetchOutcome)
    ensures (response.FetchFailed? || !response.ok || response.body.None?) ==>
      Replies(withUser, response) == withUser + [Apology]
  {
  }

  /** A body that was read gives the streamed reply, then the apology if a
      data line failed to parse or a read was rejected. */
  lemma RepliesOfBody(withUser: seq<Message>, response: ChatHook.FetchOutcome)
    requires |withUser| > 0 && withUser[|withUser| - 1].role == User
    ensures response.Responded? && response.ok && response.body.Some? ==>
      var b := response.body.value;
      var scan := Frames.ScanReads(b.chunks);
      Replies(withUser, response)
        == withUser + Streamed(scan.contents) + (if scan.fault || b.rejection.Some? then [Apology] else [])
  {
    if response.Responded? && response.ok && response.body.Some? {
      MergeReply(withUser, Frames.ScanReads(response.body.value.chunks).contents);
    }
  }

  /** The assistant message a reply's streamed contents make: none for an
      empty stream, else one holding the contents joined by spaces. */
  function Streamed(contents: seq<string>): (r: seq<Message>)
    ensures |r| <= 1
    ensures |r| == 0 <==> |contents| == 0
    ensures forall i :: 0 <= i < |r| ==> r[i].role == Assistant
  {
    if |contents| == 0 then [] else [Message(Assistant, Text.Join(contents, " "))]
  }

  /** Reading the response only adds messages after the user's. */
  lemma RepliesKeepUser(withUser: seq<Message>, response: ChatHook.FetchOutcome)
    requires |withUser| > 0 && withUser[|withUser| - 1].role == User
    ensures |Replies(withUser, response)| >= |withUser|
    ensures Replies(withUser, response)[..|withUser|] == withUser
  {
    var r := Replies(withUser, response);
    if response.Responded? && response.ok && response.body.Some? {
      var scan := Frames.ScanReads(response.body.value.chunks);
      MergeReply(withUser, scan.contents);
      var merged := MergeAll(withUser, scan.contents);
      assert merged[..|withUser|] == withUser;
      if scan.fault || response.body.value.rejection.Some? {
        assert r == merged + [Apology];
        assert r[..|withUser|] == merged[..|withUser|];
      }
    } else {
      assert r == withUser + [Apology];
    }
  }

  /** A submit whose answer arrives in reads of whole frames adds the user's
      message and one assistant message holding the streamed values joined
      by spaces (nothing more when the stream is empty). */
  lemma SubmitShowsReply(s: State, fetch: ChatRoute.RequestJson -> ChatHook.FetchOutcome, groups: seq<seq<string>>)
    requires !Ignored(s)
    requires Answer(s, fetch) == ChatHook.Responded(true, Some(ChatHook.Body(Frames.ReadsOf(groups), None)))
    ensures |Frames.Flatten(groups)| > 0 ==>
      HandleSubmit(s, fetch).messages == s.messages + [
        Message(User, Text.Trim(s.input)),
        Message(Assistant, Text.Join(Frames.Flatten(groups), " "))]
    ensures |Frames.Flatten(groups)| == 0 ==>
      HandleSubmit(s, fetch).messages == s.messages + [Message(User, Text.Trim(s.input))]
  {
    Frames.ScanWholeFrameReads(groups);
    SubmitShowsValues(s, fetch, Frames.ReadsOf(groups), Frames.Flatten(groups));
  }

  /** A submit whose body reads cleanly as `values` shows them as one reply. */
  lemma SubmitShowsValues(s: State, fetch: ChatRoute.RequestJson -> ChatHook.FetchOutcome,
                          chunks: seq<string>, values: seq<string>)
    requires !Ignored(s)
    requires Answer(s, fetch) == ChatHook.Responded(true, Some(ChatHook.Body(chunks, None)))
    requires Frames.ScanReads(chunks) == Frames.Scan(values, false)
    ensures |values| > 0 ==>
      HandleSubmit(s, fetch).messages == s.messages + [
        Message(User, Text.Trim(s.input)),
        Message(Assistant, Text.Join(values, " "))]
    ensures |values| == 0 ==>
      HandleSubmit(s, fetch).messages == s.messages + [Message(User, Text.Trim(s.input))]
  {
    var user := Message(User, Text.Trim(s.input));
    var withUser := s.messages + [user];
    SubmitReads(s, fetch);
    RepliesOfClean(withUser, chunks, values);
    if |values| > 0 {
      AppendPair(s.messages, user, Message(Assistant, Text.Join(values, " ")));
    }
  }

  lemma AppendPair(messages: seq<Message>, x: Message, y: Message)
    ensures messages + [x] + [y] == messages + [x, y]
  {
  }

  lemma RepliesOfClean(withUser: seq<Message>, chunks: seq<string>, values: seq<string>)
    requires |withUser| > 0 && withUser[|withUser| - 1].role == User
    requires Frames.ScanReads(chunks) == Frames.Scan(values, false)
    ensures Replies(withUser, ChatHook.Responded(true, Some(ChatHook.Body(chunks, None))))
      == if |values| == 0 then withUser else withUser + [Message(Assistant, Text.Join(values, " "))]
  {
    MergeReply(withUser, values);
  }

  lemma SubmitReads(s: State, fetch: ChatRoute.RequestJson -> ChatHook.FetchOutcome)
    requires !Ignored(s)
    ensures HandleSubmit(s, fetch).messages
      == Replies(s.messages + [Message(User, Text.Trim(s.input))], Answer(s, fetch))
  {
  }

  /** A submit never changes or removes a message already shown. */
  lemma SubmitKeepsHistory(s: State, fetch: ChatRoute.RequestJson -> ChatHook.FetchOutcome)
    ensures |HandleSubmit(s, fetch).messages| >= |s.messages|
    ensures HandleSubmit(s, fetch).messages[..|s.messages|] == s.messages
  {
    if !Ignored(s) {
      var r := HandleSubmit(s, fetch).messages;
      assert r[..|s.messages|] == r[..|s.messages| + 1][..|s.messages|];
    }
  }
}
