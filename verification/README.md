# Rivertown Ball Company chatbot — a Dafny model of its core

The Rivertown Ball Company chatbot answers customer questions with text
from an Amazon Bedrock knowledge base, and looks up customers' orders in a
DynamoDB table. This project models the parts of it whose behaviour can be
stated exactly. Each is a pure function over immutable data, with its
promises proved.

- **Order lookup** (`get_customer_orders`, module `CustomerOrders`, dates
  in `Dates`). It title-cases the query names and takes the first customer
  the scan returns. It turns each raw order into a processed one: the date
  goes from `YYYY-MM-DD` to `Month DD, YYYY` and the quantity goes through
  `int()`. Orders that raise are skipped.
- **The Python RAG responder** (`get_response_with_rag` of
  `bedrock_utils.py`, module `RagResponder`). It extracts passages, joins
  the context and lays out the prompt. It then emits the streamed
  completion fragments and ends with a fixed apology on any fault.
- **Knowledge-base export** (`convert_to_text.py`, module
  `KnowledgeExport`). It prints the category headers, the cleaned entries
  and the separators, and checks the command-line arguments.
- **Event-stream framing** (module `Frames`). Every chunk goes on the wire
  as `data: <JSON>\n\n`, where the JSON is `JSON.stringify({content})`.
  The model includes the decoder the clients use and the round trip
  between encoder and decoder.
- **The Next.js streaming path.** It covers three pieces:
  - the TypeScript responder (`StreamingResponder`), which splits a
    completion into words and frames each word;
  - the `POST /api/chat` route (`ChatRoute`);
  - the `useChat` hook (`ChatHook`) and the chat panel's `handleSubmit`
    (`ChatPanel`), which merges frames into the message list.
- **The rivernext app.** Its route validates `messages` and joins the
  model's text items (`ReplyRoute`). Its chatbot appends messages with a
  running id counter (`BallChat`).

Shared definitions live in `Outcomes` (Option, Result, error values,
filter-map) and `Text`. `Text` holds join, split, strip and trim,
title-casing, `replace` and character removal, as Python and JavaScript
define them.

Services are parameters. These are:
- the DynamoDB scan (a `Store`: its items in scan order, or unavailable);
- the Bedrock retrieve and invoke calls;
- `fetch`;
- the route's `generateResponse`;
- Python's `float()` of a string.

Each is an ordinary total function, or data, that the caller supplies. A
generator is modelled by the finite list of values it yields, plus whether
it throws after them.

## Model

| member | source | states |
|---|---|---|
| CustomerOrders.GetCustomerOrders | app/utils/dynamo_utils.py:21-92 | A store fault gives `None`, and so does a table where no item has the title-cased first and last name. When some item matches, the result is the answer for the first matching item in scan order. |
| CustomerOrders.CustomerOrdersOf | app/utils/dynamo_utils.py:58-88 | A found customer's answer is `None` exactly when `orders` cannot be iterated. A list gives its processed orders, and an absent attribute or another iterable gives `[]`. |
| CustomerOrders.NoneCases | app/utils/dynamo_utils.py:52-92 | The lookup gives `None` exactly when the store fails, nobody matches, or the first match's `orders` cannot be iterated. |
| CustomerOrders.UniterableOrdersLookLikeNotFound | app/utils/dynamo_utils.py:64-92 | A found customer whose `orders` is null, a number, a boolean or binary gets `None`, the same answer as a missing customer. |
| CustomerOrders.LookupIgnoresCase | app/utils/dynamo_utils.py:30-31 | Two queries whose names differ only in letter case give the same answer. |
| CustomerOrders.UntitledNameUnreachable | app/utils/dynamo_utils.py:30-45 | A customer stored under a name that is not in title case (e.g. `McDonald`) is never matched, whatever casing the query uses. |
| CustomerOrders.MissingOrdersIsEmpty | app/utils/dynamo_utils.py:87-88 | If the first matching customer has no `orders` attribute, the result is `Some([])`, not `None`. |
| CustomerOrders.FaultLooksLikeNotFound | app/utils/dynamo_utils.py:90-92 | A store fault and an empty table both give `None`, so a caller cannot tell them apart. |
| CustomerOrders.ParseOrder | app/utils/dynamo_utils.py:65-78 | A processed order exists exactly when the raw order is a map holding all five keys, its date is a string `strptime` accepts, and `int()` of its quantity and `float()` of its price succeed. The order then has the raw `order_id` and `product`, those two numbers, and the accepted date in long form. |
| CustomerOrders.ProcessOrders | app/utils/dynamo_utils.py:64-82 | At most one output order per raw order, and every output order is the parse of some raw order. |
| CustomerOrders.ProcessOrdersAppend | app/utils/dynamo_utils.py:64-82 | Processing a concatenation gives the concatenation of the results: each order is handled on its own, in input order. |
| CustomerOrders.MalformedOrderSkipped | app/utils/dynamo_utils.py:79-82 | An order that raises is dropped and the orders around it are unaffected. |
| CustomerOrders.ProcessOrdersAllValid | app/utils/dynamo_utils.py:64-78 | When every order parses, the output is the parsed orders one for one, in input order. |
| CustomerOrders.ProcessOrdersLength | app/utils/dynamo_utils.py:84-85 | The number of processed orders equals the number of raw orders that parse. |
| CustomerOrders.TruncateTowardZero | app/utils/dynamo_utils.py:73 | `int()` of a number rounds toward zero: the result lies within one of the input, on the zero side. |
| CustomerOrders.ParseDecimalText | app/utils/dynamo_utils.py:73 | `int(str(n)) == n` for every integer, including negative ones. |
| CustomerOrders.ExampleOrder | app/utils/dynamo_utils.py:67-76 | The order dated `2024-03-01` with quantity `"2"` becomes an order dated `March 01, 2024` with quantity 2, its id and product unchanged. |
| Dates.ParseIso | app/utils/dynamo_utils.py:67 | `strptime('%Y-%m-%d')` yields only dates `datetime` can hold: years 1 to 9999, months 1 to 12, and a day the month has. |
| Dates.ParseIsoSpelled | app/utils/dynamo_utils.py:67 | Any text `strptime('%Y-%m-%d')` accepts spells the date it returns: four year digits, `-`, the month as two digits or (below 10) one, `-`, then the day as two digits or (below 10) one digit, bare or after a space, and nothing else. |
| Dates.SpellingsParse | app/utils/dynamo_utils.py:67 | Conversely, each such spelling of a valid date parses to that date. Together with `ParseIsoSpelled`, a text parses to `d` exactly when it spells the valid date `d`. |
| Dates.ParseIsoUnpadded | app/utils/dynamo_utils.py:67 | A valid date with a one-digit month or day also parses from its unpadded spellings, including a day written as a space and a digit. |
| Dates.ParseIsoForm | app/utils/dynamo_utils.py:67 | The canonical `YYYY-MM-DD` text of a date parses back to that date exactly when the date is valid, and is rejected otherwise. |
| Dates.LenientAndStrictExamples | app/utils/dynamo_utils.py:67 | Unpadded fields are accepted. 29 February is rejected outside leap years, year 0 is rejected, and trailing text is rejected. |
| Dates.LongFormInjective | app/utils/dynamo_utils.py:68 | `strftime('%B %d, %Y')` never shows two different valid dates alike. |
| Dates.ExampleDate | app/utils/dynamo_utils.py:67-68 | `2024-03-01` parses to 1 March 2024, which is shown as `March 01, 2024`. |
| Dates.Pad2 | app/utils/dynamo_utils.py:68 | The `%d` field is two digits whose value is the day. |
| Text.TitleIgnoresCase | app/utils/dynamo_utils.py:30 | `str.title()` depends only on the letters, not on their case. |
| Text.TitleIdempotent | app/utils/dynamo_utils.py:30 | Title-casing a title-cased string changes nothing. |
| RagResponder.Passage | bedrock_utils.py:64 | A missing `content` gives the empty passage and a string gives itself. Any other value is one the join rejects. |
| RagResponder.Passages | bedrock_utils.py:62-64 | One passage per retrieval result, in result order, unless some result's content is not a string. |
| RagResponder.Context | bedrock_utils.py:63-67 | A missing `retrievalResults` gives the empty context. The context exists exactly when the passages can be extracted, and it is then the passages joined by line breaks. |
| RagResponder.ContextSplitsIntoPassages | bedrock_utils.py:67 | Splitting the context at line breaks gives back the passages, when none holds a line break. |
| RagResponder.LayoutDeterminesQuestion | bedrock_utils.py:68 | For a fixed context the laid-out prompt determines the question: the text around the question is fixed. |
| RagResponder.EmitDecodable | bedrock_utils.py:88-91 | Without undecodable chunks, the loop emits exactly one fragment per `chunk` event, in order. A chunk without `completion` emits `""`, and other events emit nothing. |
| RagResponder.EmitStopsAtUndecodable | bedrock_utils.py:88-91 | A chunk that fails to decode stops the loop, and nothing after it is read. |
| RagResponder.StreamWithoutFault | bedrock_utils.py:88-91 | A stream that ends normally yields exactly the chunk fragments. Their number is the number of chunk events. |
| RagResponder.StreamRaisingAtEnd | bedrock_utils.py:93-95 | A stream that raises keeps every fragment already yielded and ends with the apology. |
| RagResponder.StreamFaultMidway | bedrock_utils.py:88-95 | An undecodable chunk midway: the fragments before it, then the apology, then nothing. |
| RagResponder.GetResponseWithRag | bedrock_utils.py:27-95 | The query asks for 3 results from the given knowledge base. The model is called exactly when retrieval succeeds and the context can be built. The model request carries the laid-out prompt, 2048 tokens and the two stop sequences. A retrieval, context or model-call fault yields only the apology, and otherwise the stream's fragments are yielded. |
| KnowledgeExport.CleanDeletesAsterisks | convert_to_text.py:17 | The two-step replace equals deleting every `*`. It keeps every other character in order, and leaves no `*`. |
| KnowledgeExport.DeleteDoubleStarKeepsOthers | convert_to_text.py:17 | Removing `**` first makes no difference once single `*` are removed. |
| KnowledgeExport.DeleteStar | convert_to_text.py:17 | `replace('*', '')` is the removal of every `*`. |
| KnowledgeExport.CleanIdempotent | convert_to_text.py:17 | Cleaning a cleaned entry changes nothing. |
| KnowledgeExport.PrintEntries | convert_to_text.py:15-19 | The loop over one category's list raises exactly when some element is not a string. |
| KnowledgeExport.ConvertDocument | convert_to_text.py:10-19 | The conversion raises exactly when some category holds an element that is not a string. |
| KnowledgeExport.PrintEntriesLines | convert_to_text.py:15-19 | Each entry prints as four lines: its cleaned text, a blank line, `---`, and a blank line. The entries print in list order. |
| KnowledgeExport.ConvertDocumentLines | convert_to_text.py:10-19 | The output is, per category in input order, a blank line, the `### category` header and a blank line, then that category's entry lines. |
| KnowledgeExport.EntrySeparators | convert_to_text.py:15-19 | Among the lines a category's `print` calls pass (before line breaks inside an entry split them), `---` occurs once per entry, provided no entry itself cleans to `---`. |
| KnowledgeExport.SeparatorPerEntry | convert_to_text.py:10-19 | Among the lines the document's `print` calls pass (before line breaks inside a name or entry split them), `---` occurs exactly as often as the document has entries, provided no entry itself cleans to `---`. |
| KnowledgeExport.PrintedSeparators | convert_to_text.py:10-19 | When no category name or entry holds a line break, the printed output split at line breaks has exactly one `---` line per entry, again provided no entry cleans to `---`. |
| KnowledgeExport.EmptyCategory | convert_to_text.py:10-12 | A category with no entries prints only its header. |
| KnowledgeExport.NoAsteriskFromEntries | convert_to_text.py:17-18 | The output holds no `*` unless a category name has one. |
| KnowledgeExport.SplitTerminated | convert_to_text.py:18-19 | Printed lines without line breaks split back into themselves. |
| KnowledgeExport.RunScript | convert_to_text.py:6-26 | Any argument count other than one prints the usage line and exits with 1. A file that cannot be opened or parsed prints nothing and exits with 1. The exit code is always 0 or 1, and it is 0 exactly when the file loads and converts without raising. A loaded file prints its conversion. |
| Frames.Escape | app/utils/bedrock-utils.ts:29 | `JSON.stringify`'s string escaping leaves no control character, so no raw line break. |
| Frames.Frames | app/utils/bedrock-utils.ts:29 | One frame per value, in order, each `data: ` + `JSON.stringify({content: value})` + a blank line. |
| Frames.UnescapeEscape | hooks/use-chat.ts:35 | Decoding a JSON string body undoes `JSON.stringify`'s escaping, for every string. |
| Frames.ParseMemberJson | hooks/use-chat.ts:35-36 | The `content` (or any one member) of a payload the server writes parses back to the value written. |
| Frames.ContentJsonInjective | app/utils/bedrock-utils.ts:29 | Different values are never written as the same payload. |
| Frames.FrameLines | hooks/use-chat.ts:31 | A frame is exactly one `data: ` line followed by a blank line. |
| Frames.ScanSkipsOtherLines | hooks/use-chat.ts:33-34 | Lines that do not start with `data: `, blank ones included, contribute nothing wherever they stand. |
| Frames.ScanFrames | hooks/use-chat.ts:30-38 | Decoding the frames written for values v1..vn yields v1..vn, in order, with no fault. |
| Frames.ScanWholeFrameReads | hooks/use-chat.ts:26-39 | However the frames are grouped into reads, decoding yields every value in order, as long as no frame is cut between reads. |
| Frames.FramesConcatenate | hooks/use-chat.ts:36 | The accumulated text of whole-frame reads is the concatenation of the framed values. |
| StreamingResponder.WrapPromptInjective | app/utils/bedrock-utils.ts:51 | The prompt wrapper is fixed text on both sides, so the prompt sent determines the user's prompt. |
| StreamingResponder.IteratorToStream | app/utils/bedrock-utils.ts:20-36 | Every iterator value becomes exactly one frame: frame i alone decodes to value i, with no fault. A reader that scans the stream's whole text for `data: ` lines gets back exactly the iterator's values, in order, with no fault. The stream closes exactly when the iterator finishes, and errors when it throws. |
| StreamingResponder.Spaced | app/utils/bedrock-utils.ts:64-65 | Each piece is yielded with one space after it, one value per piece. |
| StreamingResponder.WordChunksReassemble | app/utils/bedrock-utils.ts:63-66 | The chunks concatenate to completion + `" "`. There is one more chunk than the completion has spaces, and each chunk holds exactly one space. |
| StreamingResponder.GetResponseWithRag | app/utils/bedrock-utils.ts:38-78 | The request is `anthropic.claude-v2` with the wrapped prompt and 1000 tokens. A send or parse fault is rethrown. A completion gives a closed stream of its word frames, and a missing completion gives a stream that errors before any frame. |
| StreamingResponder.AnswerReadsBack | app/utils/bedrock-utils.ts:58-69 | Reading an answer's stream back gives the completion followed by one space, and the stream ends closed. |
| ChatRoute.MessageOf | app/api/chat/route.ts:8 | The `message` field is present exactly when the body is an object holding it, and it is that field's value. |
| ChatRoute.Post | app/api/chat/route.ts:6-36 | The intended handler. An unparsable body or a throwing generator gives the 500 `Internal Server Error` body. Otherwise the response is an event stream with the three fixed headers, holding exactly one frame per generated chunk, in generation order. |
| ChatRoute.PostAsWritten | app/api/chat/route.ts:9-21 | As written, no response is ever sent exactly when the body parses and the generator yields at least one chunk. Otherwise the response is the intended one. |
| ChatRoute.AnswerNeverSent | app/api/chat/route.ts:13-21 | A message the generator answers with any chunk gets no response as written, where the intended handler streams one frame per chunk. |
| ChatRoute.OnlyMessageMatters | app/api/chat/route.ts:8-12 | Two requests with the same `message` get the same response, whatever their `csMode` or other fields. |
| ChatRoute.PostReadsBack | app/api/chat/route.ts:13-19 | A client reading the route's stream in whole frames gets the generated chunks back, in order. |
| ChatHook.Accumulate | hooks/use-chat.ts:26-41 | The result is the concatenation of the decoded `content` values in arrival order, or a parse fault exactly when a data line does not decode. |
| ChatHook.ReadBody | hooks/use-chat.ts:26-39 | The reads are decoded in order. A data line that does not decode ends the loop with the parse fault. Otherwise a rejected `reader.read()` is rethrown with its own error. A reader that reports done gives the accumulated text. |
| ChatHook.Receive | hooks/use-chat.ts:20-44 | A fetch failure is rethrown, a non-ok response throws `Failed to send message`, and no body reader gives `""`. A body that reads to done gives the accumulated text. A rejected read is rethrown unless an earlier data line failed to decode. The loading flag is false on every path. |
| ChatHook.RejectedReadThrows | hooks/use-chat.ts:26-41 | A read that rejects after clean whole-frame reads makes the hook throw that error, and the text decoded so far is not returned. |
| ChatHook.SendMessage | hooks/use-chat.ts:12-45 | As written: the body posted is an object carrying the message under `prompt` and holding no `message` field the route could read. The hook ends as `Receive` describes for the answer to that body. The loading flag is false afterwards. |
| ChatHook.SendMessageFixed | hooks/use-chat.ts:12-45 | Corrected: the body posted is an object from which the route reads back exactly the typed message. The hook ends as `Receive` describes for the answer to that body. The loading flag is false afterwards. |
| ChatHook.HookIgnoresMessage | hooks/use-chat.ts:18 | Against the route, the hook as written gets the same result whatever was typed: the generator's text for an absent message. |
| ChatHook.FixedHookGetsAnswer | hooks/use-chat.ts:18-41 | Against the route, the corrected hook returns the generator's chunks for the typed message, concatenated. A throwing generator makes it throw `Failed to send message`. |
| ChatHook.OtherLinesIgnored | hooks/use-chat.ts:33-34 | A read with no `data: ` line contributes nothing. |
| ChatHook.ReceiveReadsFrames | hooks/use-chat.ts:26-41 | For an ok answer read in whole frames carrying values v1..vn, with the reader then reporting done, the hook returns v1+…+vn. |
| ChatHook.PromptBodyUnread | hooks/use-chat.ts:18 | The body the hook writes has no `message` field, so the route reads no message from it, whatever was typed. |
| ChatRoute.RequestFor | components/customer-service-chatbot.tsx:31 | The body `{ message }` carries the message the route reads. |
| ChatPanel.Merge | components/customer-service-chatbot.tsx:49-57 | A frame extends the last message with `" " + content` when that message is the assistant's, and otherwise appends a new assistant message. It never changes another message and never shortens the list. |
| ChatPanel.MergeReply | components/customer-service-chatbot.tsx:46-60 | After the user's message, the frames of one reply make exactly one assistant message: the contents joined by single spaces. No frame adds nothing. |
| ChatPanel.HandleSubmit | components/customer-service-chatbot.tsx:18-71 | Blank input or a pending request leaves the state unchanged. Otherwise the user's trimmed message is appended first and the input is cleared. A fetch failure, a non-ok response or a missing reader appends the apology. A read body adds one assistant message with the decoded contents joined by spaces (none if there are none). The apology follows if a data line fails to parse or a `reader.read()` rejects. Loading is false afterwards. |
| ChatPanel.RepliesKeepUser | components/customer-service-chatbot.tsx:39-67 | Reading the response only appends after the user's message. |
| ChatPanel.SubmitShowsReply | components/customer-service-chatbot.tsx:27-61 | A submit answered with whole-frame reads adds the user's message and one assistant message holding the streamed values joined by spaces. An empty stream adds only the user's message. |
| ChatPanel.SubmitShowsValues | components/customer-service-chatbot.tsx:27-61 | A submit whose body reads to done and decodes cleanly to the values v1..vn adds the user's message, then one assistant message `v1 … vn` when n > 0. |
| ChatPanel.SubmitKeepsHistory | components/customer-service-chatbot.tsx:20-24 | A submit never changes or removes a message already shown. |
| Text.TrimIdempotent | components/customer-service-chatbot.tsx:20-22 | Trimming the trimmed input changes nothing. |
| ReplyRoute.Post | rivernext/app/api/chat/route.ts:5-72 | A missing, non-array or empty `messages` gets status 500 with the validation message, and no model call. Otherwise `messages` is forwarded unchanged with the fixed model id, version and 1024 tokens. A reply gives status 200 with `{content}`, and a model fault gives 500 with its message. Status is 200 exactly when the model replies. |
| ReplyRoute.ErrorResponse | rivernext/app/api/chat/route.ts:65-70 | The error body is status 500, and its `error` member parses back to the message. |
| ReplyRoute.ReplyResponse | rivernext/app/api/chat/route.ts:58-63 | The reply body is status 200, and its `content` parses back to the reply. |
| ReplyRoute.TextsOfAppend | rivernext/app/api/chat/route.ts:52-55 | The texts of concatenated content are the concatenated texts, so items are read in order. |
| ReplyRoute.NonTextIgnored | rivernext/app/api/chat/route.ts:53 | An item whose type is not `text` does not change the reply, wherever it stands. |
| ReplyRoute.ReplySplitsIntoTexts | rivernext/app/api/chat/route.ts:52-55 | When every item is text, the reply split at single spaces gives every text back in order, provided no text holds a space. |
| BallChat.InitialWellNumbered | rivernext/components/customer-service-chatbot.tsx:19-26 | The conversation opens with the greeting as id 1 and the counter at 2, and is well numbered. |
| BallChat.BotText | rivernext/components/customer-service-chatbot.tsx:81-107 | The bot's text is never empty. It is the response's `content` exactly when the response is ok and its content parses to a non-empty string, and otherwise the error text. |
| BallChat.HandleSend | rivernext/components/customer-service-chatbot.tsx:50-111 | Trimmed-empty input changes nothing. Otherwise exactly two messages are appended, the trimmed user text and then the bot's text, with ids `nextId` and `nextId + 1`. The counter advances by 2. |
| BallChat.HandleSendWellNumbered | rivernext/components/customer-service-chatbot.tsx:55-103 | A send keeps ids strictly increasing and below the counter. |
| BallChat.Append | rivernext/components/customer-service-chatbot.tsx:54-59 | A message is appended with the counter's value and the counter advances by one, which keeps the conversation well numbered. |
| BallChat.RunWellNumbered | rivernext/components/customer-service-chatbot.tsx:50-111 | However the halves of overlapping sends interleave, ids stay unique and increasing, each half adds at most one message, and earlier messages are kept. |
| BallChat.HandleSendHalves | rivernext/components/customer-service-chatbot.tsx:50-111 | A send that runs alone is its start (user message) followed by its answer (bot message). |
| BallChat.CountBlank | rivernext/components/customer-service-chatbot.tsx:50-52 | No input is counted as blank exactly when every input is non-blank once trimmed, and all are counted exactly when all are blank. |
| BallChat.SendAllWellNumbered | rivernext/components/customer-service-chatbot.tsx:50-111 | Over any series of sends, ids stay strictly increasing. The history grows by two messages per non-blank input. |
| BallChat.SendPassesValidation | rivernext/components/customer-service-chatbot.tsx:70-78 | The one-turn body the chatbot sends passes the route's validation and reaches the model unchanged. |
| BallChat.SendThroughRoute | rivernext/components/customer-service-chatbot.tsx:81-107 | Against the rivernext route, the bot shows the model's joined text items. It shows the error text when the model call fails or the joined text is empty. |
| BallChat.ErrorBodyHasNoContent | rivernext/components/customer-service-chatbot.tsx:88 | A route error body never reads as having `content`. |

## Left out

- AWS client construction, credentials and environment loading are left out. These are foreign SDK calls, and the services they reach are parameters.
- `rivernext/bedrock-chat.js`, `app.py` and the UI surfaces are left out. The UI surfaces are `app/components/chat.tsx`, the layout and page, rendering, scrolling, animation and the random styling. None of them decides a value the core computes.
- Turn routing, name and phone extraction, the customer-service mode and the call flow are left out. No modelled file implements them. `generateResponse` (from `@/lib/bedrock`) is not part of this model, and the route takes its output as a parameter.
- Logging (`logger`, `console`, `print(f"Error: …")`) is left out.
- Temperature, `top_p` and `top_k` are left out. They are floating-point constants the model service reads and nothing here depends on.
- Dates.ParseIso: only the ASCII digits `0`-`9` are read. CPython's `\d` also accepts other Unicode decimal digits, which the model rejects.
- CustomerOrders.ToInt: only ASCII digits are read, and CPython's cap on the length of a digit string (4300 digits by default since Python 3.11) is not modelled.
- `float()` of a string price is a parameter. Python's float grammar and binary rounding are not modelled. DynamoDB numbers are exact decimals, modelled as `real`.
- `%Y` is modelled as four zero-padded digits. For years below 1000 this depends on the platform's C library.
- Python's `str.title()` and JavaScript's `trim()` are modelled for ASCII letters and the listed Unicode space characters. Case mapping outside ASCII is not modelled.
- Stream mechanics are left out except for the route's stall: `ReadableStream`/`TransformStream` queuing, `TextEncoder`/`TextDecoder` byte boundaries and the 50 ms pause between words.
  - A read is modelled as text.
  - The decoding lemmas assume that no frame is cut between two reads. A cut frame is a parse fault in the model.
  - The stall of the route as written (see Findings) is modelled as a response that never comes. The rest of the model uses the intended route, which returns all frames.
- JSON is modelled only as far as the frames need it. The encoder is `JSON.stringify` of a one-member object with a string value. The decoder accepts that canonical form with any escape RFC 8259 allows; other payloads are treated as parse faults.
  - A surrogate `\u` escape is treated as a fault, because characters here are Unicode scalar values.
  - A `content` that is not a string (a number, say, which JavaScript would concatenate) is not modelled.
- RagResponder.Passages: a retrieval `content` that is not a string is modelled as a fault of the join (Python raises `TypeError`), without the exception text.
- CustomerOrders.ParseOrder: does not check that the quantity is positive, because the source does not either.
- CustomerOrders.GetCustomerOrders: only the first page of the scan is modelled. The source never follows `LastEvaluatedKey`, so items beyond the first page are unseen in both.
- KnowledgeExport.SeparatorPerEntry: counts `---` among the lines passed to `print`. An entry or category name holding a line break followed by `---` prints an extra `---` output line. `PrintedSeparators` states the count over the output lines when no name or entry holds a line break.
- KnowledgeExport.EntrySeparators: counts over the lines passed to `print`, like `SeparatorPerEntry`.
- KnowledgeExport.ConvertDocument: a category whose value is not a list is not modelled. A string would be iterated character by character; a number would raise.
- ReplyRoute.Post: a falsy `messages` (`null`, `0`, `""`) is folded into `Missing`, and JSON parsing of the request and of the model's reply is folded into the parameters. The model's reply stream is modelled as its parsed content items.
- StreamingResponder.GetResponseWithRag: a `completion` that is present but not a string is folded into the missing case. Both make `split` throw at the first pull.
- ChatPanel.HandleSubmit: the intermediate renders between `setMessages` calls are not modelled, only the final list.
- BallChat.HandleSend: models a send that finishes before the next starts. Overlapping sends are modelled by `Run` over their halves, which proves ids stay unique. Which reply answers which question is not modelled. `Step` does model the first reply clearing `isTyping`, as the `finally` block does.
- The default knowledge base id `A2QCDWSKKV` is not modelled as a constant. It is what a caller that omits the argument passes.

## Findings

| source | as written | input that shows it | evidently intended | confidence | as-written member | corrected member |
|---|---|---|---|---|---|---|
| hooks/use-chat.ts:18 | The hook posts `JSON.stringify({ prompt: message })`, but `POST /api/chat` reads `message` from the body (app/api/chat/route.ts:8). | `sendMessage("hello")` posts `{"prompt":"hello"}`, so the route passes `undefined` to the generator, whatever was typed. | Post `{ message }`, as the chat panel does (components/customer-service-chatbot.tsx:31). | medium; not executed | ChatHook.HookIgnoresMessage | ChatHook.FixedHookGetsAnswer |
| app/api/chat/route.ts:9-21 | The handler awaits `writer.write` for every chunk before it returns `stream.readable`. A default `TransformStream` starts with backpressure, and its readable side has high-water mark 0, so a write settles only once the readable side is read. | Any message for which the generator yields a chunk: the first write never settles, so the handler never returns. The `useChat` hook and the chat panel both wait on this route. | Return the readable side at once and write the frames from a task that is not awaited first, or use a `ReadableStream` that pulls from the generator. | high; not executed | ChatRoute.AnswerNeverSent | ChatRoute.Post |
