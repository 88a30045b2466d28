# Ollama terminal assistant: conversation and response engine

This project models the core of a terminal chat client for a local Ollama
server (`main.cpp`, class `OllamaAssistant`) and proves properties of it in
Dafny. The core has three parts:

- **The conversation history.** This is the `conversation_history` vector of
  `{role, content}` records. The constructor seeds it with one system message.
  `sendMessage` appends the user message, and then the assistant reply when the
  turn succeeds. `clearConversation` puts back the seed, and
  `getConversationLength` reports `size() - 1`. In the model it is the class
  `Assistant.OllamaAssistant` with a `seq<Message>` field. Its invariant
  (`Conversation.WellFormedHistory`) is that the system message sits at index 0
  and nowhere else, and that every assistant message directly follows a user
  message.
- **The response decoder.** A chat response with status 200 is decoded in one of
  two ways:
  - In streaming mode the body is read line by line with `std::getline`. One
    leading `data: ` is stripped. A line that is then empty or `[DONE]` is
    skipped. Every other line is parsed, and its `message.content` is appended
    to the reply. A line that fails to parse is skipped.
  - Otherwise the whole body is parsed once and its `message.content` is taken.

  The streaming path is a `while` loop (`ResponseDecoder.DecodeStream`), proved
  equal to a fold over the lines (`ResponseDecoder.StreamBodyReply`). The
  properties are proved about that fold.
- **Model-name extraction** in `getAvailableModels`. The loop collects `name`
  from each entry of `models` (`Assistant.OllamaAssistant.GetAvailableModels`).
  It is proved against `ModelList.CollectNames`.

Some small pure rules of the terminal front end are also included, in module
`Terminal`. They are colouring, command detection, the typing-effect pause per
character and the numbered model menu choice. Whether colours are on is a
parameter. The source decides it with `isatty` on standard output on POSIX
systems, and turns colours on unconditionally under Windows.

The modules are `Wrappers` (Option and Result), `Conversation` (messages, turns,
history shape), `LineSplit` (what `std::getline` reads, and line-wise
concatenation), `ResponseDecoder`, `ModelList`, `Assistant` (the class and the
chat turn) and `Terminal`.

Boundaries to the outside are parameters:

- **An HTTP exchange** is an `Assistant.Exchange`. It is either
  `TransportFailure(cause)`, when libcurl fails (connection refused, DNS,
  timeout), or `Completed(status, body)`. `SendMessage` takes the server as a
  function from the request it builds (`ChatRequest`: model, messages, stream
  flag) to an exchange. This lets its contract say exactly which request the
  reply depends on.
- **JSON parsing** is a function parameter:
  - `ResponseDecoder.Extractor` gives `None` when a text does not parse or when
    its `message.content` is not a string. Both raise a `json::exception` in
    the source. It gives `Some(None)` when `message.content` is absent, and
    `Some(Some(c))` when the content is the string `c`.
  - `ModelList.TagsParser` says what the traversal of a tags document meets.

Behaviour of the source worth knowing, which the model follows:

- `getConversationLength` counts messages after the system message. It does not
  count completed turns.
- A failed turn keeps its user message. So a later successful turn leaves two
  user messages in a row (`Assistant.RefusedThenAnsweredTurn`).
- `getAvailableModels` never looks at the HTTP status. A `name` that is not a
  string throws inside the loop. The exception is caught outside the loop, so
  the names collected before it are still returned, and the entries after it
  are not read.
- The streaming decoder never fails once the status is 200. An empty body, or
  lines without content, give the empty reply, and that reply is recorded.
- There is no check against an empty user message and no "turn already in
  flight" error. The terminal loop skips empty input before it calls
  `sendMessage`.

## Model

| member | source | states |
|---|---|---|
| `Assistant.OllamaAssistant.constructor` | main.cpp:173-185 | A new assistant has streaming on, the given model (default `llama3.2`), the chat endpoint URL, and a history that is exactly the one system message with the fixed prompt. |
| `Assistant.OllamaAssistant.SetStreamingEnabled` | main.cpp:193-195 | Sets the streaming flag; model and history are unchanged. |
| `Assistant.OllamaAssistant.SetModel` | main.cpp:246-250 | Sets the model name; streaming flag and history are unchanged. |
| `Assistant.OllamaAssistant.SendMessage` | main.cpp:256-350 | The request sent is the old history plus `{user, message}`, with the current model and streaming flag. The result is `TurnResult` of the exchange for that request. On success the history gains exactly `{user, message}` then `{assistant, reply}`. On any failure it gains only `{user, message}`. Earlier records, model and flag are unchanged, and the history invariant is kept. |
| `Assistant.TurnResult` | main.cpp:292-341 | Error taxonomy, each as an if-and-only-if. A transport error happens exactly when the request failed. A server error (status, body, model) happens exactly on a status other than 200. A decode error happens exactly on a 200 non-streaming body that does not parse. A transport error carries the libcurl cause. A server error carries the exchange's status, its response body and the model name, which the source puts into its message. A streaming 200 response always succeeds, with the line-wise reply. A non-streaming success is the whole-body decoding. |
| `Assistant.OllamaAssistant.ClearConversation` | main.cpp:353-360 | Whatever the history held, it becomes exactly the one system message; model and flag are unchanged. |
| `Assistant.OllamaAssistant.ConversationLength` | main.cpp:386-388 | Under the history invariant, `size() - 1` never underflows: the result is a natural number one less than the history length. |
| `Assistant.OllamaAssistant.GetAvailableModels` | main.cpp:217-244 | A failed request gives no names. A completed one gives the names collected from `models` in server order (`CollectNames`), or none when the body does not parse or has no `models`; the status is ignored. |
| `Assistant.RefusedThenAnsweredTurn` | main.cpp:256-350 | A turn refused with status 404 and then an answered turn leave the system message, two user messages in a row, then the assistant reply, which is still a well-formed history. |
| `Conversation.AppendTurnWellFormed` | main.cpp:258-261 | Appending a user message, or a user message and its assistant reply, to a well-formed history keeps it well-formed. |
| `Conversation.TranscriptWellFormed` | main.cpp:256-358 | The history left by any sequence of answered and unanswered turns after a reset is well-formed. Its length is 1 plus the number of turns plus the number of answered turns. |
| `Conversation.AnsweredTurnsAlternate` | main.cpp:256-350 | After N answered turns the history holds 1 + 2N messages. From index 1 they alternate: the user's question, then its reply, for each turn in order. |
| `Conversation.TurnsOfTurnLog` | main.cpp:256-350 | Reading the turns back from the messages they leave gives the same turns. |
| `Conversation.TurnLogTurnsOf` | main.cpp:256-350 | Every well-formed message log is exactly the record of the turns read from it. |
| `Conversation.HistoryIsTranscript` | main.cpp:353-358 | Every well-formed history is the system message followed by the record of its turns. So the well-formed histories are exactly the reachable ones. |
| `LineSplit.Lines` | main.cpp:313-315 | The lines successive `std::getline` calls read: each newline ends a line and is dropped, and a final line without a newline is read only when it is non-empty. Its contract says an empty text reads no line and a non-empty one reads at least one. The round trips below pin down the rest. |
| `LineSplit.FirstNewline` | main.cpp:315 | The index where `std::getline` stops: no newline before it, and a newline at it unless it is the end of the text. |
| `LineSplit.LinesNewlineFree` | main.cpp:315 | No line read by `std::getline` contains a newline. |
| `LineSplit.UnlinesLines` | main.cpp:313-315 | Writing the lines back out with a newline after each gives the body again, with a final newline added only if it was missing. |
| `LineSplit.LinesUnlines` | main.cpp:313-315 | Newline-free lines, each written with a newline, are read back unchanged (empty lines included). |
| `LineSplit.ConcatMapAppend` | main.cpp:315-331 | Concatenating line contents distributes over concatenation of line sequences. |
| `LineSplit.ConcatMapLinesJoin` | main.cpp:315-331 | For a per-line rule that gives nothing for an empty line, the result for `x + "\n" + y` is the result for `x` followed by the result for `y`. |
| `ResponseDecoder.StripDataPrefix` | main.cpp:316-318 | Exactly one leading `data: ` is removed when present, and the line is unchanged otherwise. |
| `ResponseDecoder.LineContent` | main.cpp:316-327 | A line contributes nothing when its stripped payload is empty or `[DONE]`. Otherwise, when the payload carries a string `message.content`, the line contributes exactly that content. Any text a line contributes is the `message.content` of its stripped payload. |
| `ResponseDecoder.StreamBodyReply` | main.cpp:313-331 | The streamed reply: the contributions of the lines `std::getline` reads, concatenated in line order. An empty body gives the empty reply. A non-empty reply has a line that contributes content. |
| `ResponseDecoder.DecodeStream` | main.cpp:312-331 | The `getline` loop's reply equals `StreamBodyReply`, the in-order concatenation of the line contents. |
| `ResponseDecoder.SingleLineReply` | main.cpp:313-327 | A body with no newline decodes to the content of that one line. |
| `ResponseDecoder.StreamBodyConcat` | main.cpp:313-331 | The reply of two pieces of a body joined by a newline is the first piece's reply followed by the second's. |
| `ResponseDecoder.MalformedLineSkipped` | main.cpp:322-330 | A line that fails to parse, placed between two parts of a stream, adds nothing and does not stop the lines after it. |
| `ResponseDecoder.NoContentEmptyReply` | main.cpp:320-327 | If no line carries `message.content`, the reply is empty and no error is raised. |
| `ResponseDecoder.FramingInterchangeable` | main.cpp:316-318 | Lines framed with `data: ` decode exactly as the bare lines do, provided no bare line itself starts with `data: `. |
| `ResponseDecoder.FramedStreamExample` | main.cpp:313-327 | Two `data: `-framed chunks with contents p and q, followed by a `[DONE]` line, decode to p + q (for example "Hel" and "lo" give "Hello"). |
| `ResponseDecoder.DecodeWhole` | main.cpp:332-341 | A non-streaming body is an error exactly when it does not parse. When `message.content` is present the reply is that content. A missing `message.content` gives the empty reply. Any non-empty reply is the body's `message.content`. |
| `ModelList.CollectNames` | main.cpp:232-240 | At most one name is collected per entry. |
| `ModelList.CollectNamesAppend` | main.cpp:232-236 | While no name is a non-string, collecting over `a + b` gives the names of `a` followed by those of `b`. |
| `ModelList.CollectNamesStops` | main.cpp:233-240 | The first non-string name ends the collection. The names before it are kept and nothing after it is collected. |
| `ModelList.CollectedNamesAreEntries` | main.cpp:233-234 | Every returned name is the string `name` of some entry. |
| `ModelList.EntriesAreCollected` | main.cpp:233-234 | When every name is a string, every string name is returned. Entries without `name` are the only ones skipped. |
| `Terminal.Colorize` | main.cpp:60-63 | With colours off the text is returned unchanged. With colours on it is the colour code, then the text, then the reset code `ESC[0m`. |
| `Terminal.IsCommand` | main.cpp:459-461 | An input line is a command exactly when it begins with `/`; the empty line is not one. |
| `Terminal.HalfTowardZero` | main.cpp:105-106 | Halving truncates toward zero, as C++ `int` division does, for negative delays too. |
| `Terminal.TypingDelay` | main.cpp:100-109 | A space pauses for half the base delay, truncated toward zero as C++ `int` division does. A character outside `.!?,;: ` and newline pauses exactly the base. For a non-negative base every pause is between 0 and four times the base, and only a space pauses less than the base. |
| `Terminal.PauseByClass` | main.cpp:100-109 | `!` and `?` pause exactly as `.` (the long pause after a sentence), `;` and `:` exactly as `,` (the medium pause), and every character outside `.!?,;: ` and newline as an ordinary letter. |
| `Terminal.PauseOrder` | main.cpp:100-109 | With a base delay of 0 no character pauses. For a positive base the classes are strictly ordered: space < ordinary character < `,;:` < line break < `.!?` (d/2 < d < 2d < 3d < 4d). |
| `Terminal.SelectModel` | main.cpp:557-560 | A typed number selects a model exactly when it is in 1..count, and then selects the model at that position counted from 1. |
| `Terminal.MenuNumberSelects` | main.cpp:544-560 | The number printed before the i-th model in the menu (i + 1) selects exactly that model. |

## Left out

- libcurl: handle set-up and clean-up, options, headers, the write callback, the
  5/10/60 second timeouts and reading the response code. Each exchange is a
  parameter (`Exchange`), and a timeout is one kind of `TransportFailure`.
- The failure of `curl_easy_init` in the constructor. The constructor always
  succeeds in the model.
- The nlohmann JSON library. Parsing is the `Extractor` and `TagsParser`
  parameters. Serialising the request (`payload.dump()`) is not modelled. In the
  source, `dump()` can throw on a message that is not valid UTF-8. That happens
  after the user message is appended, so the message would stay in the history
  and make every later turn fail the same way until the history is cleared. The
  model does not capture this.
- `checkOllamaConnection` is made only of libcurl calls. It reports whether any
  HTTP response arrived, whatever its status.
- The getters `getCurrentModel` and `isStreamingEnabled`. They are reads of the
  public fields `modelName` and `streamingEnabled`.
- Everything that prints: `showConversationHistory`, the messages printed by
  `setModel` and `clearConversation`, the stream parse errors written to
  stderr, `ColorUtils::initColors` (a terminal query), the `StreamingOutput`
  printing and sleeping (`typeTextWithCursor` included), and the
  `TerminalInterface` loop with its command handling, help and banners. The
  `std::stoi` parsing of the menu input and `main` are left out as well.
- `Terminal.TypingDelay` does not model 32-bit overflow of `delay_ms * 4`. The
  source only calls it with delays of 15 to 30 ms.
- Strings are sequences of characters. The source's `std::string` holds bytes,
  so there is no model of UTF-8 encoding. Newline detection and the prefix test
  are the same either way.
