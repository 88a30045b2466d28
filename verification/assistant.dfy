/**
 * The assistant object: the selected model, the streaming switch and the
 * conversation history, together with the chat turn that sends the history to
 * the server and records the reply.
 *
 * HTTP is not part of this model. Each exchange with the server is a
 * parameter: a TransportFailure (libcurl gave up: connection refused, DNS,
 * timeout) or a Completed exchange with its status code and body.
 */
module Assistant {
  import opened Wrappers
  import opened Conversation
  import opened ResponseDecoder
  import opened ModelList

  const ChatEndpoint: string := "http://localhost:11434/api/chat"
  const DefaultModel: string := "llama3.2"

  /** The only status code a chat response is accepted with. */
  const StatusOk: int := 200

  /** The JSON payload of a chat request: model, messages, stream. */
  datatype ChatRequest = ChatRequest(model: string, messages: seq<Message>, stream: bool)

  datatype Exchange = TransportFailure(cause: string) | Completed(status: int, body: string)

  /** Why a chat turn failed: the three exceptions sendMessage throws. */
  datatype ChatError =
    | TransportError(cause: string)                          // the request itself failed
    | ServerError(status: int, body: string, model: string)  // a status other than 200
    | DecodeError                                            // a non-streaming body that is not JSON

  /**
   * The result of a chat turn given the exchange: transport failures and
   * non-200 statuses are errors; a 200 body is decoded line by line in
   * streaming mode, and as one document otherwise.
   */
  function TurnResult(extract: Extractor, streaming: bool, model: string, x: Exchange): (r: Result<string, ChatError>)
    ensures (r.Failure? && r.error.TransportError?) <==> x.TransportFailure?
    ensures (r.Failure? && r.error.ServerError?) <==> x.Completed? && x.status != StatusOk
    ensures (r.Failure? && r.error.DecodeError?) <==>
      x.Completed? && x.status == StatusOk && !streaming && extract(x.body) == None
    ensures r.Failure? && r.error.TransportError? ==> r.error.cause == x.cause
    ensures r.Failure? && r.error.ServerError? ==> r.error == ServerError(x.status, x.body, model)
    ensures r.Success? && streaming ==> r.value == StreamBodyReply(extract, x.body)
    ensures r.Success? && !streaming ==> Some(r.value) == DecodeWhole(extract, x.body)
  {
    match x
    case TransportFailure(cause) => Failure(TransportError(cause))
    case Completed(status, body) =>
      if status != StatusOk then Failure(ServerError(status, body, model))
      else if streaming then Success(StreamBodyReply(extract, body))
      else
        match DecodeWhole(extract, body)
        case None => Failure(DecodeError)
        case Some(reply) => Success(reply)
  }

  class OllamaAssistant {
    const apiUrl: string
    var modelName: string
    var history: seq<Message>
    var streamingEnabled: bool

    ghost predicate Valid()
      reads this
    {
      WellFormedHistory(history)
    }

    /** A new assistant: streaming on, and a history holding only the system message. */
    constructor (model: string := DefaultModel)
      ensures Valid()
      ensures apiUrl == ChatEndpoint && modelName == model && streamingEnabled
      ensures history == [SystemMessage]
    {
      apiUrl := ChatEndpoint;
      modelName := model;
      streamingEnabled := true;
      history := [SystemMessage];
    }

    method SetStreamingEnabled(enabled: bool)
      modifies this
      ensures streamingEnabled == enabled
      ensures modelName == old(modelName) && history == old(history)
    {
      streamingEnabled := enabled;
    }

    method SetModel(model: string)
      modifies this
      ensures modelName == model
      ensures streamingEnabled == old(streamingEnabled) && history == old(history)
    {
      modelName := model;
    }

    /**
     * The model names listed by the server, in its order; none when the
     * request fails or the body does not parse. The HTTP status is not checked.
     */
    method GetAvailableModels(tags: Exchange, parse: TagsParser) returns (models: seq<string>)
      ensures tags.TransportFailure? ==> models == []
      ensures tags.Completed? ==>
        models == match parse(tags.body)
                  case Models(entries) => CollectNames(entries)
                  case _ => []
    {
      models := [];
      if tags.Completed? {
        match parse(tags.body)
        case Models(entries) =>
          var i := 0;
          while i < |entries|
            invariant 0 <= i <= |entries|
            invariant OtherName !in entries[..i]
            invariant models == CollectNames(entries[..i])
          {
            match entries[i] {
              case NoName =>
              case StringName(name) =>
                models := models + [name];
              case OtherName =>
                // converting the name throws; the names so far are returned
                CollectNamesStops(entries[..i], entries[i + 1..]);
                assert entries == entries[..i] + [OtherName] + entries[i + 1..];
                return;
            }
            CollectNamesAppend(entries[..i], [entries[i]]);
            assert entries[..i + 1] == entries[..i] + [entries[i]];
            i := i + 1;
          }
          assert entries[..i] == entries;
        case _ =>
      }
    }

    /**
     * One chat turn. The user message is appended first, and the request
     * carries the history with it, the model and the streaming flag. On success
     * the reply is appended as an assistant message and returned; on any
     * failure the user message stays and nothing else is added.
     */
    method SendMessage(message: string, exchange: ChatRequest -> Exchange, extract: Extractor)
      returns (r: Result<string, ChatError>)
      requires Valid()
      modifies this
      ensures Valid()
      ensures modelName == old(modelName) && streamingEnabled == old(streamingEnabled)
      ensures var request := ChatRequest(old(modelName), old(history) + [Message(User, message)], old(streamingEnabled));
        r == TurnResult(extract, old(streamingEnabled), old(modelName), exchange(request))
      ensures r.Success? ==> history == old(history) + [Message(User, message), Message(Assistant, r.value)]
      ensures r.Failure? ==> history == old(history) + [Message(User, message)]
    {
      AppendTurnWellFormed(history, Unanswered(message));
      history := history + [Message(User, message)];
      var payload := ChatRequest(modelName, history, streamingEnabled);

      var x := exchange(payload);
      if x.TransportFailure? {
        return Failure(TransportError(x.cause));
      }
      if x.status != StatusOk {
        return Failure(ServerError(x.status, x.body, modelName));
      }

      var reply: string;
      if streamingEnabled {
        reply := DecodeStream(extract, x.body);
      } else {
        match extract(x.body)
        case None =>
          return Failure(DecodeError);
        case Some(None) =>
          reply := "";
        case Some(Some(content)) =>
          reply := content;
      }

      AppendTurnWellFormed(old(history), Answered(message, reply));
      history := history + [Message(Assistant, reply)];
      return Success(reply);
    }

    /** Back to the history of a new assistant, whatever it held before. */
    method ClearConversation()
      modifies this
      ensures Valid()
      ensures history == [SystemMessage]
      ensures modelName == old(modelName) && streamingEnabled == old(streamingEnabled)
    {
      history := [SystemMessage];
    }

    /** The number of messages after the system message; never below zero. */
    function ConversationLength(): (n: nat)
      reads this
      requires Valid()
      ensures n + 1 == |history|
    {
      |history| - 1
    }
  }

  /**
   * A turn that the server refuses, then one it answers: the first user
   * message stays unanswered, so two user messages stand in a row, and the
   * reply follows the second.
   */
  method RefusedThenAnsweredTurn(extract: Extractor, body: string) returns (h: seq<Message>)
    ensures h == [SystemMessage, Message(User, "hello"), Message(User, "hello?"),
                  Message(Assistant, StreamBodyReply(extract, body))]
    ensures WellFormedHistory(h)
  {
    var assistant := new OllamaAssistant();
    var first := assistant.SendMessage("hello", _ => Completed(404, "model not found"), extract);
    assert first == Failure(ServerError(404, "model not found", DefaultModel));
    var second := assistant.SendMessage("hello?", _ => Completed(200, body), extract);
    h := assistant.history;
  }
}
