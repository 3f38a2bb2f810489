/**
 * The process-wide conversation store and the `POST /api/chat` handler
 * (src/index.js, lines 1 and 17-65). The inference service is a parameter:
 * the model only sees what it is called with and what it returns.
 */
module Sessions {
  import opened Wrappers
  import opened Turns

  const DefaultUserId: string := "default-user"
  const ModelName: string := "@cf/meta/llama-3-8b-instruct"
  const MaxTokens: nat := 500
  const ErrorMessage: string := "Failed to process request"

  /** The outcome of `await request.json()`: a parse failure, or the two fields the handler reads. */
  datatype Body = Malformed(detail: string) | Json(message: Option<string>, userId: Option<string>)

  /** The arguments of `env.AI.run`. */
  datatype InferenceCall = InferenceCall(model: string, messages: seq<Turn>, maxTokens: nat)

  /** What the inference service gives back: `response.response`, or the message of the error it throws. */
  datatype Inference = Reply(response: string) | Failed(detail: string)

  /** The JSON the handler answers with: `{ response, userId }` or `{ error, details }`. */
  datatype ChatResult = Answer(response: string, userId: string) | Error(error: string, details: string)

  /** The store after a request, and the request's result. */
  datatype Outcome = Outcome(conversations: map<string, seq<Turn>>, result: ChatResult)

  /** The user id of a request: the one in the body, or "default-user" when the body has none. */
  function ResolveUserId(userId: Option<string>): string {
    userId.GetOr(DefaultUserId)
  }

  /** The stored history of `userId`, or the empty history for a user never seen. */
  function Lookup(conversations: map<string, seq<Turn>>, userId: string): seq<Turn> {
    if userId in conversations then conversations[userId] else []
  }

  /** Every stored history is valid. */
  predicate ValidStore(conversations: map<string, seq<Turn>>) {
    forall u :: u in conversations ==> ValidHistory(conversations[u])
  }

  /** The call made for `history` and `message`. */
  function Call(history: seq<Turn>, message: Option<string>): InferenceCall {
    InferenceCall(ModelName, Window(history, message), MaxTokens)
  }

  /** One `POST /api/chat` request, run to completion against the store `conversations`. */
  function Chat(conversations: map<string, seq<Turn>>, body: Body, service: InferenceCall -> Inference): Outcome {
    match body
    case Malformed(detail) => Outcome(conversations, Error(ErrorMessage, detail))
    case Json(message, userId) =>
      var u := ResolveUserId(userId);
      var history := Lookup(conversations, u);
      match service(Call(history, message))
      case Failed(detail) => Outcome(conversations, Error(ErrorMessage, detail))
      case Reply(text) => Outcome(conversations[u := Appended(history, message, text)], Answer(text, u))
  }

  /** A request without `userId` behaves exactly like one with `userId` "default-user". */
  lemma DefaultIdentity(conversations: map<string, seq<Turn>>, message: Option<string>, service: InferenceCall -> Inference)
    ensures Chat(conversations, Json(message, None), service)
         == Chat(conversations, Json(message, Some(DefaultUserId)), service)
  {
    assert ResolveUserId(None) == ResolveUserId(Some(DefaultUserId));
  }

  /** A failed parse or a failed inference gives the error result with its detail and leaves the store as it was. */
  lemma FailureLeavesStore(conversations: map<string, seq<Turn>>, body: Body, service: InferenceCall -> Inference)
    ensures body.Malformed? ==>
      Chat(conversations, body, service) == Outcome(conversations, Error(ErrorMessage, body.detail))
    ensures body.Json? ==>
      var call := Call(Lookup(conversations, ResolveUserId(body.userId)), body.message);
      service(call).Failed? ==>
        Chat(conversations, body, service) == Outcome(conversations, Error(ErrorMessage, service(call).detail))
    ensures Chat(conversations, body, service).result.Error? ==> Chat(conversations, body, service).conversations == conversations
  {
  }

  /**
   * On success the caller's history becomes the last 20 of the old one plus the new pair,
   * ends with that pair, and the result carries the reply and the resolved user id.
   */
  lemma SuccessStoresExchange(conversations: map<string, seq<Turn>>, message: Option<string>, userId: Option<string>,
                              service: InferenceCall -> Inference)
    requires service(Call(Lookup(conversations, ResolveUserId(userId)), message)).Reply?
    ensures var u := ResolveUserId(userId);
            var old_ := Lookup(conversations, u);
            var reply := service(Call(old_, message)).response;
            var o := Chat(conversations, Json(message, userId), service);
            && o.result == Answer(reply, u)
            && u in o.conversations
            && o.conversations[u] == SliceFromEnd(old_ + Exchange(message, reply), MaxHistory)
            && |o.conversations[u]| == Min(MaxHistory, |old_| + 2)
            && o.conversations[u][|o.conversations[u]| - 2..] == [UserTurn(message), AssistantTurn(reply)]
  {
    var u := ResolveUserId(userId);
    var history := Lookup(conversations, u);
    var reply := service(Call(history, message)).response;
    assert Chat(conversations, Json(message, userId), service)
        == Outcome(conversations[u := Appended(history, message, reply)], Answer(reply, u));
    AppendedShape(history, message, reply);
    SliceFromEndShape(history + Exchange(message, reply), MaxHistory);
  }

  /** A request touches only its own user's entry: every other key keeps its presence and its history. */
  lemma Isolation(conversations: map<string, seq<Turn>>, body: Body, service: InferenceCall -> Inference, other: string)
    requires body.Json? ==> other != ResolveUserId(body.userId)
    ensures var after := Chat(conversations, body, service).conversations;
            (other in after <==> other in conversations) && Lookup(after, other) == Lookup(conversations, other)
  {
  }

  /** The store's invariant survives every request. */
  lemma ChatPreservesValid(conversations: map<string, seq<Turn>>, body: Body, service: InferenceCall -> Inference)
    requires ValidStore(conversations)
    ensures ValidStore(Chat(conversations, body, service).conversations)
  {
    if body.Json? {
      var u := ResolveUserId(body.userId);
      var history := Lookup(conversations, u);
      var answer := service(Call(history, body.message));
      if answer.Reply? {
        AppendedPreservesValid(history, body.message, answer.response);
        var after := conversations[u := Appended(history, body.message, answer.response)];
        assert Chat(conversations, body, service).conversations == after;
        forall v | v in after
          ensures ValidHistory(after[v])
        {
          if v != u {
            assert after[v] == conversations[v];
          }
        }
      }
    }
  }

  /** For a stored history, the system turn reaches inference exactly when the history has at most 8 turns. */
  lemma StoredWindowHasSystemIff(conversations: map<string, seq<Turn>>, userId: string, message: Option<string>)
    requires ValidStore(conversations)
    ensures SystemTurn in Call(Lookup(conversations, userId), message).messages
        <==> |Lookup(conversations, userId)| <= MaxWindow - 2
  {
    var history := Lookup(conversations, userId);
    AlternatingShape(history);
    WindowHasSystemIff(history, message);
  }

  /** From an empty store, "hi" from "u1" answered with "hello" stores exactly that pair under "u1". */
  lemma FirstExchange(service: InferenceCall -> Inference)
    requires service(Call([], Some("hi"))) == Reply("hello")
    ensures Chat(map[], Json(Some("hi"), Some("u1")), service)
         == Outcome(map["u1" := [Turn(User, Some("hi")), Turn(Assistant, Some("hello"))]], Answer("hello", "u1"))
  {
    assert Lookup(map[], "u1") == [];
    assert Appended([], Some("hi"), "hello") == [Turn(User, Some("hi")), Turn(Assistant, Some("hello"))];
  }

  /** The module-level `conversations` Map. */
  class Store {
    var conversations: map<string, seq<Turn>>

    ghost predicate Valid()
      reads this
    {
      ValidStore(conversations)
    }

    /** `new Map()`: no user has a history yet. */
    constructor ()
      ensures Valid() && conversations == map[]
    {
      conversations := map[];
    }

    /** Reads a user's history: an unseen user reads as empty, and reading changes nothing. */
    method Get(userId: string) returns (history: seq<Turn>)
      ensures userId in conversations ==> history == conversations[userId]
      ensures userId !in conversations ==> history == []
    {
      if userId in conversations {
        history := conversations[userId];
      } else {
        history := [];
      }
    }

    /** The `try` block of the `POST /api/chat` branch and its `catch`. */
    method HandleChat(body: Body, service: InferenceCall -> Inference) returns (result: ChatResult)
      requires Valid()
      modifies this
      ensures Valid()
      ensures Outcome(conversations, result) == Chat(old(conversations), body, service)
      ensures result.Error? ==> conversations == old(conversations)
    {
      match body
      case Malformed(detail) =>
        result := Error(ErrorMessage, detail);
      case Json(message, userId) =>
        var u := ResolveUserId(userId);
        var history := Get(u);
        assert history == Lookup(old(conversations), u);
        var messages := [SystemTurn] + history + [UserTurn(message)];
        var call := InferenceCall(ModelName, SliceFromEnd(messages, MaxWindow), MaxTokens);
        assert call == Call(history, message);
        match service(call)
        case Failed(detail) =>
          result := Error(ErrorMessage, detail);
        case Reply(text) =>
          AppendedPreservesValid(history, message, text);
          history := history + Exchange(message, text);
          conversations := conversations[u := SliceFromEnd(history, MaxHistory)];
          result := Answer(text, u);
    }
  }
}
