/**
 * The Worker's `fetch` entry point: method/path dispatch and the shape of
 * each response (src/index.js, lines 4-70). Response bodies other than the
 * chat JSON are opaque.
 */
module Worker {
  import opened Sessions

  datatype Route = Preflight | ChatApi | Page

  /** The request as `fetch` sees it: HTTP method (`verb`), URL path, and the outcome of parsing the JSON body. */
  datatype Request = Request(verb: string, path: string, body: Body)

  datatype Header = Header(name: string, value: string)

  /** `null` (the preflight), the chat JSON, or the HTML page. */
  datatype Payload = NoBody | ChatJson(result: ChatResult) | HtmlPage

  datatype Response = Response(status: nat, headers: seq<Header>, payload: Payload)

  const AllowOrigin: Header := Header("Access-Control-Allow-Origin", "*")
  const JsonContent: Header := Header("Content-Type", "application/json")
  const PreflightHeaders: seq<Header> := [
    AllowOrigin,
    Header("Access-Control-Allow-Methods", "GET, POST, OPTIONS"),
    Header("Access-Control-Allow-Headers", "Content-Type")
  ]
  const PageHeaders: seq<Header> := [Header("Content-Type", "text/html")]

  /** `OPTIONS` on any path is a preflight; `POST /api/chat` is the chat API; anything else gets the page. */
  function RouteOf(verb: string, path: string): (r: Route)
    ensures r == Preflight <==> verb == "OPTIONS"
    ensures r == ChatApi <==> verb == "POST" && path == "/api/chat"
    ensures r == Page <==> verb != "OPTIONS" && (verb != "POST" || path != "/api/chat")
  {
    if verb == "OPTIONS" then Preflight
    else if verb == "POST" && path == "/api/chat" then ChatApi
    else Page
  }

  /** The chat JSON is sent with status 200 and an open CORS origin on success, and with status 500 and no CORS header on error. */
  function ChatResponse(result: ChatResult): (r: Response)
    ensures r.payload == ChatJson(result)
    ensures r.status == (if result.Answer? then 200 else 500)
    ensures JsonContent in r.headers
    ensures AllowOrigin in r.headers <==> result.Answer?
  {
    match result
    case Answer(_, _) => Response(200, [JsonContent, AllowOrigin], ChatJson(result))
    case Error(_, _) => Response(500, [JsonContent], ChatJson(result))
  }

  /** The Worker's request entry point; only the chat route touches the store. */
  method Fetch(store: Store, request: Request, service: InferenceCall -> Inference) returns (response: Response)
    requires store.Valid()
    modifies store
    ensures store.Valid()
    ensures RouteOf(request.verb, request.path) != ChatApi ==> store.conversations == old(store.conversations)
    ensures RouteOf(request.verb, request.path) == Preflight ==> response == Response(200, PreflightHeaders, NoBody)
    ensures RouteOf(request.verb, request.path) == Page ==> response == Response(200, PageHeaders, HtmlPage)
    ensures RouteOf(request.verb, request.path) == ChatApi ==>
      var o := Chat(old(store.conversations), request.body, service);
      store.conversations == o.conversations && response == ChatResponse(o.result)
  {
    if request.verb == "OPTIONS" {
      return Response(200, PreflightHeaders, NoBody);
    }
    if request.verb == "POST" && request.path == "/api/chat" {
      var result := store.HandleChat(request.body, service);
      return ChatResponse(result);
    }
    return Response(200, PageHeaders, HtmlPage);
  }
}
