/** Model of common/telegram_client.py: configuration lookup and the
    retry-with-backoff delivery of one message to the Telegram Bot API.

    The HTTP transport is an oracle `transport: nat -> Response` giving the
    outcome of the attempt with that index; every POST and every backoff sleep
    is recorded in a ghost log, so the number of attempts, their payloads and
    the time spent sleeping can be stated exactly. */
module TelegramClient {
  import opened Environment

  const BotTokenVar := "SPORTSDATAIO_API_KEY"
  const ChatIdVar := "TELEGRAM_CHAT_ID"
  const ChatIdFallbackVar := "TELEGRAM_CHATID"

  const ApiBase := "https://api.telegram.org/bot"
  const SendMessagePath := "/sendMessage"

  // ---------------------------------------------------------------------
  // Configuration
  // ---------------------------------------------------------------------

  /** `_get_env_variable`: `os.environ.get(name)`, the value when the
      variable is set, otherwise None; the error it logs for a missing or
      empty value is not modelled. */
  function EnvVariable(env: Env, name: string): Option<string>
  {
    if name in env then Some(env[name]) else None
  }

  /** `_get_bot_token`: the token comes only from SPORTSDATAIO_API_KEY. */
  function BotToken(env: Env): (r: Option<string>)
    ensures Truthy(r) <==> IsSet(env, BotTokenVar)
    ensures Truthy(r) ==> r.value == env[BotTokenVar]
  {
    EnvVariable(env, BotTokenVar)
  }

  /** `_get_chat_id`: Python's `a or b` over the two variables. */
  function ChatId(env: Env): (r: Option<string>)
    // the primary variable wins whenever it holds a non-empty value
    ensures IsSet(env, ChatIdVar) ==> r == Some(env[ChatIdVar])
    // otherwise the fallback is returned as it is, absent or empty included
    ensures !IsSet(env, ChatIdVar) ==>
              (ChatIdFallbackVar in env <==> r.Some?) &&
              (r.Some? ==> r.value == env[ChatIdFallbackVar])
    // a usable chat id exists iff one of the two variables is non-empty
    ensures Truthy(r) <==> IsSet(env, ChatIdVar) || IsSet(env, ChatIdFallbackVar)
  {
    var primary := EnvVariable(env, ChatIdVar);
    if Truthy(primary) then primary else EnvVariable(env, ChatIdFallbackVar)
  }

  /** The guard `not bot_token or not chat_id` is false. */
  predicate ConfigReady(env: Env)
  {
    Truthy(BotToken(env)) && Truthy(ChatId(env))
  }

  // ---------------------------------------------------------------------
  // Requests and responses
  // ---------------------------------------------------------------------

  /** One `requests.post(url, json=payload, timeout=timeout)` call. */
  datatype Post = Post(url: string, chatId: string, text: string, timeout: int)

  function SendMessageUrl(token: string): string
  {
    ApiBase + token + SendMessagePath
  }

  /** A JSON value as `response.json()` decodes it. */
  datatype Json =
    | JNull
    | JBool(b: bool)
    | JNumber(n: real)
    | JString(s: string)
    | JArray(items: seq<Json>)
    | JObject(members: map<string, Json>)

  /** Python truthiness of a decoded JSON value. */
  predicate JsonTruthy(j: Json)
  {
    match j
    case JNull => false
    case JBool(b) => b
    case JNumber(n) => n != 0.0
    case JString(s) => s != ""
    case JArray(items) => |items| > 0
    case JObject(members) => |members| > 0
  }

  /** A response body: not decodable as JSON, or a JSON object. */
  datatype Body = NotJson | JsonObject(fields: map<string, Json>)

  /** What the transport yields for one attempt: a `RequestException`
      (connection error, timeout, ...) or an HTTP reply. */
  datatype Response = TransportError | Reply(status: int, body: Body)

  /** `response.ok` of the requests library: false exactly for 4xx and 5xx. */
  predicate HttpOk(status: int)
  {
    !(400 <= status < 600)
  }

  /** `data.get("ok")` is truthy; a missing key reads as None. */
  predicate OkFieldTruthy(fields: map<string, Json>)
  {
    "ok" in fields && JsonTruthy(fields["ok"])
  }

  /** How one attempt ends, in the order the code tests it. A failure either
      jumps straight to the next attempt with `continue` (HTTP error status,
      body that is not JSON) or falls through to the backoff step
      (API-level error, `RequestException`). */
  datatype AttemptEnd = Delivered | FailedSkipBackoff | FailedThenBackoff

  function Classify(r: Response): (e: AttemptEnd)
    // delivered only for an HTTP-ok, JSON-object reply whose "ok" is truthy
    ensures e == Delivered <==>
              r.Reply? && HttpOk(r.status) && r.body.JsonObject? && OkFieldTruthy(r.body.fields)
    // a transport exception is a failure that reaches the backoff step
    ensures r.TransportError? ==> e == FailedThenBackoff
    // a failed reply skips the backoff iff its status is an HTTP error or its
    // body is not JSON
    ensures r.Reply? && e != Delivered ==>
              (e == FailedSkipBackoff <==> !HttpOk(r.status) || r.body.NotJson?)
  {
    match r
    case TransportError => FailedThenBackoff
    case Reply(status, body) =>
      if !HttpOk(status) then FailedSkipBackoff
      else match body
        case NotJson => FailedSkipBackoff
        case JsonObject(fields) =>
          if OkFieldTruthy(fields) then Delivered else FailedThenBackoff
  }

  predicate Succeeds(r: Response)
  {
    Classify(r) == Delivered
  }

  // ---------------------------------------------------------------------
  // Reference definition of the retry loop
  // ---------------------------------------------------------------------

  function Pow2(n: nat): (r: nat)
    ensures r >= 1
  {
    if n == 0 then 1 else 2 * Pow2(n - 1)
  }

  /** Everything observable about one call: the result, each POST made and
      each sleep taken (in seconds), in order. */
  datatype Trace = Trace(sent: bool, posts: seq<Post>, sleeps: seq<nat>)

  /** Iterations `attempt, attempt + 1, ..., retries` of
      `for attempt in range(retries + 1)`, as the code is written. */
  function Attempts(post: Post, transport: nat -> Response, attempt: nat, retries: int): Trace
    decreases if attempt <= retries then retries + 1 - attempt else 0
  {
    if attempt > retries then Trace(false, [], [])
    else
      var end := Classify(transport(attempt));
      if end == Delivered then Trace(true, [post], [])
      else
        var pause := if end == FailedThenBackoff && attempt < retries then [Pow2(attempt)] else [];
        var rest := Attempts(post, transport, attempt + 1, retries);
        Trace(rest.sent, [post] + rest.posts, pause + rest.sleeps)
  }

  /** The one request every attempt sends. */
  function MakePost(env: Env, text: string, timeout: int): Post
    requires ConfigReady(env)
  {
    Post(SendMessageUrl(BotToken(env).value), ChatId(env).value, text, timeout)
  }

  /** `send_telegram_message(text, timeout=timeout, retries=retries)`. */
  function Send(env: Env, text: string, timeout: int, retries: int, transport: nat -> Response): Trace
  {
    if !ConfigReady(env) then Trace(false, [], [])
    else Attempts(MakePost(env, text, timeout), transport, 0, retries)
  }

  // ---------------------------------------------------------------------
  // The imperative loop
  // ---------------------------------------------------------------------

  /** After `posts` and `sleeps` have been logged, the iterations from
      `attempt` on complete the trace `whole`. */
  ghost predicate Completes(whole: Trace, post: Post, transport: nat -> Response, attempt: nat, retries: int,
                            posts: seq<Post>, sleeps: seq<nat>)
  {
    var rest := Attempts(post, transport, attempt, retries);
    whole == Trace(rest.sent, posts + rest.posts, sleeps + rest.sleeps)
  }

  /** One iteration of the loop keeps `Completes`, or finishes the trace. */
  lemma AttemptStep(whole: Trace, post: Post, transport: nat -> Response, attempt: nat, retries: int,
                    posts: seq<Post>, sleeps: seq<nat>)
    requires attempt <= retries
    requires Completes(whole, post, transport, attempt, retries, posts, sleeps)
    ensures var end := Classify(transport(attempt));
            (end == Delivered ==> whole == Trace(true, posts + [post], sleeps)) &&
            (end == FailedSkipBackoff ==>
               Completes(whole, post, transport, attempt + 1, retries, posts + [post], sleeps)) &&
            (end == FailedThenBackoff && attempt < retries ==>
               Completes(whole, post, transport, attempt + 1, retries, posts + [post], sleeps + [Pow2(attempt)])) &&
            (end == FailedThenBackoff && attempt == retries ==>
               Completes(whole, post, transport, attempt + 1, retries, posts + [post], sleeps))
  {
    var next := Attempts(post, transport, attempt + 1, retries);
    assert posts + [post] + next.posts == posts + ([post] + next.posts);
    assert sleeps + [Pow2(attempt)] + next.sleeps == sleeps + ([Pow2(attempt)] + next.sleeps);
    assert sleeps + [] == sleeps;
  }

  /** `send_telegram_message`: the configuration guard, then the retry loop. */
  method SendTelegramMessage(env: Env, text: string, timeout: int, retries: int, transport: nat -> Response)
    returns (sent: bool, ghost posts: seq<Post>, ghost sleeps: seq<nat>)
    ensures sent == Send(env, text, timeout, retries, transport).sent
    ensures posts == Send(env, text, timeout, retries, transport).posts
    ensures sleeps == Send(env, text, timeout, retries, transport).sleeps
  {
    var botToken := BotToken(env);
    var chatId := ChatId(env);
    if !Truthy(botToken) || !Truthy(chatId) {
      return false, [], [];
    }
    var post := Post(SendMessageUrl(botToken.value), chatId.value, text, timeout);
    assert post == MakePost(env, text, timeout);
    sent, posts, sleeps := PostWithRetries(post, retries, transport);
  }

  /** The `for attempt in range(retries + 1)` loop of `send_telegram_message`,
      posting the same request on every attempt. */
  method PostWithRetries(post: Post, retries: int, transport: nat -> Response)
    returns (sent: bool, ghost posts: seq<Post>, ghost sleeps: seq<nat>)
    ensures sent == Attempts(post, transport, 0, retries).sent
    ensures posts == Attempts(post, transport, 0, retries).posts
    ensures sleeps == Attempts(post, transport, 0, retries).sleeps
  {
    posts, sleeps := [], [];
    ghost var whole := Attempts(post, transport, 0, retries);
    assert Completes(whole, post, transport, 0, retries, posts, sleeps);
    var attempt: nat := 0;
    while attempt < retries + 1
      invariant attempt == 0 || attempt <= retries + 1
      invariant Completes(whole, post, transport, attempt, retries, posts, sleeps)
      decreases retries + 1 - attempt
    {
      var response := transport(attempt);
      AttemptStep(whole, post, transport, attempt, retries, posts, sleeps);
      posts := posts + [post];
      var end := Classify(response);
      if end == Delivered {
        return true, posts, sleeps;
      }
      if end == FailedSkipBackoff {
        // HTTP error status or a body that is not JSON: `continue`
        attempt := attempt + 1;
        continue;
      }
      // API-level error or RequestException: on to the backoff step
      if attempt < retries {
        sleeps := sleeps + [Pow2(attempt)];
      }
      attempt := attempt + 1;
    }
    assert Attempts(post, transport, attempt, retries) == Trace(false, [], []);
    assert posts + [] == posts && sleeps + [] == sleeps;
    sent := false;
  }
}
