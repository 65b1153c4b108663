/** The gateway client for the hosted model API (`OpenRouterService`):
    configuration checks and request headers, merging and clamping of the
    model parameters, the payload, the mapping from HTTP status to error,
    and the bounded retry loop of `sendRequest` with exponential backoff.

    The network is replaced by `env`, which gives the outcome of the
    fetch made by attempt number n; `Math.random` is replaced by `jitter`,
    the random part of the n-th back-off delay in whole milliseconds. */
module OpenRouter {
  import opened Common

  /** `retryCount` and `retryDelay` (milliseconds) of the service. */
  const RetryCount: nat := 3
  const RetryDelay: nat := 1000
  const MaxTokensLimit: int := 4096

  // ---------------------------------------------------------------- errors

  /** What the gateway can throw. `OpenRouterError` is the service's own
      error class (and its subclass `OpenRouterApiError`); `PlainError` is
      any other `Error`: a network `TypeError` from `fetch`, a `ZodError`
      from message validation, a `SyntaxError` from `response.json()` and
      the "Invalid response format" error. */
  datatype Failure =
    | OpenRouterError(message: string, statusCode: Option<int>, retryable: bool)
    | PlainError(message: string)
  {
    function Message(): string
    {
      match this
      case OpenRouterError(m, _, _) => m
      case PlainError(m) => m
    }
  }

  /** `new OpenRouterApiError(message, statusCode)` */
  function ApiError(message: string, statusCode: int): Failure
  {
    OpenRouterError(message, Some(statusCode), statusCode >= 500 || statusCode == 429)
  }

  /** The catch block's test `error instanceof OpenRouterError && !error.retryable`
      negated: every error other than a non-retryable `OpenRouterError`
      leads to another attempt (when one is left). */
  predicate ShouldRetry(e: Failure)
  {
    !(e.OpenRouterError? && !e.retryable)
  }

  /** The message `handleApiError` chooses for a status code. */
  function StatusMessage(statusCode: int, statusText: string): string
  {
    if statusCode == 401 then "Invalid API key"
    else if statusCode == 403 then "Access forbidden"
    else if statusCode == 429 then "Rate limit exceeded"
    else if statusCode == 500 then "OpenRouter internal server error"
    else "OpenRouter API error: " + statusText
  }

  /** `handleApiError(response)`: the error thrown for a non-2xx response.
      `body` is the result of `response.text()`, `None` when reading it failed. */
  function HandleApiError(statusCode: int, statusText: string, body: Option<string>): Failure
  {
    var text := if body.Some? then body.value else "";
    var message := StatusMessage(statusCode, statusText);
    ApiError(if text != "" then message + " - " + text else message, statusCode)
  }

  /** An API error is retryable exactly for 429 and for every status of
      500 and above; 401, 403 and the other 4xx end the loop. */
  lemma ApiErrorRetryable(statusCode: int, statusText: string, body: Option<string>)
    ensures var e := HandleApiError(statusCode, statusText, body);
      && e.OpenRouterError?
      && e.statusCode == Some(statusCode)
      && (ShouldRetry(e) <==> statusCode >= 500 || statusCode == 429)
      && (400 <= statusCode < 500 && statusCode != 429 ==> !ShouldRetry(e))
  {
  }

  /** 502 and 503 get the generic message but are still retried. */
  lemma GatewayStatusesRetriedWithDefaultText(statusText: string)
    ensures forall s | s == 502 || s == 503 ::
      && StatusMessage(s, statusText) == "OpenRouter API error: " + statusText
      && ShouldRetry(HandleApiError(s, statusText, None))
  {
  }

  /** The message is the status message, followed by " - " and the
      body exactly when the body is non-empty. */
  lemma ApiErrorMessage(statusCode: int, statusText: string, body: string)
    ensures HandleApiError(statusCode, statusText, Some(body)).message
         == StatusMessage(statusCode, statusText) + (if body == "" then "" else " - " + body)
    ensures HandleApiError(statusCode, statusText, None).message == StatusMessage(statusCode, statusText)
  {
  }

  // ---------------------------------------------------- configuration

  /** A model parameter value. A JavaScript number is a `real` here; the
      clamps only compare and pick, so they round nothing. `Undefined`
      is a key present with value `undefined`, which the spread operator
      copies. */
  datatype ParamValue = Num(x: real) | Undefined | Other(text: string)

  type Params = map<string, ParamValue>

  datatype AppParams = AppParams(httpReferer: Option<string>, applicationTitle: Option<string>)

  /** `OpenRouterConfig`; the token limit and the temperature are kept
      apart from the other parameters because the schema checks them. */
  datatype Config = Config(
    apiEndpoint: string,
    apiKey: string,
    defaultModelName: string,
    maxTokens: int,
    temperature: real,
    otherParams: Params,
    applicationParameters: Option<AppParams>)

  /** The service after its constructor ran: the validated configuration
      and the request headers. */
  datatype Service = Service(config: Config, headers: map<string, string>)

  /** `openRouterConfigSchema.parse(config)`; `isUrl` stands for zod's
      URL check. */
  predicate ValidConfig(c: Config, isUrl: string -> bool)
  {
    && isUrl(c.apiEndpoint)
    && |c.apiKey| >= 1
    && |c.defaultModelName| >= 1
    && c.maxTokens > 0
    && 0.0 <= c.temperature <= 1.0
    && (c.applicationParameters.Some? ==>
          && (c.applicationParameters.value.httpReferer.Some? ==> isUrl(c.applicationParameters.value.httpReferer.value))
          && (c.applicationParameters.value.applicationTitle.Some? ==> |c.applicationParameters.value.applicationTitle.value| >= 1))
  }

  /** The constructor: validate, then build the headers step by step. */
  function NewService(c: Config, isUrl: string -> bool): (r: Result<Service>)
    ensures r.Ok? <==> ValidConfig(c, isUrl)
    ensures r.Ok? ==> r.value.config == c
  {
    if !ValidConfig(c, isUrl) then Err(ConfigErrorMessage)
    else
      var h := map["Content-Type" := "application/json", "Authorization" := "Bearer " + c.apiKey];
      var h := if c.applicationParameters.Some? && c.applicationParameters.value.httpReferer.Some?
                  && c.applicationParameters.value.httpReferer.value != ""
               then h["HTTP-Referer" := c.applicationParameters.value.httpReferer.value] else h;
      var h := if c.applicationParameters.Some? && c.applicationParameters.value.applicationTitle.Some?
                  && c.applicationParameters.value.applicationTitle.value != ""
               then h["X-Title" := c.applicationParameters.value.applicationTitle.value] else h;
      Ok(Service(c, h))
  }

  /** Stands for the message of the `ZodError` a failed schema check throws. */
  const ConfigErrorMessage: string := "Invalid configuration"

  /** The headers always carry the JSON content type and the bearer key,
      and carry the referer and title exactly when those are configured. */
  lemma ServiceHeaders(c: Config, isUrl: string -> bool)
    requires ValidConfig(c, isUrl)
    ensures var h := NewService(c, isUrl).value.headers;
      && h["Content-Type"] == "application/json"
      && h["Authorization"] == "Bearer " + c.apiKey
      && ("HTTP-Referer" in h <==> c.applicationParameters.Some? && c.applicationParameters.value.httpReferer.Some?
                                   && c.applicationParameters.value.httpReferer.value != "")
      && ("X-Title" in h <==> c.applicationParameters.Some? && c.applicationParameters.value.applicationTitle.Some?)
      && h.Keys <= {"Content-Type", "Authorization", "HTTP-Referer", "X-Title"}
  {
  }

  /** `config.modelParameters` as one record. */
  function ConfigParams(c: Config): (p: Params)
    ensures p.Keys == c.otherParams.Keys + {"maxTokens", "temperature"}
    ensures p["maxTokens"] == Num(c.maxTokens as real) && p["temperature"] == Num(c.temperature)
    ensures forall k | k in p && k != "maxTokens" && k != "temperature" :: p[k] == c.otherParams[k]
  {
    c.otherParams["maxTokens" := Num(c.maxTokens as real)]["temperature" := Num(c.temperature)]
  }

  // ------------------------------------------------------- parameters

  /** `Math.min(Math.max(1, n), 4096)` */
  function ClampTokens(n: real): (r: real)
    ensures 1.0 <= r <= MaxTokensLimit as real
    ensures 1.0 <= n <= MaxTokensLimit as real ==> r == n
  {
    if n < 1.0 then 1.0 else if n > MaxTokensLimit as real then MaxTokensLimit as real else n
  }

  /** `Math.min(Math.max(0, t), 1)` */
  function ClampTemperature(t: real): (r: real)
    ensures 0.0 <= r <= 1.0
    ensures 0.0 <= t <= 1.0 ==> r == t
  {
    if t < 0.0 then 0.0 else if t > 1.0 then 1.0 else t
  }

  /** `normalizeModelParameters(params)`: the token limit, then the
      temperature, is clamped when it is a number. */
  function NormalizeModelParameters(p: Params): Params
  {
    var p := if "maxTokens" in p && p["maxTokens"].Num? then p["maxTokens" := Num(ClampTokens(p["maxTokens"].x))] else p;
    if "temperature" in p && p["temperature"].Num? then p["temperature" := Num(ClampTemperature(p["temperature"].x))] else p
  }

  /** `{...config.modelParameters, ...additionalParams}` */
  function MergeParams(config: Params, additional: Params): Params
  {
    config + additional
  }

  lemma NormalizedParameters(config: Params, additional: Params)
    ensures var n := NormalizeModelParameters(MergeParams(config, additional));
      && n.Keys == config.Keys + additional.Keys
      && (forall k | k in n && k != "maxTokens" && k != "temperature" ::
            n[k] == (if k in additional then additional[k] else config[k]))
      && ("maxTokens" in n && n["maxTokens"].Num? ==> 1.0 <= n["maxTokens"].x <= MaxTokensLimit as real)
      && ("maxTokens" in additional && additional["maxTokens"].Num? ==>
            n["maxTokens"] == Num(ClampTokens(additional["maxTokens"].x)))
      && ("maxTokens" !in additional && "maxTokens" in config && config["maxTokens"].Num? ==>
            n["maxTokens"] == Num(ClampTokens(config["maxTokens"].x)))
      && ("maxTokens" in n && !n["maxTokens"].Num? ==>
            n["maxTokens"] == (if "maxTokens" in additional then additional["maxTokens"] else config["maxTokens"]))
      && ("temperature" in n && n["temperature"].Num? ==> 0.0 <= n["temperature"].x <= 1.0)
      && ("temperature" in additional && additional["temperature"].Num? ==>
            n["temperature"] == Num(ClampTemperature(additional["temperature"].x)))
      && ("temperature" !in additional && "temperature" in config && config["temperature"].Num? ==>
            n["temperature"] == Num(ClampTemperature(config["temperature"].x)))
      && ("temperature" in n && !n["temperature"].Num? ==>
            n["temperature"] == (if "temperature" in additional then additional["temperature"] else config["temperature"]))
  {
  }

  // --------------------------------------------------------- messages

  datatype Role = UserRole | AssistantRole | SystemRole
  datatype ContentPart = TextPart(text: string) | ImageUrlPart(url: string)
  datatype Content = TextContent(text: string) | Parts(parts: seq<ContentPart>)
  datatype Message = Message(role: Role, content: Content)

  /** The opaque `response_format` argument. */
  datatype ResponseFormat = ResponseFormat(formatType: string, schemaName: string)

  /** `messageSchema.parse(msg)`: every image part must carry a URL. */
  predicate ValidMessage(m: Message, isUrl: string -> bool)
  {
    m.content.Parts? ==>
      forall i :: 0 <= i < |m.content.parts| && m.content.parts[i].ImageUrlPart? ==> isUrl(m.content.parts[i].url)
  }

  /** Stands for the message of the `ZodError` thrown for a bad image URL. */
  const InvalidUrlMessage: string := "Invalid url"

  datatype PayloadValue =
    | ModelName(name: string)
    | Messages(messages: seq<Message>)
    | Parameter(value: ParamValue)
    | Format(format: ResponseFormat)

  type Payload = map<string, PayloadValue>

  function ParamsAsPayload(p: Params): Payload
  {
    map k | k in p :: Parameter(p[k])
  }

  /** `buildPayload(messages, responseFormat, additionalParams)`: the model
      name and the messages, then the spread parameters (which may
      override them), then `response_format` when one was given. */
  function BuildPayload(s: Service, messages: seq<Message>, responseFormat: Option<ResponseFormat>,
                        additional: Params, isUrl: string -> bool): Result<Payload>
  {
    if exists i :: 0 <= i < |messages| && !ValidMessage(messages[i], isUrl) then Err(InvalidUrlMessage)
    else
      var parameters := NormalizeModelParameters(MergeParams(ConfigParams(s.config), additional));
      Ok(Assemble(s.config.defaultModelName, messages, parameters, responseFormat))
  }

  /** The object literal of `buildPayload` for checked messages. */
  function Assemble(model: string, messages: seq<Message>, parameters: Params,
                    responseFormat: Option<ResponseFormat>): Payload
  {
    var base := map["model" := ModelName(model), "messages" := Messages(messages)];
    var payload := base + ParamsAsPayload(parameters);
    if responseFormat.Some? then payload["response_format" := Format(responseFormat.value)] else payload
  }

  /** Later members of the literal override earlier ones: a parameter
      overrides the model name and the messages, `response_format`
      overrides a parameter of that name. */
  lemma AssembleSpec(model: string, messages: seq<Message>, parameters: Params, rf: Option<ResponseFormat>)
    ensures var r := Assemble(model, messages, parameters, rf);
      && ("model" !in parameters ==> r["model"] == ModelName(model))
      && ("messages" !in parameters ==> r["messages"] == Messages(messages))
      && (forall k | k in parameters && k != "response_format" :: r[k] == Parameter(parameters[k]))
      && (rf.Some? ==> r["response_format"] == Format(rf.value))
      && ("response_format" in r <==> rf.Some? || "response_format" in parameters)
      && ("maxTokens" in r ==> "maxTokens" in parameters && r["maxTokens"] == Parameter(parameters["maxTokens"]))
  {
  }

  /** What the payload carries: the default model name and the messages
      unless a parameter of the same name overrides them, every normalized
      parameter, and `response_format` exactly when one was supplied (or
      a parameter of that name exists). */
  lemma PayloadContents(s: Service, messages: seq<Message>, rf: Option<ResponseFormat>,
                        additional: Params, isUrl: string -> bool)
    requires forall i :: 0 <= i < |messages| ==> ValidMessage(messages[i], isUrl)
    ensures var parameters := NormalizeModelParameters(MergeParams(ConfigParams(s.config), additional));
      var r := BuildPayload(s, messages, rf, additional, isUrl);
      && r.Ok?
      && ("model" !in parameters ==> r.value["model"] == ModelName(s.config.defaultModelName))
      && ("messages" !in parameters ==> r.value["messages"] == Messages(messages))
      && (forall k | k in parameters && k != "response_format" :: r.value[k] == Parameter(parameters[k]))
      && (rf.Some? ==> r.value["response_format"] == Format(rf.value))
      && ("response_format" in r.value <==> rf.Some? || "response_format" in parameters)
      && (("maxTokens" in r.value && r.value["maxTokens"].Parameter? && r.value["maxTokens"].value.Num?) ==>
            1.0 <= r.value["maxTokens"].value.x <= MaxTokensLimit as real)
      && "temperature" in r.value
      && ("temperature" !in additional ==>
            r.value["temperature"] == Parameter(Num(ClampTemperature(s.config.temperature))))
      && (r.value["temperature"].Parameter? && r.value["temperature"].value.Num? ==>
            0.0 <= r.value["temperature"].value.x <= 1.0)
  {
    var parameters := NormalizeModelParameters(MergeParams(ConfigParams(s.config), additional));
    NormalizedParameters(ConfigParams(s.config), additional);
    AssembleSpec(s.config.defaultModelName, messages, parameters, rf);
  }

  /** A message with an image part whose URL fails the check makes
      every payload build throw. */
  lemma BadUrlFailsBuild(s: Service, messages: seq<Message>, rf: Option<ResponseFormat>,
                         additional: Params, isUrl: string -> bool, i: nat)
    requires i < |messages| && !ValidMessage(messages[i], isUrl)
    ensures BuildPayload(s, messages, rf, additional, isUrl) == Err(InvalidUrlMessage)
  {
  }

  // ---------------------------------------------------------- responses

  datatype Choice = Choice(content: string, role: string, finishReason: string)

  /** A body that passed `openRouterResponseSchema`. */
  datatype GatewayResponse = GatewayResponse(id: string, choices: seq<Choice>)

  /** What `response.json()` followed by the schema check sees. */
  datatype JsonBody =
    | NotJson(syntaxError: string)
    | ShapeMismatch
    | WellFormed(response: GatewayResponse)

  /** The outcome of one `fetch`. `text` is what `response.text()` gives,
      `None` when reading the body fails. */
  datatype FetchOutcome =
    | NetworkFailure(message: string)
    | HttpResponse(status: int, statusText: string, text: Option<string>, json: JsonBody)

  /** What an attempt, or the whole call, ends with. */
  datatype Outcome = Returned(response: GatewayResponse) | Thrown(error: Failure)

  const InvalidFormatMessage: string := "Invalid response format from OpenRouter API"

  /** `validateResponse` after `response.json()`. */
  function ReadBody(json: JsonBody): Outcome
  {
    match json
    case NotJson(e) => Thrown(PlainError(e))
    case ShapeMismatch => Thrown(PlainError(InvalidFormatMessage))
    case WellFormed(r) => Returned(r)
  }

  /** The body of the `try` block for one attempt. A failed payload build
      throws before any fetch. */
  function AttemptOnce(payload: Result<Payload>, outcome: FetchOutcome): Outcome
  {
    if payload.Err? then Thrown(PlainError(payload.message))
    else match outcome
      case NetworkFailure(m) => Thrown(PlainError(m))
      case HttpResponse(status, statusText, text, json) =>
        if !(200 <= status <= 299) then Thrown(HandleApiError(status, statusText, text))
        else ReadBody(json)
  }

  /** The error thrown once the last attempt failed with a retryable error. */
  function Exhausted(last: Failure): Failure
  {
    OpenRouterError("Failed to send request after " + NatToString(RetryCount) + " attempts: " + last.Message(),
                    None, false)
  }

  // ------------------------------------------------------------ backoff

  function Pow2(n: nat): (r: nat)
    ensures r >= 1
  {
    if n == 0 then 1 else 2 * Pow2(n - 1)
  }

  lemma {:induction false} Pow2Monotone(m: nat, n: nat)
    requires m <= n
    ensures Pow2(m) <= Pow2(n)
  {
    if m < n {
      Pow2Monotone(m, n - 1);
    }
  }

  /** `baseDelay * Math.pow(2, attempt)` */
  function ExponentialDelay(attempt: nat): nat
  {
    RetryDelay * Pow2(attempt)
  }

  /** `baseDelay * Math.pow(2, retryCount - 1)` */
  function MaxDelay(): nat
  {
    RetryDelay * Pow2(RetryCount - 1)
  }

  /** A jitter value that `Math.random() * 0.1 * exponentialDelay` can
      produce, in whole milliseconds. */
  predicate ValidJitter(attempt: nat, j: nat)
  {
    10 * j < ExponentialDelay(attempt)
  }

  /** `calculateRetryDelay(attempt)` for the random part `j`. */
  function CalculateRetryDelay(attempt: nat, j: nat): nat
  {
    var exponential := ExponentialDelay(attempt);
    if exponential + j < MaxDelay() then exponential + j else MaxDelay()
  }

  /** The delay after failed attempt n lies in [base * 2^n, base * 2^(retryCount - 1)],
      and for the attempts that are followed by a sleep the cap is never
      reached, so the delay is the exponential part plus the jitter. */
  lemma RetryDelayBounds(attempt: nat, j: nat)
    requires attempt < RetryCount - 1 && ValidJitter(attempt, j)
    ensures ExponentialDelay(attempt) <= CalculateRetryDelay(attempt, j) <= MaxDelay()
    ensures CalculateRetryDelay(attempt, j) == ExponentialDelay(attempt) + j
  {
    assert Pow2(2) == 4;
    Pow2Monotone(attempt, 1);
    assert Pow2(1) == 2;
  }

  // ------------------------------------------------------ the retry loop

  /** The sleeps so far: the i-th is the exponential delay of attempt i
      plus that attempt's jitter, within the bounds of the backoff. */
  ghost predicate BackoffDelays(delays: seq<nat>, jitter: nat -> nat)
  {
    forall i :: 0 <= i < |delays| ==>
      delays[i] == ExponentialDelay(i) + jitter(i) && ExponentialDelay(i) <= delays[i] <= MaxDelay()
  }

  /** The sleep after a retryable failure of an attempt that is not the
      last one. */
  lemma BackoffStep(delays: seq<nat>, jitter: nat -> nat)
    requires BackoffDelays(delays, jitter)
    requires |delays| < RetryCount - 1 && ValidJitter(|delays|, jitter(|delays|))
    ensures BackoffDelays(delays + [CalculateRetryDelay(|delays|, jitter(|delays|))], jitter)
  {
    RetryDelayBounds(|delays|, jitter(|delays|));
  }

  /** One run of `sendRequest`: how it ends and how many attempts it made. */
  datatype Run = Run(outcome: Outcome, attempts: nat)

  /** The run of `sendRequest` from attempt number `attempt` on, when
      every build of the payload gives `payload`. */
  function SendFrom(payload: Result<Payload>, env: nat -> FetchOutcome, attempt: nat): (r: Run)
    requires attempt < RetryCount
    ensures attempt < r.attempts <= RetryCount
    decreases RetryCount - attempt
  {
    var o := AttemptOnce(payload, env(attempt));
    if o.Returned? then Run(o, attempt + 1)
    else if !ShouldRetry(o.error) then Run(o, attempt + 1)
    else if attempt < RetryCount - 1 then SendFrom(payload, env, attempt + 1)
    else Run(Thrown(Exhausted(o.error)), attempt + 1)
  }

  /** One pass through the `try` block: the payload is built and, when
      that works, fetched once with the answer `response`. */
  method TryOnce(s: Service, messages: seq<Message>, responseFormat: Option<ResponseFormat>,
                 additional: Params, isUrl: string -> bool, response: FetchOutcome)
    returns (o: Outcome, fetched: bool)
    ensures o == AttemptOnce(BuildPayload(s, messages, responseFormat, additional, isUrl), response)
    ensures fetched == BuildPayload(s, messages, responseFormat, additional, isUrl).Ok?
  {
    var payload := BuildPayload(s, messages, responseFormat, additional, isUrl);
    if payload.Err? {
      o, fetched := Thrown(PlainError(payload.message)), false;
    } else {
      o, fetched := AttemptOnce(payload, response), true;
    }
  }

  /** `sendRequest(messages, responseFormat, additionalParams)`. The loop
      makes at most `RetryCount` attempts, sleeps only between two
      attempts, and ends as `SendFrom` describes. `fetches` counts the
      calls to `fetch`; `delays` lists the sleeps in order. */
  method SendRequest(s: Service, messages: seq<Message>, responseFormat: Option<ResponseFormat>,
                     additional: Params, isUrl: string -> bool,
                     env: nat -> FetchOutcome, jitter: nat -> nat)
    returns (result: Outcome, attempts: nat, fetches: nat, delays: seq<nat>)
    requires forall n: nat :: ValidJitter(n, jitter(n))
    ensures Run(result, attempts) == SendFrom(BuildPayload(s, messages, responseFormat, additional, isUrl), env, 0)
    ensures 1 <= attempts <= RetryCount
    ensures |delays| == attempts - 1
    ensures fetches == (if BuildPayload(s, messages, responseFormat, additional, isUrl).Ok? then attempts else 0)
    ensures forall i :: 0 <= i < |delays| ==> delays[i] == ExponentialDelay(i) + jitter(i)
    ensures forall i :: 0 <= i < |delays| ==> ExponentialDelay(i) <= delays[i] <= MaxDelay()
  {
    ghost var payload0 := BuildPayload(s, messages, responseFormat, additional, isUrl);
    var lastError: Option<Failure> := None;
    var attempt: nat := 0;
    fetches, delays := 0, [];
    while attempt < RetryCount
      invariant attempt < RetryCount
      invariant SendFrom(payload0, env, attempt) == SendFrom(payload0, env, 0)
      invariant |delays| == attempt
      invariant fetches == (if payload0.Ok? then attempt else 0)
      invariant BackoffDelays(delays, jitter)
      decreases RetryCount - attempt
    {
      var o, fetched := TryOnce(s, messages, responseFormat, additional, isUrl, env(attempt));
      if fetched {
        fetches := fetches + 1;
      }
      if o.Returned? {
        result, attempts := o, attempt + 1;
        return;
      }
      lastError := Some(o.error);
      if !ShouldRetry(o.error) {
        result, attempts := o, attempt + 1;
        return;
      }
      if attempt < RetryCount - 1 {
        var delay := CalculateRetryDelay(attempt, jitter(attempt));
        BackoffStep(delays, jitter);
        delays := delays + [delay];
        attempt := attempt + 1;
        continue;
      }
      result, attempts := Thrown(Exhausted(o.error)), attempt + 1;
      return;
    }
    assert false;
  }

  // ------------------------------------------------- properties of a run

  /** Every one of the first k attempts failed with an error that is retried. */
  ghost predicate RetriedBefore(payload: Result<Payload>, env: nat -> FetchOutcome, k: nat)
  {
    forall i :: 0 <= i < k ==> AttemptOnce(payload, env(i)).Thrown? && ShouldRetry(AttemptOnce(payload, env(i)).error)
  }

  lemma {:induction false} SendFromSkips(payload: Result<Payload>, env: nat -> FetchOutcome, j: nat, k: nat)
    requires j <= k < RetryCount
    requires RetriedBefore(payload, env, k)
    ensures SendFrom(payload, env, j) == SendFrom(payload, env, k)
    decreases k - j
  {
    if j < k {
      SendFromSkips(payload, env, j + 1, k);
    }
  }

  /** How a run ends, given the first attempt k that does not end in a
      retried error: it returns that attempt's response or rethrows its
      error unchanged after k + 1 attempts; if every attempt is retried,
      the last error is wrapped once all `RetryCount` attempts are spent. */
  lemma RunOutcome(payload: Result<Payload>, env: nat -> FetchOutcome, k: nat)
    requires k < RetryCount && RetriedBefore(payload, env, k)
    ensures var o := AttemptOnce(payload, env(k));
      && (o.Returned? ==> SendFrom(payload, env, 0) == Run(o, k + 1))
      && (o.Thrown? && !ShouldRetry(o.error) ==> SendFrom(payload, env, 0) == Run(o, k + 1))
      && (o.Thrown? && ShouldRetry(o.error) && k == RetryCount - 1 ==>
            SendFrom(payload, env, 0) == Run(Thrown(Exhausted(o.error)), RetryCount))
  {
    SendFromSkips(payload, env, 0, k);
  }

  /** The error thrown after the last attempt: an `OpenRouterError` that is
      not retryable, has no status code, and whose message names the
      attempt count and ends with the last error's message. */
  lemma ExhaustedError(last: Failure)
    ensures var e := Exhausted(last);
      && e.OpenRouterError? && !e.retryable && e.statusCode == None
      && e.message == "Failed to send request after 3 attempts: " + last.Message()
  {
    assert NatToString(3) == "3";
  }

  /** An endpoint that always answers 500: three attempts, then the
      wrapped error. */
  lemma AlwaysServerError(p: Payload)
    ensures var env := (n: nat) => HttpResponse(500, "Internal Server Error", Some(""), ShapeMismatch);
      var run := SendFrom(Ok(p), env, 0);
      && run.attempts == 3
      && run.outcome == Thrown(Exhausted(ApiError("OpenRouter internal server error", 500)))
  {
    var env := (n: nat) => HttpResponse(500, "Internal Server Error", Some(""), ShapeMismatch);
    var e := ApiError("OpenRouter internal server error", 500);
    ServerErrorAttempt(p, env(0));
    ServerErrorAttempt(p, env(1));
    ServerErrorAttempt(p, env(2));
    assert RetriedBefore(Ok(p), env, 2);
    RunOutcome(Ok(p), env, 2);
  }

  lemma ExhaustedServerErrorMessage()
    ensures Exhausted(ApiError("OpenRouter internal server error", 500)).message
         == "Failed to send request after 3 attempts: " + "OpenRouter internal server error"
  {
    ExhaustedError(ApiError("OpenRouter internal server error", 500));
  }

  lemma ServerErrorAttempt(p: Payload, o: FetchOutcome)
    requires o == HttpResponse(500, "Internal Server Error", Some(""), ShapeMismatch)
    ensures AttemptOnce(Ok(p), o) == Thrown(ApiError("OpenRouter internal server error", 500))
    ensures ShouldRetry(ApiError("OpenRouter internal server error", 500))
  {
  }

  /** An endpoint that answers 401: one attempt, and the API error itself. */
  lemma UnauthorizedStopsAtOnce(p: Payload)
    ensures var env := (n: nat) => HttpResponse(401, "Unauthorized", None, ShapeMismatch);
      SendFrom(Ok(p), env, 0) == Run(Thrown(OpenRouterError("Invalid API key", Some(401), false)), 1)
  {
  }

  /** Two network failures and then a valid answer: the answer is returned
      after three attempts. */
  lemma RecoversOnThirdAttempt(p: Payload, answer: GatewayResponse)
    ensures var env := (n: nat) => if n < 2 then NetworkFailure("fetch failed") else HttpResponse(200, "OK", None, WellFormed(answer));
      SendFrom(Ok(p), env, 0) == Run(Returned(answer), 3)
  {
    var env := (n: nat) => if n < 2 then NetworkFailure("fetch failed") else HttpResponse(200, "OK", None, WellFormed(answer));
    assert RetriedBefore(Ok(p), env, 2);
    RunOutcome(Ok(p), env, 2);
  }

  /** A body that does not match the schema is retried like a network
      failure: with three such answers the run ends in the wrapped error. */
  lemma InvalidFormatIsRetried(p: Payload)
    ensures var env := (n: nat) => HttpResponse(200, "OK", None, ShapeMismatch);
      SendFrom(Ok(p), env, 0) == Run(Thrown(Exhausted(PlainError(InvalidFormatMessage))), 3)
  {
    var env := (n: nat) => HttpResponse(200, "OK", None, ShapeMismatch);
    assert RetriedBefore(Ok(p), env, 2);
    RunOutcome(Ok(p), env, 2);
  }

  /** A payload that fails validation throws a plain error, which the
      loop retries: all attempts are spent without a fetch (see
      `SendRequest`), and the validation message is wrapped. */
  lemma BuildFailureIsRetried(message: string, env: nat -> FetchOutcome)
    ensures SendFrom(Err(message), env, 0) == Run(Thrown(Exhausted(PlainError(message))), 3)
  {
    assert RetriedBefore(Err(message), env, 2);
    RunOutcome(Err(message), env, 2);
  }
}
