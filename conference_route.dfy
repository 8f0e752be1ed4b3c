/**
 * The `POST /api/conference` route of server.js: the request check, the
 * sequence of TrueConf Server requests made by `generateConferenceClients`
 * with the local checks on each answer, and the mapping of a thrown error to
 * an HTTP status and message.
 *
 * The network is not modelled: `answer` stands for TrueConf Server and gives,
 * for each request the server sends, either the response body (`Ok(data)`)
 * or the error the HTTP client rejects with (`Err(error)`).
 */
module ConferenceRoute {
  import opened Wrappers
  import opened JsValues
  import Server

  /** A request to TrueConf Server, by endpoint. */
  datatype Request =
    | TokenRequest(clientId: string, clientSecret: string)  // POST /oauth2/v1/token (client credentials)
    | CreateConference(payload: JsValue)                     // POST /api/v3.11/conferences
    | RunConference(id: JsValue)                             // POST /api/v3.11/conferences/<id>/run
    | RefreshConference(id: JsValue)                         // GET /api/v3.11/conferences/<id>
    | ClientsRequest(callId: JsValue, user: string)          // GET /api/v3.11/software/clients?call_id&user&case

  /** A request together with the base URL and the bearer token (if any) it is sent with. */
  datatype Call = Call(server: string, bearer: Option<string>, request: Request)

  /** The HTTP client of `createTrueConfClient`: base URL and `Authorization: Bearer <token>`. */
  datatype Api = Api(server: string, bearer: string)

  /** The requests sent so far, in order, and what the step returned or threw. */
  datatype Step<T> = Step(calls: seq<Call>, result: Result<T, JsValue>)

  const NoAccessToken := "OAuth server did not return an access_token"
  const NoConferenceId := "API did not return a conference ID"
  const NoClientList := "TrueConf Web did not return a list of clients"

  /** The base URL every request goes to. */
  function ServerBase(env: map<string, string>): string
    requires "SERVER" in env
  {
    Server.NormalizeServerUrl(env["SERVER"])
  }

  /** The token request, sent once the environment has been validated. */
  function TokenCall(env: map<string, string>): (c: Call)
    requires Server.AssertEnvConfig(env).None?
    ensures c.bearer.None? && c.request.TokenRequest?
  {
    assert Server.IsSet(env, Server.RequiredEnv[0]) && Server.IsSet(env, Server.RequiredEnv[1])
      && Server.IsSet(env, Server.RequiredEnv[2]);
    Call(ServerBase(env), None, TokenRequest(env["CLIENT_ID"], env["CLIENT_SECRET"]))
  }

  /** A request through the authorised client. */
  function ApiCall(api: Api, request: Request): Call {
    Call(api.server, Some(api.bearer), request)
  }

  /** Every call goes to the client's server with its bearer token. */
  predicate Authorized(calls: seq<Call>, api: Api) {
    forall j :: 0 <= j < |calls| ==> calls[j].server == api.server && calls[j].bearer == Some(api.bearer)
  }

  /**
   * The token check of `fetchAccessToken`: `data?.access_token` must be truthy.
   * The bearer value is the token as a template literal renders it.
   */
  function AccessToken(data: JsValue): (r: Result<string, JsValue>)
    ensures r.Ok? <==> Truthy(Prop(data, "access_token"))
    ensures r.Ok? ==> r.value == JsToString(Prop(data, "access_token"))
    ensures r.Err? ==> r.error == ErrorObject(NoAccessToken)
  {
    var token := Prop(data, "access_token");
    if !Truthy(token) then Err(ErrorObject(NoAccessToken)) else Ok(JsToString(token))
  }

  /** The id check of `createConferenceLifecycle`: `data?.conference?.id` must be truthy. */
  function ConferenceId(data: JsValue): (r: Result<JsValue, JsValue>)
    ensures r.Ok? <==> Truthy(Prop(Prop(data, "conference"), "id"))
    ensures r.Ok? ==> r.value == Prop(Prop(data, "conference"), "id") && Truthy(r.value)
    ensures r.Err? ==> r.error == ErrorObject(NoConferenceId)
  {
    var id := Prop(Prop(data, "conference"), "id");
    if !Truthy(id) then Err(ErrorObject(NoConferenceId)) else Ok(id)
  }

  /** The list check of `fetchWebClientClients`: `data?.clients` must be a non-empty array. */
  function ClientList(data: JsValue): (r: Result<JsValue, JsValue>)
    ensures r.Ok? <==> Prop(data, "clients").Arr? && |Prop(data, "clients").elems| > 0
    ensures r.Ok? ==> r.value == Prop(data, "clients")
    ensures r.Err? ==> r.error == ErrorObject(NoClientList)
  {
    var clients := Prop(data, "clients");
    if !clients.Arr? || |clients.elems| == 0 then Err(ErrorObject(NoClientList)) else Ok(clients)
  }

  /** `createTrueConfClient()`: validate the environment, then obtain a token. */
  function CreateTrueConfClient(env: map<string, string>, answer: Call -> Result<JsValue, JsValue>): (r: Step<Api>)
    ensures r.calls == [] <==> Server.AssertEnvConfig(env).Some?
    ensures Server.AssertEnvConfig(env).Some? ==> r.result == Err(ErrorObject(Server.AssertEnvConfig(env).value))
    ensures Server.AssertEnvConfig(env).None? ==> r.calls == [TokenCall(env)]
    ensures r.result.Ok? ==> (r.calls != [] && answer(r.calls[0]).Ok? && AccessToken(answer(r.calls[0]).value).Ok?
      && r.result.value == Api(ServerBase(env), AccessToken(answer(r.calls[0]).value).value))
    ensures r.result.Err? && r.calls != [] ==> Raised(r.calls, r.result.error, answer)
    ensures Server.AssertEnvConfig(env).None? && answer(TokenCall(env)).Err? ==>
      r.result == Err(answer(TokenCall(env)).error)
    ensures Server.AssertEnvConfig(env).None? && answer(TokenCall(env)).Ok? ==>
      var token := AccessToken(answer(TokenCall(env)).value);
      && (token.Err? ==> r.result == Err(ErrorObject(NoAccessToken)))
      && (token.Ok? ==> r.result == Ok(Api(TokenCall(env).server, token.value)))
  {
    match Server.AssertEnvConfig(env)
    case Some(missing) => Step([], Err(ErrorObject(missing)))
    case None =>
      var call := TokenCall(env);
      match answer(call)
      case Err(e) => Step([call], Err(e))
      case Ok(data) =>
        match AccessToken(data)
        case Err(e) => Step([call], Err(e))
        case Ok(token) => Step([call], Ok(Api(ServerBase(env), token)))
  }

  /** `createConferenceLifecycle(api, payload)`: create, then run and re-read the conference. */
  function CreateConferenceLifecycle(api: Api, payload: JsValue, answer: Call -> Result<JsValue, JsValue>): (r: Step<JsValue>)
    ensures 1 <= |r.calls| <= 3 && r.calls[0] == ApiCall(api, CreateConference(payload))
    ensures r.result.Ok? ==> (Truthy(r.result.value)
      && r.calls == [ApiCall(api, CreateConference(payload)), ApiCall(api, RunConference(r.result.value)),
                     ApiCall(api, RefreshConference(r.result.value))])
    ensures r.result.Ok? ==> answer(r.calls[0]).Ok? && ConferenceId(answer(r.calls[0]).value) == r.result
    ensures r.result.Err? ==> Raised(r.calls, r.result.error, answer)
    ensures Authorized(r.calls, api)
    ensures var create := ApiCall(api, CreateConference(payload));
      answer(create).Err? ==> r == Step([create], Err(answer(create).error))
    ensures var create := ApiCall(api, CreateConference(payload));
      answer(create).Ok? && ConferenceId(answer(create).value).Err? ==> r == Step([create], Err(ErrorObject(NoConferenceId)))
    ensures var create := ApiCall(api, CreateConference(payload));
      answer(create).Ok? && ConferenceId(answer(create).value).Ok? ==>
        var id := ConferenceId(answer(create).value).value;
        var run := ApiCall(api, RunConference(id));
        var refresh := ApiCall(api, RefreshConference(id));
        && (answer(run).Err? ==> r == Step([create, run], Err(answer(run).error)))
        && (answer(run).Ok? && answer(refresh).Err? ==> r == Step([create, run, refresh], Err(answer(refresh).error)))
        && (answer(run).Ok? && answer(refresh).Ok? ==> r == Step([create, run, refresh], Ok(id)))
  {
    var create := ApiCall(api, CreateConference(payload));
    match answer(create)
    case Err(e) => Step([create], Err(e))
    case Ok(data) =>
      match ConferenceId(data)
      case Err(e) => Step([create], Err(e))
      case Ok(id) =>
        var run := ApiCall(api, RunConference(id));
        match answer(run)
        case Err(e) => Step([create, run], Err(e))
        case Ok(_) =>
          var refresh := ApiCall(api, RefreshConference(id));
          match answer(refresh)
          case Err(e) => Step([create, run, refresh], Err(e))
          case Ok(_) => Step([create, run, refresh], Ok(id))
  }

  /** `fetchWebClientClients(api, id, name)`: one request, whose `user` value is `2$<slug>*<name>`. */
  function FetchWebClientClients(api: Api, id: JsValue, name: JsValue, transliterate: JsValue -> string,
                                 answer: Call -> Result<JsValue, JsValue>): (r: Step<JsValue>)
    ensures r.calls == [ApiCall(api, ClientsRequest(id, Server.UserQueryValue(name, transliterate)))]
    ensures r.result.Ok? ==> r.result.value.Arr? && |r.result.value.elems| > 0
    ensures r.result.Err? ==> Raised(r.calls, r.result.error, answer)
    ensures Authorized(r.calls, api)
    ensures answer(r.calls[0]).Err? ==> r.result == Err(answer(r.calls[0]).error)
    ensures answer(r.calls[0]).Ok? ==> r.result == ClientList(answer(r.calls[0]).value)
  {
    var call := ApiCall(api, ClientsRequest(id, Server.UserQueryValue(name, transliterate)));
    match answer(call)
    case Err(e) => Step([call], Err(e))
    case Ok(data) => Step([call], ClientList(data))
  }

  /**
   * A failed step ended either with the rejection of its last request or with
   * an error the server raised itself, which has no `response`.
   */
  predicate Raised(calls: seq<Call>, error: JsValue, answer: Call -> Result<JsValue, JsValue>) {
    || (calls != [] && answer(calls[|calls| - 1]) == Err(error))
    || Prop(error, "response") == Undefined
  }

  /** The body of a successful answer: `{ clients, conferenceId }`. */
  function ClientsAndId(clients: JsValue, id: JsValue): JsValue {
    Obj(map["clients" := clients, "conferenceId" := id])
  }

  /**
   * What `generateConferenceClients` does once it holds a client: create and
   * start the conference, infer the display name, fetch the client list.
   */
  function ConferenceWithClients(api: Api, payload: JsValue, transliterate: JsValue -> string,
                                 answer: Call -> Result<JsValue, JsValue>): (r: Step<JsValue>)
    ensures 1 <= |r.calls| <= 4 && Authorized(r.calls, api)
    ensures r.result.Ok? ==> |r.calls| == 4 && r.result.value.Obj?
    ensures r.result.Err? ==> Raised(r.calls, r.result.error, answer)
    ensures var lifecycle := CreateConferenceLifecycle(api, payload, answer);
      lifecycle.result.Err? ==> r == lifecycle
    ensures var lifecycle := CreateConferenceLifecycle(api, payload, answer);
      lifecycle.result.Ok? && Server.InferDisplayName(payload).Err? ==>
        r == Step(lifecycle.calls, Err(Server.InferDisplayName(payload).error))
    ensures var lifecycle := CreateConferenceLifecycle(api, payload, answer);
      lifecycle.result.Ok? && Server.InferDisplayName(payload).Ok? ==>
        var fetch := FetchWebClientClients(api, lifecycle.result.value, Server.InferDisplayName(payload).value,
                                           transliterate, answer);
        && r.calls == lifecycle.calls + fetch.calls
        && (fetch.result.Err? ==> r.result == Err(fetch.result.error))
        && (fetch.result.Ok? ==> r.result == Ok(ClientsAndId(fetch.result.value, lifecycle.result.value)))
  {
    var lifecycle := CreateConferenceLifecycle(api, payload, answer);
    match lifecycle.result
    case Err(e) => lifecycle
    case Ok(id) =>
      match Server.InferDisplayName(payload)
      case Err(e) => Step(lifecycle.calls, Err(e))
      case Ok(name) =>
        var fetch := FetchWebClientClients(api, id, name, transliterate, answer);
        var calls := lifecycle.calls + fetch.calls;
        match fetch.result
        case Err(e) => Step(calls, Err(e))
        case Ok(clients) => Step(calls, Ok(ClientsAndId(clients, id)))
  }

  /**
   * `generateConferenceClients(payload)`: client, conference, display name,
   * client list, in that order; the first failure ends the flow.
   */
  function GenerateConferenceClients(payload: JsValue, env: map<string, string>, transliterate: JsValue -> string,
                                     answer: Call -> Result<JsValue, JsValue>): (r: Step<JsValue>)
    ensures |r.calls| <= 5
    ensures r.calls == [] <==> Server.AssertEnvConfig(env).Some?
    ensures r.calls != [] ==> r.calls[0] == TokenCall(env)
    ensures r.result.Ok? ==> |r.calls| == 5
    ensures r.result.Err? && r.calls != [] ==> Raised(r.calls, r.result.error, answer)
    ensures var client := CreateTrueConfClient(env, answer);
      client.result.Err? ==> r == Step(client.calls, Err(client.result.error))
    ensures var client := CreateTrueConfClient(env, answer);
      client.result.Ok? ==>
        var rest := ConferenceWithClients(client.result.value, payload, transliterate, answer);
        r == Step(client.calls + rest.calls, rest.result)
  {
    var client := CreateTrueConfClient(env, answer);
    match client.result
    case Err(e) => Step(client.calls, Err(e))
    case Ok(api) =>
      var rest := ConferenceWithClients(api, payload, transliterate, answer);
      Step(client.calls + rest.calls, rest.result)
  }

  /** Every request after the token request goes to the configured server with the token that request returned. */
  lemma ApiCallsCarryToken(payload: JsValue, env: map<string, string>, transliterate: JsValue -> string,
                           answer: Call -> Result<JsValue, JsValue>)
    requires |GenerateConferenceClients(payload, env, transliterate, answer).calls| > 1
    ensures Server.AssertEnvConfig(env).None? && answer(TokenCall(env)).Ok?
    ensures Truthy(Prop(answer(TokenCall(env)).value, "access_token"))
    ensures Authorized(GenerateConferenceClients(payload, env, transliterate, answer).calls[1..],
                       Api(ServerBase(env), JsToString(Prop(answer(TokenCall(env)).value, "access_token"))))
  {
    var client := CreateTrueConfClient(env, answer);
    assert client.result.Ok?;
    var rest := ConferenceWithClients(client.result.value, payload, transliterate, answer);
    assert GenerateConferenceClients(payload, env, transliterate, answer).calls[1..] == rest.calls;
  }

  /**
   * A flow that holds a client and succeeds sends exactly four requests with
   * it: creation, run and re-read of one conference, and the client list for
   * that conference with the `user` value of the inferred display name. It
   * answers with the non-empty list and the conference id.
   */
  lemma SuccessfulFlow(api: Api, payload: JsValue, transliterate: JsValue -> string,
                       answer: Call -> Result<JsValue, JsValue>)
    requires ConferenceWithClients(api, payload, transliterate, answer).result.Ok?
    ensures var created := answer(ApiCall(api, CreateConference(payload)));
      && created.Ok? && ConferenceId(created.value).Ok?
      && Server.InferDisplayName(payload).Ok?
      && var id := ConferenceId(created.value).value;
      var clientsCall := ApiCall(api, ClientsRequest(id, Server.UserQueryValue(Server.InferDisplayName(payload).value, transliterate)));
      var r := ConferenceWithClients(api, payload, transliterate, answer);
      && r.calls == [ApiCall(api, CreateConference(payload)), ApiCall(api, RunConference(id)),
                     ApiCall(api, RefreshConference(id)), clientsCall]
      && answer(clientsCall).Ok?
      && r.result.value == ClientsAndId(Prop(answer(clientsCall).value, "clients"), id)
      && |Prop(answer(clientsCall).value, "clients").elems| > 0
  {
    var created := answer(ApiCall(api, CreateConference(payload)));
    assert created.Ok?;
    assert ConferenceId(created.value).Ok?;
  }

  /**
   * A payload whose display name cannot be inferred (an `invitations` value
   * that is neither an array nor nullish, with no topic) fails only after the
   * conference has been created and started: it is left running upstream.
   */
  lemma NameFailureLeavesConferenceRunning(api: Api, payload: JsValue, transliterate: JsValue -> string,
                                           answer: Call -> Result<JsValue, JsValue>)
    requires Server.InferDisplayName(payload).Err?
    requires CreateConferenceLifecycle(api, payload, answer).result.Ok?
    ensures var r := ConferenceWithClients(api, payload, transliterate, answer);
      var id := CreateConferenceLifecycle(api, payload, answer).result.value;
      && r.result == Err(ErrorObject(Server.FindNotAFunction))
      && |r.calls| == 3 && r.calls[1] == ApiCall(api, RunConference(id))
  {
  }

  // ---------------------------------------------------------------------------
  // The route

  /** What the route sends back; `NoResponse` when the handler itself throws. */
  datatype HttpResponse = Response(status: JsValue, body: JsValue) | NoResponse

  const BadRequestMessage := "Provide a conference object"
  const FallbackErrorMessage := "TrueConf API Error"

  function MessageBody(message: JsValue): JsValue {
    Obj(map["message" := message])
  }

  /**
   * The `catch` of the route: the upstream status if truthy, else 500; the
   * first truthy of `error_description`, `data.message` and `error.message`,
   * else `TrueConf API Error`. Reading `error.response` of a null or undefined
   * error throws, and no response is sent.
   */
  function ErrorResponse(error: JsValue): (r: HttpResponse)
    ensures r.NoResponse? <==> IsNullish(error)
    ensures r.Response? ==> (Truthy(r.status) && r.body.Obj? && r.body.fields.Keys == {"message"}
      && Truthy(r.body.fields["message"]))
    ensures r.Response? && Truthy(Prop(Prop(error, "response"), "status")) ==> r.status == Prop(Prop(error, "response"), "status")
    ensures r.Response? && !Truthy(Prop(Prop(error, "response"), "status")) ==> r.status == Num(500)
  {
    if IsNullish(error) then NoResponse
    else
      var response := Prop(error, "response");
      var data := Prop(response, "data");
      var status := Or([Prop(response, "status")], Num(500));
      var message := Or([Prop(data, "error_description"), Prop(data, "message"), Prop(error, "message")],
                        Str(FallbackErrorMessage));
      Response(status, MessageBody(message))
  }

  /** An error thrown by the server itself (no `response`) becomes a 500 carrying its message. */
  lemma OwnErrorResponse(message: string)
    requires message != ""
    ensures ErrorResponse(ErrorObject(message)) == Response(Num(500), MessageBody(Str(message)))
  {
    var error := ErrorObject(message);
    var response := Prop(error, "response");
    var data := Prop(response, "data");
    assert response == Undefined && data == Undefined;
    var statuses := [Prop(response, "status")];
    assert statuses[0] == Undefined;
    var vs := [Prop(data, "error_description"), Prop(data, "message"), Prop(error, "message")];
    assert vs[0] == Undefined && vs[1] == Undefined && vs[2] == Str(message);
  }

  /** The message is the first truthy of the four candidates, in the order the handler lists them. */
  lemma ErrorMessagePriority(error: JsValue)
    requires !IsNullish(error)
    ensures var data := Prop(Prop(error, "response"), "data");
      var m := ErrorResponse(error).body.fields["message"];
      && (Truthy(Prop(data, "error_description")) ==> m == Prop(data, "error_description"))
      && (!Truthy(Prop(data, "error_description")) && Truthy(Prop(data, "message")) ==> m == Prop(data, "message"))
      && (!Truthy(Prop(data, "error_description")) && !Truthy(Prop(data, "message")) && Truthy(Prop(error, "message")) ==>
            m == Prop(error, "message"))
      && (!Truthy(Prop(data, "error_description")) && !Truthy(Prop(data, "message")) && !Truthy(Prop(error, "message")) ==>
            m == Str(FallbackErrorMessage))
  {
    var data := Prop(Prop(error, "response"), "data");
    var vs := [Prop(data, "error_description"), Prop(data, "message"), Prop(error, "message")];
    assert vs[0] == Prop(data, "error_description") && vs[1] == Prop(data, "message") && vs[2] == Prop(error, "message");
  }

  /** The route's answer and the requests it sent upstream. */
  datatype Exchange = Exchange(calls: seq<Call>, response: HttpResponse)

  /** `POST /api/conference` with JSON body `body`. */
  function HandleConferencePost(body: JsValue, env: map<string, string>, transliterate: JsValue -> string,
                                answer: Call -> Result<JsValue, JsValue>): (x: Exchange)
    ensures var conference := Prop(body, "conference");
      !Truthy(conference) || !IsObject(conference) <==>
        x == Exchange([], Response(Num(400), MessageBody(Str(BadRequestMessage))))
    ensures var conference := Prop(body, "conference");
      Truthy(conference) && IsObject(conference) ==>
        var flow := GenerateConferenceClients(conference, env, transliterate, answer);
        && x.calls == flow.calls
        && (flow.result.Ok? ==> x.response == Response(Num(200), flow.result.value))
        && (flow.result.Err? ==> x.response == ErrorResponse(flow.result.error))
  {
    var conference := Prop(body, "conference");
    if !Truthy(conference) || !IsObject(conference) then
      Exchange([], Response(Num(400), MessageBody(Str(BadRequestMessage))))
    else
      var flow := GenerateConferenceClients(conference, env, transliterate, answer);
      match flow.result
      case Ok(v) => Exchange(flow.calls, Response(Num(200), v))
      case Err(e) => Exchange(flow.calls, ErrorResponse(e))
  }

  /** A server missing required variables answers 500 naming them, without calling TrueConf Server. */
  lemma MissingConfigurationResponse(body: JsValue, env: map<string, string>, transliterate: JsValue -> string,
                                     answer: Call -> Result<JsValue, JsValue>)
    requires Truthy(Prop(body, "conference")) && IsObject(Prop(body, "conference"))
    requires Server.AssertEnvConfig(env).Some?
    ensures HandleConferencePost(body, env, transliterate, answer)
      == Exchange([], Response(Num(500), MessageBody(Str(Server.AssertEnvConfig(env).value))))
  {
    OwnErrorResponse(Server.AssertEnvConfig(env).value);
  }

  /**
   * TrueConf Server answers well once the client holds a token: the conference
   * is created with a truthy id, started and re-read, and the client list for
   * the display name is a non-empty array.
   */
  predicate GoodConferenceAnswers(api: Api, payload: JsValue, transliterate: JsValue -> string,
                                  answer: Call -> Result<JsValue, JsValue>, id: JsValue, name: JsValue, clients: JsValue)
  {
    var create := ApiCall(api, CreateConference(payload));
    var list := ApiCall(api, ClientsRequest(id, Server.UserQueryValue(name, transliterate)));
    && answer(create).Ok? && ConferenceId(answer(create).value) == Ok(id)
    && answer(ApiCall(api, RunConference(id))).Ok? && answer(ApiCall(api, RefreshConference(id))).Ok?
    && answer(list).Ok? && ClientList(answer(list).value) == Ok(clients)
  }

  /** The four requests of a conference that goes well, in order. */
  function GoodConferenceCalls(api: Api, payload: JsValue, transliterate: JsValue -> string, id: JsValue, name: JsValue): seq<Call> {
    [ApiCall(api, CreateConference(payload)), ApiCall(api, RunConference(id)), ApiCall(api, RefreshConference(id)),
     ApiCall(api, ClientsRequest(id, Server.UserQueryValue(name, transliterate)))]
  }

  /** A truthy token in the answer to the token request gives the client that carries it. */
  lemma GoodClient(env: map<string, string>, answer: Call -> Result<JsValue, JsValue>, api: Api)
    requires Server.AssertEnvConfig(env).None?
    requires answer(TokenCall(env)).Ok? && AccessToken(answer(TokenCall(env)).value) == Ok(api.bearer)
    requires api.server == TokenCall(env).server
    ensures CreateTrueConfClient(env, answer) == Step([TokenCall(env)], Ok(api))
  {
  }

  /** Good answers to creation, run and re-read start the conference and give back its id. */
  lemma GoodLifecycle(api: Api, payload: JsValue, answer: Call -> Result<JsValue, JsValue>, id: JsValue)
    requires answer(ApiCall(api, CreateConference(payload))).Ok?
    requires ConferenceId(answer(ApiCall(api, CreateConference(payload))).value) == Ok(id)
    requires answer(ApiCall(api, RunConference(id))).Ok? && answer(ApiCall(api, RefreshConference(id))).Ok?
    ensures CreateConferenceLifecycle(api, payload, answer)
      == Step([ApiCall(api, CreateConference(payload)), ApiCall(api, RunConference(id)),
               ApiCall(api, RefreshConference(id))], Ok(id))
  {
  }

  /**
   * With a client in hand, good answers and an inferable display name give
   * the four requests and `{ clients, conferenceId }`.
   */
  lemma GoodConferenceWithClients(api: Api, payload: JsValue, transliterate: JsValue -> string,
                                  answer: Call -> Result<JsValue, JsValue>, id: JsValue, name: JsValue, clients: JsValue)
    requires GoodConferenceAnswers(api, payload, transliterate, answer, id, name, clients)
    requires Server.InferDisplayName(payload) == Ok(name)
    ensures ConferenceWithClients(api, payload, transliterate, answer)
      == Step(GoodConferenceCalls(api, payload, transliterate, id, name), Ok(ClientsAndId(clients, id)))
  {
    GoodLifecycle(api, payload, answer, id);
    var fetch := FetchWebClientClients(api, id, name, transliterate, answer);
    assert fetch.result == Ok(clients);
  }

  /**
   * When every upstream answer is good (a truthy token, a truthy conference
   * id, a started and re-read conference, a non-empty client list) and the
   * display name can be inferred, the route sends exactly the five requests
   * and answers 200 with `{ clients, conferenceId }`.
   */
  lemma GoodAnswersSucceed(body: JsValue, env: map<string, string>, transliterate: JsValue -> string,
                           answer: Call -> Result<JsValue, JsValue>,
                           api: Api, id: JsValue, name: JsValue, clients: JsValue)
    requires Truthy(Prop(body, "conference")) && IsObject(Prop(body, "conference"))
    requires Server.AssertEnvConfig(env).None?
    requires answer(TokenCall(env)).Ok? && AccessToken(answer(TokenCall(env)).value) == Ok(api.bearer)
    requires api.server == TokenCall(env).server
    requires GoodConferenceAnswers(api, Prop(body, "conference"), transliterate, answer, id, name, clients)
    requires Server.InferDisplayName(Prop(body, "conference")) == Ok(name)
    ensures HandleConferencePost(body, env, transliterate, answer)
      == Exchange([TokenCall(env)] + GoodConferenceCalls(api, Prop(body, "conference"), transliterate, id, name),
                  Response(Num(200), ClientsAndId(clients, id)))
  {
    var conference := Prop(body, "conference");
    GoodClient(env, answer, api);
    GoodConferenceWithClients(api, conference, transliterate, answer, id, name, clients);
    assert GenerateConferenceClients(conference, env, transliterate, answer)
      == Step([TokenCall(env)] + GoodConferenceCalls(api, conference, transliterate, id, name), Ok(ClientsAndId(clients, id)));
  }

  /**
   * Status 200 is sent exactly when the flow succeeded, as long as no upstream
   * rejection carries status 200 itself.
   */
  lemma OkExactlyOnSuccess(body: JsValue, env: map<string, string>, transliterate: JsValue -> string,
                           answer: Call -> Result<JsValue, JsValue>)
    requires Truthy(Prop(body, "conference")) && IsObject(Prop(body, "conference"))
    requires forall c :: answer(c).Err? ==> Prop(Prop(answer(c).error, "response"), "status") != Num(200)
    ensures var x := HandleConferencePost(body, env, transliterate, answer);
      (x.response.Response? && x.response.status == Num(200))
        <==> GenerateConferenceClients(Prop(body, "conference"), env, transliterate, answer).result.Ok?
  {
    var flow := GenerateConferenceClients(Prop(body, "conference"), env, transliterate, answer);
    if flow.result.Err? && flow.calls != [] && answer(flow.calls[|flow.calls| - 1]) == Err(flow.result.error) {
      assert Prop(Prop(flow.result.error, "response"), "status") != Num(200);
    }
  }
}
