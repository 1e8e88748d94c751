/**
 * `exports.handler`: answers a CORS pre-flight, rejects a missing or unknown action,
 * dispatches `add_user` and `get_user`, and turns every outcome, thrown errors included,
 * into a status code and a `{ success, data | error }` body.
 */
module Handler {
  import opened Wrappers
  import opened JsString
  import opened UserIds
  import opened EmailFormat
  import opened Users
  import opened UserStore
  import opened UserService

  const PreflightMessage := "CORS preflight"
  const ActionRequired := "Action is required"
  const UnknownActionPrefix := "Unknown action: "
  const InternalServerError := "Internal server error"

  /** The invocation event, with its body already parsed: `httpMethod` and the fields `action`, `data`, `userId`. */
  datatype Request = Request(
    httpMethod: Option<string>,
    action: Option<string>,
    data: Option<UserData>,
    userId: Option<string>)

  /** The parsed response body: `{ message }`, `{ success: true, data }` or `{ success: false, error }`. */
  datatype Body = Message(message: string) | Success(data: Option<User>) | Failure(error: string)

  datatype Response = Response(statusCode: int, body: Body)

  predicate IsPreflight(req: Request) {
    req.httpMethod == Some("OPTIONS")
  }

  /** The request reaches `add_user` or `get_user`. */
  predicate IsDispatched(req: Request) {
    && !IsPreflight(req)
    && Truthy(req.action)
    && (req.action.value == "add_user" || req.action.value == "get_user")
  }

  /** The called operation, its value seen as "a user or `null`". */
  function Dispatch(items: map<string, User>, req: Request, env: Env): Effect<Result<Option<User>>>
    requires IsDispatched(req)
  {
    if req.action.value == "add_user" then
      var e := AddUserSpec(items, req.data, env);
      Effect(if e.value.Ok? then Ok(Some(e.value.value)) else Err(e.value.message), e.sent, e.items)
    else
      GetUserSpec(items, req.userId, env)
  }

  /** The `catch` block's `error.message || 'Internal server error'`. */
  function ErrorText(message: string): string {
    if message != "" then message else InternalServerError
  }

  /** The response for the outcome of a dispatched call. */
  function Reply(r: Result<Option<User>>): Response {
    match r
    case Ok(v) => Response(200, Success(v))
    case Err(m) => Response(500, Failure(ErrorText(m)))
  }

  /** The handler run against `items`. */
  function HandleSpec(items: map<string, User>, req: Request, env: Env): (e: Effect<Response>)
    ensures e.value.statusCode in {200, 400, 500}
    ensures IsPreflight(req) ==> e == Effect(Response(200, Message(PreflightMessage)), [], items)
    ensures !IsPreflight(req) && !Truthy(req.action) ==>
              e == Effect(Response(400, Failure(ActionRequired)), [], items)
    ensures !IsPreflight(req) && Truthy(req.action) && !IsDispatched(req) ==>
              e == Effect(Response(400, Failure(UnknownActionPrefix + req.action.value)), [], items)
    ensures IsDispatched(req) ==>
              var d := Dispatch(items, req, env);
              && e.sent == d.sent && e.items == d.items
              && (e.value.statusCode == 200 <==> d.value.Ok?)
              && (d.value.Ok? ==> e.value.body == Success(d.value.value))
              && (d.value.Err? ==> e.value == Response(500, Failure(ErrorText(d.value.message))))
    ensures e.value.statusCode == 400 ==> !IsDispatched(req) && e.sent == []
    ensures e.value.body.Failure? ==> e.value.body.error != "" && e.items == items
  {
    if IsPreflight(req) then Effect(Response(200, Message(PreflightMessage)), [], items)
    else if !Truthy(req.action) then Effect(Response(400, Failure(ActionRequired)), [], items)
    else if !IsDispatched(req) then
      Effect(Response(400, Failure(UnknownActionPrefix + req.action.value)), [], items)
    else
      var d := Dispatch(items, req, env);
      Effect(Reply(d.value), d.sent, d.items)
  }

  /** `exports.handler(event)` against the table. */
  method Handle(table: UserTable, req: Request, env: Env) returns (resp: Response)
    requires table.Valid()
    modifies table
    ensures table.Valid()
    ensures var e := HandleSpec(old(table.items), req, env);
              resp == e.value && table.items == e.items && table.requests == old(table.requests) + e.sent
  {
    if IsPreflight(req) {
      return Response(200, Message(PreflightMessage));
    }
    if !Truthy(req.action) {
      return Response(400, Failure(ActionRequired));
    }
    var result: Result<Option<User>>;
    if req.action.value == "add_user" {
      var added := AddUser(table, req.data, env);
      result := if added.Ok? then Ok(Some(added.value)) else Err(added.message);
    } else if req.action.value == "get_user" {
      result := GetUser(table, req.userId, env);
    } else {
      return Response(400, Failure(UnknownActionPrefix + req.action.value));
    }
    resp := Reply(result);
  }

  /** Input that fails validation is thrown inside the `try` and therefore answered with 500, not 400. */
  lemma ValidationErrorIsServerError(items: map<string, User>, req: Request, env: Env)
    requires !IsPreflight(req) && req.action == Some("add_user") && !HasNameAndEmail(req.data)
    ensures HandleSpec(items, req, env) == Effect(Response(500, Failure(NameAndEmailRequired)), [], items)
  {
    AddUserRequiresNameAndEmail(items, req.data, env);
  }

  /** A successful `add_user` call is answered with 200 and the new record, whatever the other fields of the request. */
  lemma AddUserAnswersWithRecord(items: map<string, User>, req: Request, env: Env)
    requires !IsPreflight(req) && req.action == Some("add_user")
    requires AddUserSpec(items, req.data, env).value.Ok?
    ensures HandleSpec(items, req, env).value
            == Response(200, Success(Some(AddUserSpec(items, req.data, env).value.value)))
  {
  }

  /**
   * A `get_user` request with a non-empty id and a table that answers: 200 with the stored
   * record, or with `null` when there is none, whatever the other fields of the request.
   */
  lemma GetUserRequestAnswers(items: map<string, User>, req: Request, env: Env)
    requires !IsPreflight(req) && req.action == Some("get_user") && Truthy(req.userId)
    requires env.getFailure.None?
    ensures var e := HandleSpec(items, req, env);
      && e.value.statusCode == 200
      && e.value.body == Success(if req.userId.value in items then Some(items[req.userId.value]) else None)
      && e.sent == [GetItem(DefaultTableName, IdKey(req.userId.value))]
      && e.items == items
  {
  }

  /**
   * An `add_user` request whose data passes validation, against a table that has neither
   * the normalised email nor the new id and that answers both requests: 200, a success
   * body, and a record whose id has the generated shape and whose email is the normalised
   * input, whatever the other fields of the request.
   */
  lemma AddUserRequestSucceeds(items: map<string, User>, req: Request, env: Env)
    requires !IsPreflight(req) && req.action == Some("add_user")
    requires PassesValidation(req.data) && env.getFailure.None? && env.putFailure.None?
    requires !EmailTaken(items, LookupKey(req.data)) && NewId(env) !in items
    ensures var resp := HandleSpec(items, req, env).value;
      && resp.statusCode == 200
      && resp.body.Success? && resp.body.data.Some?
      && MatchesIdPattern(resp.body.data.value.id)
      && resp.body.data.value.email == NormalizeEmail(req.data.value.email.value)
  {
    AddUserSucceedsIff(items, req.data, env);
    AddUserRecord(items, req.data, env);
  }

  const ExampleEmail := "macron.macaron@brigitte.com"

  /**
   * `{ action: "add_user", data: { name: "Macron", email: "macron.macaron@brigitte.com" } }`
   * against a table that has neither that email nor the new id: 200, a success body, and a
   * record whose id has the generated shape and whose email is the input.
   */
  lemma ExampleAddUserRequestSucceeds(items: map<string, User>, env: Env)
    requires env.getFailure.None? && env.putFailure.None?
    requires !EmailTaken(items, ExampleEmail) && NewId(env) !in items
    ensures var resp := HandleSpec(items, Request(None, Some("add_user"),
                          Some(UserData(Some("Macron"), Some(ExampleEmail), None)), None), env).value;
      && resp.statusCode == 200
      && resp.body.Success? && resp.body.data.Some?
      && MatchesIdPattern(resp.body.data.value.id)
      && resp.body.data.value.email == ExampleEmail
  {
    var data := Some(UserData(Some("Macron"), Some(ExampleEmail), None));
    ExampleEmailIsValid();
    assert LookupKey(data) == ExampleEmail;
    AddUserRequestSucceeds(items, Request(None, Some("add_user"), data, None), env);
  }

  lemma ExampleEmailIsValid()
    ensures IsEmail(ExampleEmail) && NormalizeEmail(ExampleEmail) == ExampleEmail
  {
    ExampleEmailAccepted();
    ExampleEmailLowerCase();
    NormalizeValidEmail(ExampleEmail);
  }

  lemma ExampleEmailAccepted()
    ensures IsEmail(ExampleEmail)
  {
    var local, domain := "macron.macaron", "brigitte.com";
    assert ExampleEmail == local + "@" + domain;
    VisibleAsciiRunIsPlain(local);
    VisibleAsciiRunIsPlain(domain);
    assert domain[8] == '.';
    assert ExampleEmail[14] == '@' && ExampleEmail[..14] == local && ExampleEmail[15..] == domain;
  }

  lemma ExampleEmailLowerCase()
    ensures ToLower(ExampleEmail) == ExampleEmail
  {
  }
}
