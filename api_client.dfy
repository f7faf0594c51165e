/** The browser's REST client: the error normaliser handleApiError, the
    login call that stores the access token, and the wrappers around each
    endpoint. The network is an input: each wrapper receives the response the
    server would give (used only if a request is sent) and returns what it
    sent and what awaiting it produces. The stored token read by getToken()
    is the `token` parameter. */
module ApiClient {
  import opened Common

  /** The fields of a JSON error body that handleApiError looks at. A
      validation field holds a list of messages. */
  datatype ErrorFields = ErrorFields(
    detail: Option<string>,
    username: Option<seq<string>>,
    password: Option<seq<string>>,
    email: Option<seq<string>>)

  /** A response body: text that is not JSON (with the message of the
      runtime's parse error), or a JSON object, seen both through its error
      fields and as the value `value` that the caller reads. */
  datatype Body<T> = NotJson(parseError: string) | Json(fields: ErrorFields, value: T)

  datatype Response<T> = Response(status: nat, body: Body<T>)

  /** fetch's `ok`: a 2xx status. */
  predicate IsOk<T>(r: Response<T>) {
    200 <= r.status <= 299
  }

  /** What awaiting a call produces: a value, or a thrown Error's message. */
  datatype Outcome<+T> = Returned(value: T) | Threw(message: string)

  datatype Verb = Get | Post | Put | Delete

  /** The path of a request below the API base; the query text and the
      restock amount stand for the query string and the JSON body. */
  datatype Endpoint =
    | LoginPath
    | RegisterPath
    | SweetsPath
    | SearchPath(query: string)
    | SweetPath(id: int)
    | PurchasePath(id: int)
    | RestockPath(id: int, amount: int)

  datatype Request = Request(verb: Verb, endpoint: Endpoint, authorization: Option<string>)

  /** What a wrapper did: the request it sent, if any, and its outcome. */
  datatype Call<T> = Call(sent: Option<Request>, outcome: Outcome<T>)

  /** JavaScript truthiness of an optional string: present and non-empty. */
  predicate Truthy(s: Option<string>) {
    s.Some? && s.value != ""
  }

  // ---------------------------------------------------------------------
  // handleApiError
  // ---------------------------------------------------------------------

  const NonJsonPrefix := "API call failed with status "
  const NonJsonSuffix := " and returned non-JSON data. Check backend console and URL."

  /** The message thrown for a body that is not JSON. */
  function NonJsonMessage(status: nat): string {
    NonJsonPrefix + Decimal(status) + NonJsonSuffix
  }

  /** `list[0]` in JavaScript, rendered into a template literal. */
  function First(list: seq<string>): string {
    if list == [] then "undefined" else list[0]
  }

  /** handleApiError(response, defaultMessage): it always throws. A body
      that is not JSON gives a message naming the status; otherwise the first
      present of detail, username, password and email gives the message, and
      the default is used when none is present. */
  function HandleApiError<T, U>(response: Response<T>, defaultMessage: string): (r: Outcome<U>)
    ensures r.Threw?
  {
    match response.body
    case NotJson(_) => Threw(NonJsonMessage(response.status))
    case Json(f, _) =>
      if Truthy(f.detail) then Threw(f.detail.value)
      else if f.username.Some? then Threw("Username error: " + First(f.username.value))
      else if f.password.Some? then Threw("Password error: " + First(f.password.value))
      else if f.email.Some? then Threw("Email error: " + First(f.email.value))
      else Threw(defaultMessage)
  }

  /** The messages each present field would give, highest priority first. */
  function FieldMessages(f: ErrorFields): seq<string> {
    (if Truthy(f.detail) then [f.detail.value] else [])
    + (if f.username.Some? then ["Username error: " + First(f.username.value)] else [])
    + (if f.password.Some? then ["Password error: " + First(f.password.value)] else [])
    + (if f.email.Some? then ["Email error: " + First(f.email.value)] else [])
  }

  /** For a JSON body the message is the first field message in priority
      order, and the default exactly when no field is present. */
  lemma JsonErrorPicksFirstPresent<T>(status: nat, f: ErrorFields, v: T, defaultMessage: string)
    ensures FieldMessages(f) == [] <==>
      !Truthy(f.detail) && f.username.None? && f.password.None? && f.email.None?
    ensures HandleApiError<T, ()>(Response(status, Json(f, v)), defaultMessage).message ==
      if FieldMessages(f) == [] then defaultMessage else FieldMessages(f)[0]
  {
  }

  /** A truthy detail wins over every other field. */
  lemma DetailTakesPriority<T>(status: nat, detail: string, username: Option<seq<string>>,
                               password: Option<seq<string>>, email: Option<seq<string>>,
                               v: T, defaultMessage: string)
    requires detail != ""
    ensures HandleApiError<T, ()>(Response(status, Json(ErrorFields(Some(detail), username, password, email), v)),
                           defaultMessage) == Threw(detail)
  {
  }

  /** A body that is not JSON gives a message that depends on the status
      only, and different statuses give different messages. */
  lemma NonJsonMessageNamesStatus<T>(a: Response<T>, b: Response<T>, d1: string, d2: string)
    requires a.body.NotJson? && b.body.NotJson?
    ensures HandleApiError<T, ()>(a, d1) == Threw(NonJsonMessage(a.status))
    ensures a.status == b.status ==> HandleApiError<T, ()>(a, d1) == HandleApiError<T, ()>(b, d2)
    ensures NonJsonMessage(a.status) == NonJsonMessage(b.status) ==> a.status == b.status
  {
    if NonJsonMessage(a.status) == NonJsonMessage(b.status) {
      var m := NonJsonMessage(a.status);
      var p := |NonJsonPrefix|;
      assert Decimal(a.status) == m[p..|m| - |NonJsonSuffix|];
      assert Decimal(b.status) == m[p..|m| - |NonJsonSuffix|];
      DecimalInjective(a.status, b.status);
    }
  }

  // ---------------------------------------------------------------------
  // Authentication
  // ---------------------------------------------------------------------

  const LoginFailed := "Login failed. Check credentials."
  const RegistrationFailed := "Registration failed."

  /** The part of a login success body the client reads; the rest is handed
      to the caller unread. */
  datatype LoginBody = LoginBody(access: Option<string>)

  /** `await res.json()`: the parsed value, or the parse error thrown. */
  function ReadJson<T>(body: Body<T>): (r: Outcome<T>)
    ensures r.Returned? <==> body.Json?
    ensures r.Returned? ==> r.value == body.value
    ensures r.Threw? ==> r.message == body.parseError
  {
    match body
    case NotJson(e) => Threw(e)
    case Json(_, v) => Returned(v)
  }

  /** The browser's local storage, as far as the client uses it. */
  class TokenStore {
    var token: Option<string>

    constructor (stored: Option<string>)
      ensures token == stored
    {
      token := stored;
    }

    /** loginUser: POST the credentials; on success store `access` when it
        is truthy, and leave the stored token alone otherwise. */
    method LoginUser(response: Response<LoginBody>) returns (c: Call<LoginBody>)
      modifies this
      ensures c.sent == Some(Request(Post, LoginPath, None))
      ensures !IsOk(response) ==> c.outcome == HandleApiError(response, LoginFailed)
      ensures IsOk(response) ==> c.outcome == ReadJson(response.body)
      ensures token == if c.outcome.Returned? && Truthy(c.outcome.value.access)
                       then c.outcome.value.access else old(token)
    {
      var sent := Some(Request(Post, LoginPath, None));
      if !IsOk(response) {
        return Call(sent, HandleApiError(response, LoginFailed));
      }
      var json := ReadJson(response.body);
      if json.Returned? && Truthy(json.value.access) {
        token := json.value.access;
      }
      c := Call(sent, json);
    }
  }

  /** registerUser: true on any 2xx answer; the body is not read then. */
  function RegisterUser(response: Response<()>): (c: Call<bool>)
    ensures c.sent == Some(Request(Post, RegisterPath, None))
    ensures c.outcome.Returned? <==> IsOk(response)
    ensures c.outcome.Returned? ==> c.outcome.value
    ensures !IsOk(response) ==> c.outcome == HandleApiError(response, RegistrationFailed)
  {
    Call(Some(Request(Post, RegisterPath, None)),
         if !IsOk(response) then HandleApiError(response, RegistrationFailed) else Returned(true))
  }

  // ---------------------------------------------------------------------
  // Inventory wrappers
  // ---------------------------------------------------------------------

  const FetchFailed := "Failed to fetch sweets."
  const CreateFailed := "Failed to create sweet."
  const UpdateFailed := "Failed to update sweet."
  const DeleteFailed := "Failed to delete sweet."
  const SearchFailed := "Failed to perform search."
  const PurchaseFailed := "Purchase failed. Sweet may be out of stock or ID is invalid."
  const RestockFailed := "Restock failed."
  const TokenMissingLogIn := "Authentication token missing. Please log in."
  const TokenMissing := "Authentication token missing."

  /** The Authorization header; a missing token is rendered as "null". */
  function Bearer(token: Option<string>): string {
    "Bearer " + if token.Some? then token.value else "null"
  }

  /** The common tail of a wrapper that reads the JSON answer. */
  function Finish<T>(request: Request, response: Response<T>, defaultMessage: string): (c: Call<T>)
    ensures c.sent == Some(request)
    ensures !IsOk(response) ==> c.outcome == HandleApiError(response, defaultMessage)
    ensures c.outcome.Returned? <==> IsOk(response) && response.body.Json?
    ensures c.outcome.Returned? ==> c.outcome.value == response.body.value
    ensures IsOk(response) && response.body.NotJson? ==> c.outcome == Threw(response.body.parseError)
  {
    Call(Some(request), if !IsOk(response) then HandleApiError(response, defaultMessage) else ReadJson(response.body))
  }

  /** getSweets: no token check; the header carries whatever is stored. */
  function GetSweets<T>(token: Option<string>, response: Response<T>): (c: Call<T>)
    ensures c.sent == Some(Request(Get, SweetsPath, Some(Bearer(token))))
    ensures !IsOk(response) ==> c.outcome == HandleApiError(response, FetchFailed)
    ensures c.outcome.Returned? <==> IsOk(response) && response.body.Json?
    ensures c.outcome.Returned? ==> c.outcome.value == response.body.value
  {
    Finish(Request(Get, SweetsPath, Some(Bearer(token))), response, FetchFailed)
  }

  /** searchSweets: no token check. */
  function SearchSweets<T>(token: Option<string>, query: string, response: Response<T>): (c: Call<T>)
    ensures c.sent == Some(Request(Get, SearchPath(query), Some(Bearer(token))))
    ensures !IsOk(response) ==> c.outcome == HandleApiError(response, SearchFailed)
    ensures c.outcome.Returned? <==> IsOk(response) && response.body.Json?
    ensures c.outcome.Returned? ==> c.outcome.value == response.body.value
  {
    Finish(Request(Get, SearchPath(query), Some(Bearer(token))), response, SearchFailed)
  }

  /** createSweet: refuses without a token, else POSTs the new sweet. */
  function CreateSweet<T>(token: Option<string>, response: Response<T>): (c: Call<T>)
    ensures c.sent.None? <==> !Truthy(token)
    ensures !Truthy(token) ==> c.outcome == Threw(TokenMissingLogIn)
    ensures Truthy(token) && !IsOk(response) ==> c.outcome == HandleApiError(response, CreateFailed)
    ensures c.outcome.Returned? <==> Truthy(token) && IsOk(response) && response.body.Json?
    ensures c.outcome.Returned? ==> c.outcome.value == response.body.value
  {
    if !Truthy(token) then Call(None, Threw(TokenMissingLogIn))
    else Finish(Request(Post, SweetsPath, Some(Bearer(token))), response, CreateFailed)
  }

  /** updateSweet: refuses without a token, else PUTs the sweet. */
  function UpdateSweet<T>(token: Option<string>, id: int, response: Response<T>): (c: Call<T>)
    ensures c.sent.None? <==> !Truthy(token)
    ensures !Truthy(token) ==> c.outcome == Threw(TokenMissingLogIn)
    ensures Truthy(token) && !IsOk(response) ==> c.outcome == HandleApiError(response, UpdateFailed)
    ensures c.outcome.Returned? <==> Truthy(token) && IsOk(response) && response.body.Json?
    ensures c.outcome.Returned? ==> c.outcome.value == response.body.value
  {
    if !Truthy(token) then Call(None, Threw(TokenMissingLogIn))
    else Finish(Request(Put, SweetPath(id), Some(Bearer(token))), response, UpdateFailed)
  }

  /** deleteSweet: true on 204; an error on any other non-2xx status; and
      `undefined` (None here) on another 2xx status. */
  function DeleteSweet(token: Option<string>, id: int, response: Response<()>): (c: Call<Option<bool>>)
    ensures c.sent.None? <==> !Truthy(token)
    ensures !Truthy(token) ==> c.outcome == Threw(TokenMissingLogIn)
    ensures Truthy(token) && response.status == 204 ==> c.outcome == Returned(Some(true))
    ensures Truthy(token) && !IsOk(response) ==> c.outcome == HandleApiError(response, DeleteFailed)
    ensures Truthy(token) && IsOk(response) && response.status != 204 ==> c.outcome == Returned(None)
  {
    if !Truthy(token) then Call(None, Threw(TokenMissingLogIn))
    else
      var sent := Some(Request(Delete, SweetPath(id), Some(Bearer(token))));
      if response.status == 204 then Call(sent, Returned(Some(true)))
      else if !IsOk(response) then Call(sent, HandleApiError(response, DeleteFailed))
      else Call(sent, Returned(None))
  }

  /** purchaseSweet: true on any 2xx answer; the body is not read then. */
  function PurchaseSweet(token: Option<string>, id: int, response: Response<()>): (c: Call<bool>)
    ensures c.sent.None? <==> !Truthy(token)
    ensures !Truthy(token) ==> c.outcome == Threw(TokenMissing)
    ensures Truthy(token) && !IsOk(response) ==> c.outcome == HandleApiError(response, PurchaseFailed)
    ensures c.outcome.Returned? <==> Truthy(token) && IsOk(response)
    ensures c.outcome.Returned? ==> c.outcome.value
  {
    if !Truthy(token) then Call(None, Threw(TokenMissing))
    else
      var sent := Some(Request(Post, PurchasePath(id), Some(Bearer(token))));
      if !IsOk(response) then Call(sent, HandleApiError(response, PurchaseFailed)) else Call(sent, Returned(true))
  }

  /** restockSweet: true on any 2xx answer; the body is not read then. */
  function RestockSweet(token: Option<string>, id: int, amount: int, response: Response<()>): (c: Call<bool>)
    ensures c.sent.None? <==> !Truthy(token)
    ensures !Truthy(token) ==> c.outcome == Threw(TokenMissing)
    ensures Truthy(token) && !IsOk(response) ==> c.outcome == HandleApiError(response, RestockFailed)
    ensures c.outcome.Returned? <==> Truthy(token) && IsOk(response)
    ensures c.outcome.Returned? ==> c.outcome.value
  {
    if !Truthy(token) then Call(None, Threw(TokenMissing))
    else
      var sent := Some(Request(Post, RestockPath(id, amount), Some(Bearer(token))));
      if !IsOk(response) then Call(sent, HandleApiError(response, RestockFailed)) else Call(sent, Returned(true))
  }

  /** Without a stored token every mutating wrapper throws before sending
      anything; with one, each sends exactly one request carrying it. */
  lemma MutationsNeedToken<T>(token: Option<string>, id: int, amount: int, r: Response<T>, u: Response<()>)
    ensures !Truthy(token) ==>
      && CreateSweet(token, r) == Call(None, Threw(TokenMissingLogIn))
      && UpdateSweet(token, id, r) == Call(None, Threw(TokenMissingLogIn))
      && DeleteSweet(token, id, u) == Call(None, Threw(TokenMissingLogIn))
      && PurchaseSweet(token, id, u) == Call(None, Threw(TokenMissing))
      && RestockSweet(token, id, amount, u) == Call(None, Threw(TokenMissing))
    ensures Truthy(token) ==>
      && CreateSweet(token, r).sent == Some(Request(Post, SweetsPath, Some("Bearer " + token.value)))
      && UpdateSweet(token, id, r).sent == Some(Request(Put, SweetPath(id), Some("Bearer " + token.value)))
      && DeleteSweet(token, id, u).sent == Some(Request(Delete, SweetPath(id), Some("Bearer " + token.value)))
      && PurchaseSweet(token, id, u).sent == Some(Request(Post, PurchasePath(id), Some("Bearer " + token.value)))
      && RestockSweet(token, id, amount, u).sent ==
           Some(Request(Post, RestockPath(id, amount), Some("Bearer " + token.value)))
  {
  }

  /** Reads go out even without a token, with the header "Bearer null". */
  lemma ReadsGoOutWithoutToken<T>(query: string, r: Response<T>)
    ensures GetSweets(None, r).sent == Some(Request(Get, SweetsPath, Some("Bearer null")))
    ensures SearchSweets(None, query, r).sent == Some(Request(Get, SearchPath(query), Some("Bearer null")))
  {
    assert Bearer(None) == "Bearer null";
  }

  /** Every wrapper that sent its request throws, through handleApiError,
      on a non-2xx answer, and returns normally on a 2xx answer unless it
      reads a body that is not JSON. */
  lemma FailuresAlwaysThrow<T>(token: Option<string>, id: int, amount: int, r: Response<T>, u: Response<()>)
    requires Truthy(token)
    ensures !IsOk(r) ==>
      && GetSweets(token, r).outcome == HandleApiError(r, FetchFailed)
      && CreateSweet(token, r).outcome == HandleApiError(r, CreateFailed)
      && UpdateSweet(token, id, r).outcome == HandleApiError(r, UpdateFailed)
    ensures !IsOk(u) ==>
      && DeleteSweet(token, id, u).outcome == HandleApiError(u, DeleteFailed)
      && PurchaseSweet(token, id, u).outcome == HandleApiError(u, PurchaseFailed)
      && RestockSweet(token, id, amount, u).outcome == HandleApiError(u, RestockFailed)
      && DeleteSweet(token, id, u).outcome.Threw?
    ensures IsOk(u) ==>
      && PurchaseSweet(token, id, u).outcome == Returned(true)
      && RestockSweet(token, id, amount, u).outcome == Returned(true)
      && DeleteSweet(token, id, u).outcome == Returned(if u.status == 204 then Some(true) else None)
    ensures IsOk(r) ==> (CreateSweet(token, r).outcome.Returned? <==> r.body.Json?)
    ensures !IsOk(r) ==> SearchSweets(token, "", r).outcome == HandleApiError(r, SearchFailed)
  {
  }
}
