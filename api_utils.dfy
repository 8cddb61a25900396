/** The route helpers of the social clone: the signed-in user lookup that
    throws, the JSON error and success responses, and the wrapper that
    turns a handler's thrown error into a status by its message. */
module ApiUtils {
  import opened Common
  import opened SocialDb

  /** A JSON value a response field can hold. */
  datatype Value = Bool(b: bool) | Text(s: string) | Number(n: int) | Null

  /** A JSON object, by field name. */
  type Object = map<string, Value>

  /** A response: `data` passed through as JSON, or an object built here. */
  datatype Payload<T> = Data(data: T) | Fields(fields: Object)

  datatype Response<T> = Response(status: int, body: Payload<T>)

  /** A handler either returns a value or throws an `Error` with a message. */
  datatype Outcome<T> = Returned(value: T) | Threw(message: string)

  /** `getAuthenticatedUserFromSession`: `email` is the session's email. */
  function AuthenticatedUser(users: seq<User>, email: Option<string>): (r: Outcome<User>)
    ensures email.None? || email.value == "" ==> r == Threw("Authentication required")
    ensures r.Returned? ==> email.Some? && r.value in users && r.value.email == email.value
    ensures r == Threw("User not found") <==>
              email.Some? && email.value != "" && forall j :: 0 <= j < |users| ==> users[j].email != email.value
    ensures r.Threw? ==> r.message in {"Authentication required", "User not found"}
  {
    if email.None? || email.value == "" then Threw("Authentication required")
    else match FindByEmail(users, email.value)
      case None => Threw("User not found")
      case Some(i) => Returned(users[i])
  }

  /** `createErrorResponse(message, status = 500)` */
  function CreateErrorResponse<T>(message: string, status: Option<int>): (r: Response<T>)
    ensures status.None? ==> r.status == 500
    ensures status.Some? ==> r.status == status.value
    ensures r.body.Fields? && r.body.fields.Keys == {"error"} && r.body.fields["error"] == Text(message)
  {
    Response(if status.Some? then status.value else 500, Fields(map["error" := Text(message)]))
  }

  /** `createSuccessResponse(data)`: `{ success: true, ...data }`. The spread
      comes second, so a `success` field of `data` wins. */
  function CreateSuccessResponse<T>(data: Object): (r: Response<T>)
    ensures r.status == 200 && r.body.Fields?
    ensures r.body.fields.Keys == data.Keys + {"success"}
    ensures forall k :: k in data ==> r.body.fields[k] == data[k]
    ensures "success" !in data ==> r.body.fields["success"] == Bool(true)
  {
    Response(200, Fields(map["success" := Bool(true)] + data))
  }

  /** `handleApiRequest(handler)`, given what the handler did. */
  function HandleApiRequest<T>(outcome: Outcome<T>): (r: Response<T>)
    ensures outcome.Returned? ==> r == Response(200, Data(outcome.value))
    ensures outcome.Threw? ==> r.body.Fields? && r.body.fields.Keys == {"error"}
    ensures outcome.Threw? ==> (r.status == 401 <==> outcome.message == "Authentication required")
    ensures outcome.Threw? ==> (r.status == 404 <==> outcome.message == "User not found")
    ensures outcome.Threw? && r.status != 401 && r.status != 404 ==>
              r == Response(500, Fields(map["error" := Text("Internal server error")]))
  {
    match outcome
    case Returned(value) => Response(200, Data(value))
    case Threw(message) =>
      if message == "Authentication required" then CreateErrorResponse("Authentication required", Some(401))
      else if message == "User not found" then CreateErrorResponse("User not found", Some(404))
      else CreateErrorResponse("Internal server error", None)
  }

  /** An unexpected error's own message never reaches the client. */
  lemma OtherErrorsHidden<T>(message: string)
    requires message != "Authentication required" && message != "User not found"
    ensures HandleApiRequest<T>(Threw(message)).status == 500
    ensures Text(message) !in HandleApiRequest<T>(Threw(message)).body.fields.Values
            || message == "Internal server error"
  {
    var f := HandleApiRequest<T>(Threw(message)).body.fields;
    assert f.Values == {Text("Internal server error")} by {
      assert f == map["error" := Text("Internal server error")];
      assert f["error"] in f.Values;
    }
  }

  /** A handler that starts with the signed-in user lookup answers 401
      without a session email, 404 without a matching record, and otherwise
      whatever the rest of the handler produces from that user. */
  lemma AuthenticatedHandlerStatus<T>(users: seq<User>, email: Option<string>, rest: User -> T)
    ensures var outcome := match AuthenticatedUser(users, email)
                             case Threw(m) => Threw(m)
                             case Returned(u) => Returned(rest(u));
      var r := HandleApiRequest(outcome);
      && (r.status == 401 <==> email.None? || email.value == "")
      && (r.status == 404 <==> email.Some? && email.value != ""
                                && forall j :: 0 <= j < |users| ==> users[j].email != email.value)
      && (r.status == 200 <==> email.Some? && email.value != ""
                                && exists j :: 0 <= j < |users| && users[j].email == email.value)
  {
    if email.Some? && email.value != "" {
      match FindByEmail(users, email.value)
      case None =>
      case Some(i) =>
        assert users[i].email == email.value;
    }
  }
}
