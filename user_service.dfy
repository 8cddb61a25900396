/** The user directory of the microservices lab: a constant table of users
    and `POST /users/validate`, which reads it and never writes it. */
module UserService {
  import opened Common

  datatype User = User(id: int, email: string, name: string, status: string)

  /** The table the service starts with and never changes. */
  const Users: seq<User> := [
    User(1, "john@example.com", "John Doe", "active"),
    User(2, "jane@example.com", "Jane Smith", "active"),
    User(3, "bob@example.com", "Bob Wilson", "inactive")
  ]

  /** The body of a validation reply: `{ valid: true, user }` or `{ valid: false, error }`. */
  datatype Body = Accepted(user: User) | Rejected(error: string)

  datatype Reply = Reply(status: int, body: Body)

  /** `users.find(u => u.id === userId)`: the position of the first record
      whose numeric id strictly equals the request's `userId`. */
  function FindUser(users: seq<User>, userId: Scalar): (r: Option<nat>)
    ensures r.Some? ==> r.value < |users| && userId == Num(users[r.value].id)
    ensures r.Some? ==> forall j :: 0 <= j < r.value ==> userId != Num(users[j].id)
    ensures r.None? ==> forall j :: 0 <= j < |users| ==> userId != Num(users[j].id)
  {
    if |users| == 0 then None
    else if userId == Num(users[0].id) then Some(0)
    else match FindUser(users[1..], userId)
      case None => None
      case Some(i) => Some(i + 1)
  }

  /** Position `i` holds the first record whose id is `userId`. */
  ghost predicate FirstWithId(users: seq<User>, userId: Scalar, i: int) {
    0 <= i < |users| && userId == Num(users[i].id)
    && forall j :: 0 <= j < i ==> userId != Num(users[j].id)
  }

  /** `POST /users/validate`: 404 when no record has the id, 403 when the
      first record with the id is not active, otherwise 200 with that record. */
  function Validate(users: seq<User>, userId: Scalar): (r: Reply)
    ensures r.status in {200, 403, 404}
    ensures r.body.Accepted? <==> r.status == 200
  {
    match FindUser(users, userId)
    case None => Reply(404, Rejected("User not found"))
    case Some(i) =>
      if users[i].status != "active" then Reply(403, Rejected("User inactive"))
      else Reply(200, Accepted(users[i]))
  }

  /** The three outcomes of validation: unknown id gives 404 "User not found";
      otherwise the first record with the id decides, 403 "User inactive" when
      its status is not 'active' and 200 with the record when it is. Existence
      is therefore checked before status. */
  lemma ValidateOutcomes(users: seq<User>, userId: Scalar)
    ensures Validate(users, userId) == Reply(404, Rejected("User not found"))
      <==> forall j :: 0 <= j < |users| ==> userId != Num(users[j].id)
    ensures forall i | FirstWithId(users, userId, i) ::
      Validate(users, userId) ==
        if users[i].status != "active" then Reply(403, Rejected("User inactive"))
        else Reply(200, Accepted(users[i]))
  {
    var r := FindUser(users, userId);
    forall i | FirstWithId(users, userId, i)
      ensures r == Some(i)
    {
    }
  }

  /** With the seed table, ids 1 and 2 validate, id 3 is inactive, and any
      other id, or an id sent as a string, is unknown. */
  lemma SeedValidation(k: int, s: string)
    requires k !in {1, 2, 3}
    ensures Validate(Users, Num(1)) == Reply(200, Accepted(Users[0]))
    ensures Validate(Users, Num(2)) == Reply(200, Accepted(Users[1]))
    ensures Validate(Users, Num(3)) == Reply(403, Rejected("User inactive"))
    ensures Validate(Users, Num(k)) == Reply(404, Rejected("User not found"))
    ensures Validate(Users, Str(s)) == Reply(404, Rejected("User not found"))
    ensures Validate(Users, Absent) == Reply(404, Rejected("User not found"))
  {
  }
}
