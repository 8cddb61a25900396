/** `POST /api/auth/register`: a fixed chain of checks, each with its own
    400 message, then a uniqueness check on email and username, then the
    creation of one user holding the hash of the password. A field missing
    from the JSON body is the empty string (both are falsy). */
module RegisterRoute {
  import opened Common
  import opened SocialDb
  import Validation

  datatype Body = Text(text: string) | Registered(user: User)

  datatype Reply = Reply(status: int, body: Body)

  /** `findFirst({ where: { OR: [{ email }, { username }] } })` finds a row. */
  function Taken(users: seq<User>, email: string, username: string): (r: bool)
    ensures r <==> exists j :: 0 <= j < |users| && (users[j].email == email || users[j].username == username)
  {
    if |users| == 0 then false
    else
      var rest := Taken(users[1..], email, username);
      assert forall j :: 1 <= j < |users| ==> users[j] == users[1..][j - 1];
      users[0].email == email || users[0].username == username || rest
  }

  /** The handler. `hash` stands for `bcrypt.hash(·, 12)` and `now` for the
      creation time. */
  function Register(st: Store, email: string, username: string, name: string, password: string,
                    hash: string -> string, now: int): (o: (Reply, Store))
    ensures o.0.status in {200, 400}
    ensures o.0.status == 400 ==> o.1 == st && o.0.body.Text?
    ensures o.1.posts == st.posts && o.1.comments == st.comments && o.1.notifications == st.notifications
  {
    if email == "" || username == "" || name == "" || password == "" then
      (Reply(400, Text("All fields are required")), st)
    else if '@' !in email then (Reply(400, Text("Invalid email format")), st)
    else if |password| < 6 then (Reply(400, Text("Password must be at least 6 characters")), st)
    else if |username| < 3 then (Reply(400, Text("Username must be at least 3 characters")), st)
    else if Taken(st.users, email, username) then (Reply(400, Text("Email or username already exists")), st)
    else
      var u := User(Oid(st.nextOid), name, username, email, "", hash(password), [], now);
      (Reply(200, Registered(u)), st.(users := st.users + [u], nextOid := st.nextOid + 1))
  }

  /** One rule of the chain: whether the request passes it, and the message
      it fails with. */
  datatype Check = Check(passes: bool, message: string)

  /** The rules in the order the handler applies them. */
  function Checks(users: seq<User>, email: string, username: string, name: string, password: string): seq<Check> {
    [ Check(email != "" && username != "" && name != "" && password != "", "All fields are required"),
      Check('@' in email, "Invalid email format"),
      Check(|password| >= 6, "Password must be at least 6 characters"),
      Check(|username| >= 3, "Username must be at least 3 characters"),
      Check(!Taken(users, email, username), "Email or username already exists") ]
  }

  /** The message of the first rule that fails, if any. */
  function FirstFailure(checks: seq<Check>): (r: Option<string>)
    ensures r.None? <==> forall k :: 0 <= k < |checks| ==> checks[k].passes
    ensures r.Some? ==> exists k :: 0 <= k < |checks| && !checks[k].passes && checks[k].message == r.value
                          && forall m :: 0 <= m < k ==> checks[m].passes
  {
    if |checks| == 0 then None
    else if !checks[0].passes then Some(checks[0].message)
    else
      var rest := FirstFailure(checks[1..]);
      assert forall k :: 1 <= k < |checks| ==> checks[k] == checks[1..][k - 1];
      if rest.Some? then
        var k :| 0 <= k < |checks[1..]| && !checks[1..][k].passes && checks[1..][k].message == rest.value
                 && forall m :: 0 <= m < k ==> checks[1..][m].passes;
        assert !checks[k + 1].passes && checks[k + 1].message == rest.value;
        rest
      else rest
  }

  /** The first failing rule decides the reply; a request that fails none
      creates exactly one user, with the given fields, the hash of the
      password in place of the password, no follows and a fresh id. */
  lemma RegisterFollowsChecks(st: Store, email: string, username: string, name: string, password: string,
                              hash: string -> string, now: int)
    ensures var (reply, st') := Register(st, email, username, name, password, hash, now);
      match FirstFailure(Checks(st.users, email, username, name, password))
      case Some(message) => reply == Reply(400, Text(message)) && st' == st
      case None =>
        && reply.status == 200 && reply.body.Registered?
        && st'.users == st.users + [reply.body.user]
        && reply.body.user.email == email && reply.body.user.username == username
        && reply.body.user.name == name && reply.body.user.hashedPassword == hash(password)
        && reply.body.user.followingIds == []
        && reply.body.user.id == Oid(st.nextOid) && st'.nextOid == st.nextOid + 1
  {
    var cs := Checks(st.users, email, username, name, password);
    if !cs[0].passes {
      assert FirstFailure(cs) == Some(cs[0].message);
    } else if !cs[1].passes {
      assert FirstFailure(cs[1..]) == Some(cs[1].message);
    } else if !cs[2].passes {
      assert FirstFailure(cs[2..]) == Some(cs[2].message);
      assert cs[1..][1..] == cs[2..];
    } else if !cs[3].passes {
      assert FirstFailure(cs[3..]) == Some(cs[3].message);
      assert cs[1..][1..] == cs[2..] && cs[2..][1..] == cs[3..];
    } else if !cs[4].passes {
      assert FirstFailure(cs[4..]) == Some(cs[4].message);
      assert cs[1..][1..] == cs[2..] && cs[2..][1..] == cs[3..] && cs[3..][1..] == cs[4..];
    }
  }

  /** Any empty field is reported as such, whatever the other fields hold. */
  lemma EmptyFieldWins(st: Store, email: string, username: string, name: string, password: string,
                       hash: string -> string, now: int)
    requires email == "" || username == "" || name == "" || password == ""
    ensures Register(st, email, username, name, password, hash, now).0 == Reply(400, Text("All fields are required"))
  {
  }

  /** The route's own checks are weaker than the client validators: an
      address `validateEmail` accepts, and a password and username the
      length validators accept, pass the format and length rules. */
  lemma ValidatorsPassRouteChecks(email: string, username: string, password: string)
    requires Validation.ValidateEmail(email)
    requires Validation.ValidatePassword(password) && Validation.ValidateUsername(username)
    ensures '@' in email && |password| >= 6 && |username| >= 3
  {
    Validation.ValidEmailHasAt(email);
  }

  /** No two accounts share an email or a username. */
  ghost predicate AccountsUnique(users: seq<User>) {
    forall a, b :: 0 <= a < b < |users| ==> users[a].email != users[b].email && users[a].username != users[b].username
  }

  /** Registration keeps accounts unique. */
  lemma RegisterKeepsAccountsUnique(st: Store, email: string, username: string, name: string, password: string,
                                    hash: string -> string, now: int)
    requires AccountsUnique(st.users)
    ensures AccountsUnique(Register(st, email, username, name, password, hash, now).1.users)
  {
    var st' := Register(st, email, username, name, password, hash, now).1;
    if st' != st {
      var n := |st.users|;
      forall a, b | 0 <= a < b < |st'.users|
        ensures st'.users[a].email != st'.users[b].email && st'.users[a].username != st'.users[b].username
      {
        if b == n {
          assert st'.users[a] == st.users[a];
        }
      }
    }
  }

  /** The handler against the database. */
  method HandlePost(db: Db, email: string, username: string, name: string, password: string,
              hash: string -> string, now: int) returns (reply: Reply)
    modifies db
    ensures (reply, db.Snapshot()) == Register(old(db.Snapshot()), email, username, name, password, hash, now)
  {
    if email == "" || username == "" || name == "" || password == "" {
      return Reply(400, Text("All fields are required"));
    }
    if '@' !in email {
      return Reply(400, Text("Invalid email format"));
    }
    if |password| < 6 {
      return Reply(400, Text("Password must be at least 6 characters"));
    }
    if |username| < 3 {
      return Reply(400, Text("Username must be at least 3 characters"));
    }
    if Taken(db.users, email, username) {
      return Reply(400, Text("Email or username already exists"));
    }
    var hashedPassword := hash(password);
    var user := User(Oid(db.nextOid), name, username, email, "", hashedPassword, [], now);
    db.users := db.users + [user];
    db.nextOid := db.nextOid + 1;
    reply := Reply(200, Registered(user));
  }
}
