/** `GET /api/users`: with a `username` parameter, look one user up by
    username, email or email local part and attach its follower count (no
    session needed); without it, list every user newest first, each marked
    with whether the signed-in user follows it. */
module UsersRoute {
  import opened Common
  import opened SocialDb
  import Ordering

  /** A user returned by the lookup, `{ ...user, followersCount }`. */
  datatype Profile = Profile(user: User, followersCount: nat)

  /** A listed user, `{ ...user, isFollowing }`. */
  datatype Listed = Listed(user: User, isFollowing: bool)

  datatype Body = Found(profile: Option<Profile>) | Listing(users: seq<Listed>) | Error(error: string)

  datatype Reply = Reply(status: int, body: Body)

  /** One arm of the `OR` filter: username equal, email equal, or email
      starting with the query and an '@'. */
  predicate MatchesQuery(u: User, q: string) {
    u.username == q || u.email == q || StartsWith(u.email, q + "@")
  }

  /** `findFirst` in table order. */
  function FindMatching(users: seq<User>, q: string): (r: Option<nat>)
    ensures r.Some? ==> r.value < |users| && MatchesQuery(users[r.value], q)
    ensures r.Some? ==> forall j :: 0 <= j < r.value ==> !MatchesQuery(users[j], q)
    ensures r.None? ==> forall j :: 0 <= j < |users| ==> !MatchesQuery(users[j], q)
  {
    if |users| == 0 then None
    else if MatchesQuery(users[0], q) then Some(0)
    else match FindMatching(users[1..], q)
      case None => None
      case Some(i) => Some(i + 1)
  }

  function CreatedAt(u: User): int { u.createdAt }

  /** The listing: `findMany` newest first, then the `isFollowing` map. */
  function Annotated(users: seq<User>, current: Option<User>): (r: seq<Listed>)
    ensures |r| == |users|
    ensures Ordering.SortedDesc(seq(|r|, k requires 0 <= k < |r| => r[k].user), CreatedAt)
    ensures multiset(seq(|r|, k requires 0 <= k < |r| => r[k].user)) == multiset(users)
    ensures forall k :: 0 <= k < |r| ==>
              (r[k].isFollowing <==> current.Some? && r[k].user.id in current.value.followingIds)
  {
    var sorted := Ordering.SortDesc(users, CreatedAt);
    var r := seq(|sorted|, k requires 0 <= k < |sorted| =>
                  Listed(sorted[k], current.Some? && sorted[k].id in current.value.followingIds));
    assert seq(|r|, k requires 0 <= k < |r| => r[k].user) == sorted;
    r
  }

  /** The handler. `username` is the query parameter (absent and empty both
      falsy) and `sessionEmail` the signed-in user's email. */
  function Get(users: seq<User>, username: Option<string>, sessionEmail: Option<string>): (r: Reply)
    ensures username.Some? && username.value != "" ==> r.status == 200 && r.body.Found?
    ensures (username.None? || username.value == "") && (sessionEmail.None? || sessionEmail.value == "")
            ==> r == Reply(401, Error("Unauthorized"))
    ensures r.body.Listing? ==> r.status == 200 && |r.body.users| == |users|
  {
    if username.Some? && username.value != "" then
      match FindMatching(users, username.value)
      case None => Reply(200, Found(None))
      case Some(i) => Reply(200, Found(Some(Profile(users[i], FollowerCount(users, users[i].id)))))
    else if sessionEmail.None? || sessionEmail.value == "" then Reply(401, Error("Unauthorized"))
    else
      var current := match FindByEmail(users, sessionEmail.value)
        case None => None
        case Some(i) => Some(users[i]);
      Reply(200, Listing(Annotated(users, current)))
  }

  /** The lookup runs before, and without, the session check: its reply
      does not depend on who is signed in. */
  lemma LookupIgnoresSession(users: seq<User>, q: string, s1: Option<string>, s2: Option<string>)
    requires q != ""
    ensures Get(users, Some(q), s1) == Get(users, Some(q), s2)
  {
  }

  /** A found user is the first row matching the query, and its
      `followersCount` is the number of users whose list holds its id; the
      body is `null` exactly when no row matches. */
  lemma LookupOutcome(users: seq<User>, q: string)
    requires q != ""
    ensures var b := Get(users, Some(q), None).body;
      && (b.profile.None? <==> forall j :: 0 <= j < |users| ==> !MatchesQuery(users[j], q))
      && (b.profile.Some? ==>
            && MatchesQuery(b.profile.value.user, q)
            && b.profile.value.user in users
            && b.profile.value.followersCount == |Followers(users, b.profile.value.user.id)|
            && (forall u :: u in users && b.profile.value.user.id in u.followingIds
                  <==> u in Followers(users, b.profile.value.user.id)))
  {
    var b := Get(users, Some(q), None).body;
    if b.profile.Some? {
      var i := FindMatching(users, q).value;
      assert users[i] in users;
    }
  }

  /** An email local part finds its user: "alice" matches the row whose
      email is "alice@example.com", so profile URLs work without a
      username. */
  lemma LocalPartFindsUser(u: User, q: string, domain: string)
    requires q != ""
    requires u.email == q + "@" + domain
    ensures MatchesQuery(u, q)
  {
    assert u.email[..|q + "@"|] == q + "@";
  }

  /** In the listing every user, the signed-in one included, is marked
      exactly when the signed-in user's list holds its id; with no record
      for the session email nobody is marked. */
  lemma ListingMarks(users: seq<User>, email: string)
    requires email != ""
    ensures var b := Get(users, None, Some(email)).body;
      && b.Listing?
      && (FindByEmail(users, email).None? ==> forall k :: 0 <= k < |b.users| ==> !b.users[k].isFollowing)
      && (FindByEmail(users, email).Some? ==>
            forall k :: 0 <= k < |b.users| ==>
              (b.users[k].isFollowing <==>
                 b.users[k].user.id in users[FindByEmail(users, email).value].followingIds))
  {
  }
}
