/** `GET /api/user/stats?email=…`: how many users the user follows and how
    many users follow them. A read-only route. */
module UserStats {
  import opened Common
  import opened SocialDb
  import FollowRoute

  datatype Body = Text(text: string) | Counts(following: nat, followers: nat)

  datatype Reply = Reply(status: int, body: Body)

  /** The handler; `email` is the query parameter, absent or empty both
      being falsy. */
  function Stats(users: seq<User>, email: Option<string>): (r: Reply)
    ensures email.None? || email.value == "" ==> r == Reply(400, Text("Email required"))
    ensures r.status in {200, 400, 404}
    ensures r.status == 200 <==> r.body.Counts?
    ensures email.Some? && email.value != "" ==>
              (r.status == 404 <==> forall j :: 0 <= j < |users| ==> users[j].email != email.value)
  {
    if email.None? || email.value == "" then Reply(400, Text("Email required"))
    else match FindByEmail(users, email.value)
      case None => Reply(404, Text("User not found"))
      case Some(i) => Reply(200, Counts(|users[i].followingIds|, FollowerCount(users, users[i].id)))
  }

  /** For a known email: `following` is the length of the user's own list,
      duplicates included, and `followers` counts the users whose list holds
      the user's id, the user themself included after a self-follow. */
  lemma StatsOfKnownUser(users: seq<User>, email: string, i: nat)
    requires email != ""
    requires i < |users| && users[i].email == email
    requires forall j :: 0 <= j < i ==> users[j].email != email
    ensures Stats(users, Some(email)).body.Counts?
    ensures Stats(users, Some(email)).body.following == |users[i].followingIds|
    ensures Stats(users, Some(email)).body.followers == |Followers(users, users[i].id)|
    ensures users[i].id in users[i].followingIds ==> Stats(users, Some(email)).body.followers >= 1
  {
    assert FindByEmail(users, email) == Some(i);
    if users[i].id in users[i].followingIds {
      assert users[i] in Followers(users, users[i].id);
    }
  }

  /** A successful follow through the toggle route raises the followed
      user's `followers` by one and the follower's `following` by one. */
  lemma FollowRaisesCounts(st: Store, email: string, target: Id, date: string)
    requires email != ""
    requires FindByEmail(st.users, email).Some?
    requires target !in st.users[FindByEmail(st.users, email).value].followingIds
    ensures var st' := FollowRoute.Toggle(st, Some(email), target, date).1;
      && FollowerCount(st'.users, target) == FollowerCount(st.users, target) + 1
      && Stats(st.users, Some(email)).body.Counts? && Stats(st'.users, Some(email)).body.Counts?
      && Stats(st'.users, Some(email)).body.following == Stats(st.users, Some(email)).body.following + 1
  {
    var i := FindByEmail(st.users, email).value;
    var u := st.users[i];
    var v := u.(followingIds := u.followingIds + [target]);
    var st' := FollowRoute.Toggle(st, Some(email), target, date).1;
    assert st'.users == st.users[i := v];
    FollowerCountAfterRowUpdate(st.users, i, v, target);
    FollowRoute.FindAfterRowUpdate(st.users, email, i, v);
  }
}
