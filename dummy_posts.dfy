/** `GET /api/posts/dummy` of the microservices copy of the social clone:
    turns the sample API's posts into feed entries, with the author looked
    up by id in a table built from the sample API's users. Nothing is
    stored. The two fetched payloads and `Date.now()` are inputs; a failed
    fetch or payload answers an empty list. */
module DummyPosts {
  import opened Common
  import opened JsText

  /** A user of the sample API. */
  datatype ApiUser = ApiUser(id: int, firstName: string, lastName: string, username: string)

  /** A post of the sample API; `likes` is `reactions.likes`, if present. */
  datatype ApiPost = ApiPost(id: int, body: string, userId: int, likes: Option<nat>)

  /** The author block of a feed entry; `image` is always null. */
  datatype Author = Author(id: string, name: string, username: string, image: Option<string>)

  /** A feed entry. `createdAt` is in milliseconds since the epoch. */
  datatype FeedPost = FeedPost(id: string, body: string, createdAt: int, likedIds: seq<string>,
                               user: Author, comments: seq<string>, isDummy: bool)

  const HourMs := 3600000
  const PostPrefix := "dummy_"
  const UserPrefix := "dummy_user_"

  /** The `reduce` into `acc[user.id] = user`: the table has an entry for
      exactly the ids some user carries. */
  function UserLookup(users: seq<ApiUser>): (table: map<int, ApiUser>)
    ensures forall k :: k in table <==> exists j :: 0 <= j < |users| && users[j].id == k
  {
    if |users| == 0 then map[]
    else
      var init := users[..|users| - 1];
      var t := UserLookup(init);
      assert forall j :: 0 <= j < |init| ==> init[j] == users[j];
      t[users[|users| - 1].id := users[|users| - 1]]
  }

  /** A later user with the same id overwrites an earlier one: the entry
      for an id is the LAST user carrying it. */
  lemma {:induction false} UserLookupKeepsLast(users: seq<ApiUser>, j: nat)
    requires j < |users|
    requires forall m :: j < m < |users| ==> users[m].id != users[j].id
    ensures users[j].id in UserLookup(users) && UserLookup(users)[users[j].id] == users[j]
    decreases |users|
  {
    var n := |users|;
    if j < n - 1 {
      var init := users[..n - 1];
      assert init[j] == users[j];
      assert forall m :: j < m < |init| ==> init[m] == users[m];
      UserLookupKeepsLast(init, j);
    }
  }

  /** The author block: from the table when the lookup hits, otherwise the
      `User <id>` / `user<id>` fallback. */
  function AuthorOf(userId: int, table: map<int, ApiUser>): Author {
    if userId in table then
      var u := table[userId];
      Author(UserPrefix + IntToString(userId), u.firstName + " " + u.lastName, u.username, None)
    else
      Author(UserPrefix + IntToString(userId), "User " + IntToString(userId), "user" + IntToString(userId), None)
  }

  /** One entry of the `map`. */
  function Format(p: ApiPost, table: map<int, ApiUser>, now: int): FeedPost {
    FeedPost(PostPrefix + IntToString(p.id), p.body, now - p.id * HourMs,
             Replicate(if p.likes.Some? then p.likes.value else 0, "dummy_like"),
             AuthorOf(p.userId, table), [], true)
  }

  /** The handler: one entry per post, in order; `[]` when either fetch
      failed. */
  function Get(posts: Fetched<seq<ApiPost>>, users: Fetched<seq<ApiUser>>, now: int): (r: seq<FeedPost>)
    ensures posts.FetchError? || users.FetchError? ==> r == []
    ensures posts.Got? && users.Got? ==> |r| == |posts.value|
    ensures posts.Got? && users.Got? ==> forall i :: 0 <= i < |r| ==>
              var p := posts.value[i];
              && r[i].body == p.body && r[i].createdAt == now - p.id * HourMs
              && r[i].likedIds == Replicate(if p.likes.Some? then p.likes.value else 0, "dummy_like")
              && r[i].comments == [] && r[i].isDummy && r[i].user.image.None?
  {
    if posts.FetchError? || users.FetchError? then []
    else
      var table := UserLookup(users.value);
      seq(|posts.value|, i requires 0 <= i < |posts.value| => Format(posts.value[i], table, now))
  }

  /** The author id of every entry is `dummy_user_<userId>`, whose suffix
      reads back as the post's `userId`; without a
      sample user carrying that id, the author is the `User <id>` fallback. */
  lemma AuthorFollowsUsers(posts: seq<ApiPost>, users: seq<ApiUser>, now: int, i: nat)
    requires i < |posts|
    ensures var a := Get(Got(posts), Got(users), now)[i].user;
      var uid := posts[i].userId;
      && a.id == UserPrefix + IntToString(uid)
      && a.id[|UserPrefix|..] == IntToString(uid) && ParseInt(a.id[|UserPrefix|..]) == Some(uid)
      && ((forall j :: 0 <= j < |users| ==> users[j].id != uid) ==>
            a.name == "User " + IntToString(uid) && a.username == "user" + IntToString(uid))
  {
    var a := Get(Got(posts), Got(users), now)[i].user;
    assert a.id[|UserPrefix|..] == IntToString(posts[i].userId);
    ParseIntOfIntToString(posts[i].userId);
  }

  /** When some sample user carries the post's `userId`, the author is the
      last such user. */
  lemma AuthorFromLastMatchingUser(posts: seq<ApiPost>, users: seq<ApiUser>, now: int, i: nat, j: nat)
    requires i < |posts| && j < |users| && users[j].id == posts[i].userId
    requires forall m :: j < m < |users| ==> users[m].id != posts[i].userId
    ensures var a := Get(Got(posts), Got(users), now)[i].user;
      a.name == users[j].firstName + " " + users[j].lastName && a.username == users[j].username
  {
    UserLookupKeepsLast(users, j);
  }

  /** The entry id carries the API id after its prefix, so it can be read
      back, and distinct API posts give distinct entry ids. */
  lemma EntryIdReadsBack(posts: seq<ApiPost>, users: seq<ApiUser>, now: int, i: nat)
    requires i < |posts|
    ensures var id := Get(Got(posts), Got(users), now)[i].id;
      StartsWith(id, PostPrefix) && ParseInt(id[|PostPrefix|..]) == Some(posts[i].id)
  {
    var id := Get(Got(posts), Got(users), now)[i].id;
    assert id == PostPrefix + IntToString(posts[i].id);
    assert id[|PostPrefix|..] == IntToString(posts[i].id);
    assert id[..|PostPrefix|] == PostPrefix;
    ParseIntOfIntToString(posts[i].id);
  }

  /** Entries of posts with different API ids have different ids. */
  lemma EntryIdsDistinct(posts: seq<ApiPost>, users: seq<ApiUser>, now: int, i: nat, k: nat)
    requires i < |posts| && k < |posts| && posts[i].id != posts[k].id
    ensures Get(Got(posts), Got(users), now)[i].id != Get(Got(posts), Got(users), now)[k].id
  {
    EntryIdReadsBack(posts, users, now, i);
    EntryIdReadsBack(posts, users, now, k);
  }
}
