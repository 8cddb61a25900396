/** `POST /api/posts/sync-dummy` of the social clone: imports the posts of a
    public sample API. It upserts one user per API user, then creates a post
    `dummy_<id>` for every API post whose id was not already in the
    database, spacing their creation times half an hour apart. Post ids are
    unique in the table, so a create whose id a row already has throws and
    the route answers 500, keeping the rows created before it. The fetched
    payloads and `Date.now()` are inputs. */
module SyncDummy {
  import opened Common
  import opened SocialDb

  /** A user of the sample API. */
  datatype ApiUser = ApiUser(id: int, username: string, firstName: string, lastName: string, title: string)

  /** A post of the sample API; `likes` is `reactions.likes`, absent as None. */
  datatype ApiPost = ApiPost(id: nat, body: string, userId: int, likes: Option<nat>)

  /** `{ ...user, originalId: apiUser.id }` */
  datatype DummyUser = DummyUser(user: User, originalId: int)

  datatype Body = Synced(message: string, newPosts: nat, totalExisting: nat) | Text(text: string)

  datatype Reply = Reply(status: int, body: Body)

  /** `handleApiError(error)` with its defaults. */
  const InternalError := Reply(500, Text("Internal Error"))

  const HalfHourMs := 1800000

  /** `dummy_${id}` */
  function DummyId(n: nat): (r: string)
    ensures StartsWith(r, "dummy_") && |r| > 6
  {
    "dummy_" + NatToString(n)
  }

  predicate IsDummyPost(p: Post) {
    p.id.Named? && StartsWith(p.id.s, "dummy_")
  }

  /** `findMany({ where: { id: { startsWith: 'dummy_' } } })` */
  function DummyPosts(posts: seq<Post>): (r: seq<Post>)
    ensures |r| <= |posts|
    ensures forall p :: p in r <==> p in posts && IsDummyPost(p)
  {
    if |posts| == 0 then []
    else
      var last := posts[|posts| - 1];
      DummyPosts(posts[..|posts| - 1]) + (if IsDummyPost(last) then [last] else [])
  }

  /** `new Set(existingPosts.map(p => p.id))` */
  function IdSet(posts: seq<Post>): (r: set<Id>)
    ensures forall id :: id in r <==> exists j :: 0 <= j < |posts| && posts[j].id == id
  {
    set j | 0 <= j < |posts| :: posts[j].id
  }

  /** The first user with that email, if any. */
  function UserByEmail(users: seq<User>, email: string): Option<User> {
    match FindByEmail(users, email)
    case None => None
    case Some(i) => Some(users[i])
  }

  /** One `upsert` with an empty update: the existing row as it is, or a new
      row built from the API user. */
  function UpsertOne(st: Store, a: ApiUser, now: int): (o: (Store, DummyUser))
    ensures o.1.originalId == a.id && o.1.user.email == a.username + "@dummy.com"
    ensures o.1.user in o.0.users
    ensures |o.0.users| >= |st.users| && o.0.users[..|st.users|] == st.users && o.0.posts == st.posts
  {
    var email := a.username + "@dummy.com";
    match UserByEmail(st.users, email)
    case Some(u) =>
      assert st.users[..|st.users|] == st.users;
      (st, DummyUser(u, a.id))
    case None =>
      var bio := if a.title != "" then a.title else "Dummy user";
      var u := User(Oid(st.nextOid), a.firstName + " " + a.lastName, a.username, email, bio, "", [], now);
      (st.(users := st.users + [u], nextOid := st.nextOid + 1), DummyUser(u, a.id))
  }

  /** The user loop over a prefix of the API users. */
  function UpsertAll(st: Store, apiUsers: seq<ApiUser>, now: int): (o: (Store, seq<DummyUser>))
    ensures |o.1| == |apiUsers|
    ensures |o.0.users| >= |st.users| && o.0.users[..|st.users|] == st.users && o.0.posts == st.posts
  {
    if |apiUsers| == 0 then
      assert st.users[..|st.users|] == st.users;
      (st, [])
    else
      var before := UpsertAll(st, apiUsers[..|apiUsers| - 1], now);
      var one := UpsertOne(before.0, apiUsers[|apiUsers| - 1], now);
      assert one.0.users[..|st.users|] == before.0.users[..|before.0.users|][..|st.users|];
      (one.0, before.1 + [one.1])
  }

  /** The `k`-th dummy user stands for the `k`-th API user: it records that
      user's id and has that user's `@dummy.com` email. */
  lemma {:induction false} UpsertAllRecordsEveryUser(st: Store, apiUsers: seq<ApiUser>, now: int)
    ensures var dummy := UpsertAll(st, apiUsers, now).1;
      forall k :: 0 <= k < |apiUsers| ==>
        dummy[k].originalId == apiUsers[k].id && dummy[k].user.email == apiUsers[k].username + "@dummy.com"
    decreases |apiUsers|
  {
    if |apiUsers| > 0 {
      var init := apiUsers[..|apiUsers| - 1];
      UpsertAllRecordsEveryUser(st, init, now);
      var before := UpsertAll(st, init, now);
      var dummy := UpsertAll(st, apiUsers, now).1;
      assert dummy == before.1 + [UpsertOne(before.0, apiUsers[|apiUsers| - 1], now).1];
      assert forall k :: 0 <= k < |init| ==> dummy[k] == before.1[k] && apiUsers[k] == init[k];
    }
  }

  /** `dummyUsers.find(u => u.originalId === userId)`: the position of the
      first dummy user recording that API id. */
  function FindOriginal(dummy: seq<DummyUser>, userId: int): (r: Option<nat>)
    ensures r.None? <==> forall k :: 0 <= k < |dummy| ==> dummy[k].originalId != userId
    ensures r.Some? ==> && r.value < |dummy| && dummy[r.value].originalId == userId
                        && forall j :: 0 <= j < r.value ==> dummy[j].originalId != userId
  {
    if |dummy| == 0 then None
    else if dummy[0].originalId == userId then Some(0)
    else match FindOriginal(dummy[1..], userId)
      case None => None
      case Some(k) => Some(k + 1)
  }

  /** `originalUser?.id || dummyUsers[0].id`: the first dummy user recording
      the post's `userId`, else the first dummy user; None when the fallback
      itself throws for want of dummy users. */
  function AuthorOf(dummy: seq<DummyUser>, userId: int): (r: Option<Id>)
    ensures r.None? <==> |dummy| == 0
    ensures forall k :: (0 <= k < |dummy| && dummy[k].originalId == userId
                         && forall j :: 0 <= j < k ==> dummy[j].originalId != userId) ==> r == Some(dummy[k].user.id)
    ensures |dummy| > 0 && (forall k :: 0 <= k < |dummy| ==> dummy[k].originalId != userId) ==> r == Some(dummy[0].user.id)
  {
    match FindOriginal(dummy, userId)
    case Some(k) => Some(dummy[k].user.id)
    case None => if |dummy| == 0 then None else Some(dummy[0].user.id)
  }

  /** The API posts the loop tries to create: those whose `dummy_` id was
      not in the set taken before the loop. The set is not updated as posts
      are created, so a repeated id is tried twice. */
  function FreshPosts(apiPosts: seq<ApiPost>, existing: set<Id>): (r: seq<ApiPost>)
    ensures |r| <= |apiPosts|
  {
    if |apiPosts| == 0 then []
    else
      var last := apiPosts[|apiPosts| - 1];
      FreshPosts(apiPosts[..|apiPosts| - 1], existing) + (if Named(DummyId(last.id)) !in existing then [last] else [])
  }

  /** The posts to create are exactly the API posts whose `dummy_` id was
      not taken. */
  lemma {:induction false} FreshPostsMembers(apiPosts: seq<ApiPost>, existing: set<Id>)
    ensures forall p :: p in FreshPosts(apiPosts, existing) <==> p in apiPosts && Named(DummyId(p.id)) !in existing
    decreases |apiPosts|
  {
    if |apiPosts| > 0 {
      var init := apiPosts[..|apiPosts| - 1];
      FreshPostsMembers(init, existing);
      assert apiPosts == init + [apiPosts[|apiPosts| - 1]];
    }
  }

  /** No two of the posts share a `dummy_` id. */
  predicate DistinctIds(ps: seq<ApiPost>) {
    forall a, b :: 0 <= a < b < |ps| ==> DummyId(ps[a].id) != DummyId(ps[b].id)
  }

  /** The position of the first post whose `dummy_` id an earlier post
      already has, or the length when there is none: the `create` there
      fails on the unique post id. */
  function FirstRepeat(ps: seq<ApiPost>): (n: nat)
    ensures n <= |ps| && DistinctIds(ps[..n])
    ensures n < |ps| ==> exists a :: 0 <= a < n && DummyId(ps[a].id) == DummyId(ps[n].id)
  {
    if |ps| == 0 then 0
    else
      var init := ps[..|ps| - 1];
      var m := FirstRepeat(init);
      assert init[..m] == ps[..m];
      if m < |init| then m
      else if exists a :: 0 <= a < |init| && DummyId(ps[a].id) == DummyId(ps[|init|].id) then
        |init|
      else
        assert ps[..|ps|] == ps;
        |ps|
  }

  /** `FirstRepeat` is the only position with its two properties. */
  lemma FirstRepeatUnique(ps: seq<ApiPost>, n: nat)
    requires n <= |ps| && DistinctIds(ps[..n])
    requires n < |ps| ==> exists a :: 0 <= a < n && DummyId(ps[a].id) == DummyId(ps[n].id)
    ensures FirstRepeat(ps) == n
  {
    var m := FirstRepeat(ps);
    if m < n {
      var a :| 0 <= a < m && DummyId(ps[a].id) == DummyId(ps[m].id);
      RepeatBreaksDistinct(ps, n, a, m);
    } else if n < m {
      var a :| 0 <= a < n && DummyId(ps[a].id) == DummyId(ps[n].id);
      RepeatBreaksDistinct(ps, m, a, n);
    }
  }

  lemma RepeatBreaksDistinct(ps: seq<ApiPost>, n: nat, a: nat, b: nat)
    requires a < b < n <= |ps| && DummyId(ps[a].id) == DummyId(ps[b].id)
    ensures !DistinctIds(ps[..n])
  {
    assert ps[..n][a] == ps[a] && ps[..n][b] == ps[b];
  }

  /** The row created for the `k`-th post to create. */
  function Imported(p: ApiPost, author: Id, k: nat, now: int): Post {
    Post(Named(DummyId(p.id)), p.body, author, now - k * HalfHourMs,
         Replicate(if p.likes.Some? then p.likes.value else 0, "dummy_like"))
  }

  /** The rows the post loop creates. */
  function ImportedPosts(toCreate: seq<ApiPost>, dummy: seq<DummyUser>, now: int): (r: seq<Post>)
    requires |dummy| > 0
    ensures |r| == |toCreate|
    ensures forall k :: 0 <= k < |r| ==> r[k].id == Named(DummyId(toCreate[k].id))
  {
    seq(|toCreate|, k requires 0 <= k < |toCreate| => Imported(toCreate[k], AuthorOf(dummy, toCreate[k].userId).value, k, now))
  }

  /** The post loop's effect once the users are in place: 500 at the first
      post to create when there is no dummy user. Otherwise the posts to
      create are appended in order up to the first repeated id, whose
      `create` fails on the unique key: 500, the rows before it kept. */
  function ImportPosts(st1: Store, dummy: seq<DummyUser>, toCreate: seq<ApiPost>, totalExisting: nat, now: int)
    : (o: (Reply, Store))
    ensures o.1.users == st1.users
    ensures |o.1.posts| >= |st1.posts| && o.1.posts[..|st1.posts|] == st1.posts
  {
    if |toCreate| > 0 && |dummy| == 0 then
      assert st1.posts[..|st1.posts|] == st1.posts;
      (InternalError, st1)
    else
      var n := FirstRepeat(toCreate);
      var created := if |dummy| > 0 then ImportedPosts(toCreate[..n], dummy, now) else [];
      var st2 := st1.(posts := st1.posts + created);
      assert st2.posts[..|st1.posts|] == st1.posts;
      if n < |toCreate| then (InternalError, st2)
      else (Reply(200, Synced("Synced dummy posts with original data", |toCreate|, totalExisting)), st2)
  }

  /** The whole route as a transition of the database. */
  function Sync(st: Store, apiPosts: Fetched<seq<ApiPost>>, apiUsers: Fetched<seq<ApiUser>>, now: int): (o: (Reply, Store))
    ensures |o.1.posts| >= |st.posts| && o.1.posts[..|st.posts|] == st.posts
    ensures |o.1.users| >= |st.users| && o.1.users[..|st.users|] == st.users
  {
    if apiPosts.FetchError? || apiUsers.FetchError? then
      assert st.posts[..|st.posts|] == st.posts && st.users[..|st.users|] == st.users;
      (InternalError, st)
    else
      var existing := DummyPosts(st.posts);
      var (st1, dummy) := UpsertAll(st, apiUsers.value, now);
      ImportPosts(st1, dummy, FreshPosts(apiPosts.value, IdSet(existing)), |existing|, now)
  }

  /** The counts and the rows: the rows created are the imports of the
      new API posts in payload order, up to the first repeated id. The
      reply is 200 exactly when there is none; then `newPosts` is the
      number of rows created and `totalExisting` the number of `dummy_`
      posts before the run. */
  lemma SyncOutcome(st: Store, apiPosts: seq<ApiPost>, apiUsers: seq<ApiUser>, now: int)
    requires |apiUsers| > 0
    ensures var (reply, st') := Sync(st, Got(apiPosts), Got(apiUsers), now);
      var toCreate := FreshPosts(apiPosts, IdSet(DummyPosts(st.posts)));
      var n := FirstRepeat(toCreate);
      var (st1, dummy) := UpsertAll(st, apiUsers, now);
      && (reply.status == 200 <==> n == |toCreate|)
      && (reply.status != 200 ==> reply == InternalError)
      && (reply.status == 200 ==> reply.body.Synced? && reply.body.newPosts == n
                                  && reply.body.totalExisting == |DummyPosts(st.posts)|)
      && |st'.posts| == |st.posts| + n
      && st'.users == st1.users
      && (forall k :: 0 <= k < n ==>
            && st'.posts[|st.posts| + k].id == Named(DummyId(toCreate[k].id))
            && st'.posts[|st.posts| + k].body == toCreate[k].body
            && st'.posts[|st.posts| + k].createdAt == now - k * HalfHourMs
            && st'.posts[|st.posts| + k].userId == AuthorOf(dummy, toCreate[k].userId).value
            && st'.posts[|st.posts| + k].likedIds
                 == Replicate(if toCreate[k].likes.Some? then toCreate[k].likes.value else 0, "dummy_like"))
  {
    var (st1, dummy) := UpsertAll(st, apiUsers, now);
    var toCreate := FreshPosts(apiPosts, IdSet(DummyPosts(st.posts)));
    var n := FirstRepeat(toCreate);
    ImportOutcome(st1, dummy, toCreate, |DummyPosts(st.posts)|, now);
    var st' := Sync(st, Got(apiPosts), Got(apiUsers), now).1;
    assert st'.posts == st.posts + ImportedPosts(toCreate[..n], dummy, now);
    forall k | 0 <= k < n
      ensures st'.posts[|st.posts| + k] == Imported(toCreate[k], AuthorOf(dummy, toCreate[k].userId).value, k, now)
    {
      assert toCreate[..n][k] == toCreate[k];
    }
  }

  /** With a dummy user to fall back on, the post loop creates the posts up
      to the first repeated id and answers 200 only when there is none. */
  lemma ImportOutcome(st1: Store, dummy: seq<DummyUser>, toCreate: seq<ApiPost>, totalExisting: nat, now: int)
    requires |dummy| > 0
    ensures var (reply, st2) := ImportPosts(st1, dummy, toCreate, totalExisting, now);
      var n := FirstRepeat(toCreate);
      && (reply.status == 200 <==> n == |toCreate|)
      && (reply.status != 200 ==> reply == InternalError)
      && (reply.status == 200 ==> reply.body.Synced? && reply.body.newPosts == n
                                  && reply.body.totalExisting == totalExisting)
      && st2 == st1.(posts := st1.posts + ImportedPosts(toCreate[..n], dummy, now))
  {
  }

  /** Creation times fall strictly, half an hour per created post. */
  lemma ImportedTimesDecrease(toCreate: seq<ApiPost>, dummy: seq<DummyUser>, now: int, k: nat, m: nat)
    requires |dummy| > 0
    requires k < m < |toCreate|
    ensures ImportedPosts(toCreate, dummy, now)[k].createdAt > ImportedPosts(toCreate, dummy, now)[m].createdAt
  {
    var r := ImportedPosts(toCreate, dummy, now);
    assert r[k].createdAt == now - k * HalfHourMs;
    assert r[m].createdAt == now - m * HalfHourMs;
    assert k * HalfHourMs < m * HalfHourMs;
  }

  /** No created row takes the id of a `dummy_` post present before the
      run. */
  lemma NoCollisionWithExisting(apiPosts: seq<ApiPost>, existing: seq<Post>, dummy: seq<DummyUser>, now: int, k: nat)
    requires |dummy| > 0
    requires k < |FreshPosts(apiPosts, IdSet(existing))|
    ensures forall j :: 0 <= j < |existing| ==>
              existing[j].id != ImportedPosts(FreshPosts(apiPosts, IdSet(existing)), dummy, now)[k].id
  {
    var toCreate := FreshPosts(apiPosts, IdSet(existing));
    FreshPostsMembers(apiPosts, IdSet(existing));
    assert toCreate[k] in toCreate;
    assert Named(DummyId(toCreate[k].id)) !in IdSet(existing);
  }

  /** The id set is taken once, so the fresh-id filter keeps both copies
      of a new API post repeated in one payload. */
  lemma FreshFilterKeepsRepeats(p: ApiPost, existing: set<Id>)
    requires Named(DummyId(p.id)) !in existing
    ensures FreshPosts([p, p], existing) == [p, p]
  {
    assert [p, p][..1] == [p];
    assert [p][..0] == [];
  }

  /** The same new API post twice in one payload: the first copy is
      created, the second `create` fails on the unique post id, and the
      route answers 500 with the first row kept. */
  lemma RepeatedIdFails(st: Store, p: ApiPost, apiUsers: seq<ApiUser>, now: int)
    requires |apiUsers| > 0
    requires Named(DummyId(p.id)) !in IdSet(DummyPosts(st.posts))
    ensures var (reply, st') := Sync(st, Got([p, p]), Got(apiUsers), now);
      reply == InternalError && |st'.posts| == |st.posts| + 1
      && st'.posts[|st.posts|].id == Named(DummyId(p.id))
  {
    FreshFilterKeepsRepeats(p, IdSet(DummyPosts(st.posts)));
    FirstRepeatUnique([p, p], 1);
    SyncOutcome(st, [p, p], apiUsers, now);
  }

  /** Post ids stay unique: the created rows take `dummy_` ids that no
      stored post has and that differ from one another. */
  lemma SyncKeepsPostIdsUnique(st: Store, apiPosts: seq<ApiPost>, apiUsers: seq<ApiUser>, now: int)
    requires forall a, b :: 0 <= a < b < |st.posts| ==> st.posts[a].id != st.posts[b].id
    ensures var st' := Sync(st, Got(apiPosts), Got(apiUsers), now).1;
      forall a, b :: 0 <= a < b < |st'.posts| ==> st'.posts[a].id != st'.posts[b].id
  {
    var st' := Sync(st, Got(apiPosts), Got(apiUsers), now).1;
    var existing := IdSet(DummyPosts(st.posts));
    var toCreate := FreshPosts(apiPosts, existing);
    var n := FirstRepeat(toCreate);
    var (st1, dummy) := UpsertAll(st, apiUsers, now);
    if |dummy| > 0 && |st'.posts| > |st.posts| {
      assert st'.posts == st.posts + ImportedPosts(toCreate[..n], dummy, now);
      FreshPostsMembers(apiPosts, existing);
      forall a, b | 0 <= a < b < |st'.posts|
        ensures st'.posts[a].id != st'.posts[b].id
      {
        if |st.posts| <= a {
          assert toCreate[..n][a - |st.posts|] == toCreate[a - |st.posts|];
          assert toCreate[..n][b - |st.posts|] == toCreate[b - |st.posts|];
        } else if |st.posts| <= b {
          var q := toCreate[b - |st.posts|];
          assert toCreate[..n][b - |st.posts|] == q;
          assert q in toCreate;
          IdSetListsDummyIds(st.posts);
          NotStoredUnlessListed(existing, st.posts, q.id, a);
        }
      }
    }
  }

  /** A stored post holding a `dummy_` id is among the `dummy_` posts, so
      its id is in the set taken before the loop. */
  lemma NotStoredUnlessListed(existing: set<Id>, posts: seq<Post>, id: nat, a: nat)
    requires a < |posts| && ListsDummyIds(existing, posts) && Named(DummyId(id)) !in existing
    ensures posts[a].id != Named(DummyId(id))
  {
  }

  /** Every stored `dummy_` id is in the set. */
  ghost predicate ListsDummyIds(existing: set<Id>, posts: seq<Post>) {
    forall a :: 0 <= a < |posts| && IsDummyPost(posts[a]) ==> posts[a].id in existing
  }

  /** The set taken before the loop lists every stored `dummy_` id. */
  lemma IdSetListsDummyIds(posts: seq<Post>)
    ensures ListsDummyIds(IdSet(DummyPosts(posts)), posts)
  {
    forall a | 0 <= a < |posts| && IsDummyPost(posts[a])
      ensures posts[a].id in IdSet(DummyPosts(posts))
    {
      var d := DummyPosts(posts);
      assert posts[a] in d;
      var k :| 0 <= k < |d| && d[k] == posts[a];
    }
  }

  /** With no dummy users the author fallback throws at the first new
      post: the reply is 500 and no post is created. */
  lemma NoUsersNoPosts(st: Store, apiPosts: seq<ApiPost>, now: int)
    requires |FreshPosts(apiPosts, IdSet(DummyPosts(st.posts)))| > 0
    ensures Sync(st, Got(apiPosts), Got([]), now) == (InternalError, st)
  {
  }

  /** The route as it runs: the user loop, then the post loop. */
  method HandlePost(db: Db, apiPosts: Fetched<seq<ApiPost>>, apiUsers: Fetched<seq<ApiUser>>, now: int) returns (reply: Reply)
    modifies db
    ensures (reply, db.Snapshot()) == Sync(old(db.Snapshot()), apiPosts, apiUsers, now)
  {
    if apiPosts.FetchError? || apiUsers.FetchError? {
      return InternalError;
    }
    ghost var st0 := db.Snapshot();
    var existingPosts := DummyPosts(db.posts);
    var existingPostIds := IdSet(existingPosts);
    var dummyUsers := UpsertUsers(db, apiUsers.value, now);
    ghost var st1 := db.Snapshot();
    ghost var toCreate := FreshPosts(apiPosts.value, existingPostIds);
    ghost var expected := ImportPosts(st1, dummyUsers, toCreate, |existingPosts|, now);
    assert Sync(st0, apiPosts, apiUsers, now) == expected;
    IdSetListsDummyIds(db.posts);
    var newPostsCount, failed := CreatePosts(db, apiPosts.value, existingPostIds, dummyUsers, now);
    if failed {
      reply := InternalError;
    } else {
      reply := Reply(200, Synced("Synced dummy posts with original data", newPostsCount, |existingPosts|));
    }
    assert db.Snapshot() == expected.1;
  }

  /** The user loop: one upsert per API user, in order. */
  method UpsertUsers(db: Db, apiUsers: seq<ApiUser>, now: int) returns (dummyUsers: seq<DummyUser>)
    modifies db
    ensures (db.Snapshot(), dummyUsers) == UpsertAll(old(db.Snapshot()), apiUsers, now)
  {
    dummyUsers := [];
    var i := 0;
    while i < |apiUsers|
      invariant 0 <= i <= |apiUsers|
      invariant (db.Snapshot(), dummyUsers) == UpsertAll(old(db.Snapshot()), apiUsers[..i], now)
    {
      assert apiUsers[..i + 1][..i] == apiUsers[..i];
      var d := UpsertUser(db, apiUsers[i], now);
      dummyUsers := dummyUsers + [d];
      i := i + 1;
    }
    assert apiUsers[..i] == apiUsers;
  }

  /** One upsert against the database. */
  method UpsertUser(db: Db, a: ApiUser, now: int) returns (d: DummyUser)
    modifies db
    ensures (db.Snapshot(), d) == UpsertOne(old(db.Snapshot()), a, now)
  {
    var email := a.username + "@dummy.com";
    var found := FindByEmail(db.users, email);
    if found.Some? {
      d := DummyUser(db.users[found.value], a.id);
    } else {
      var bio := if a.title != "" then a.title else "Dummy user";
      var u := User(Oid(db.nextOid), a.firstName + " " + a.lastName, a.username, email, bio, "", [], now);
      db.users := db.users + [u];
      db.nextOid := db.nextOid + 1;
      d := DummyUser(u, a.id);
    }
  }

  /** The post loop. It fails at the first post to create when there is no
      dummy user to fall back on, and otherwise at the first post whose
      `dummy_` id the table already holds, where `create` throws on the
      unique key; the rows created before the failure stay. */
  method CreatePosts(db: Db, posts: seq<ApiPost>, existingPostIds: set<Id>, dummyUsers: seq<DummyUser>, now: int)
    returns (newPostsCount: nat, failed: bool)
    requires ListsDummyIds(existingPostIds, db.posts)
    modifies db
    ensures var toCreate := FreshPosts(posts, existingPostIds);
      failed <==> (|dummyUsers| == 0 && |toCreate| > 0) || FirstRepeat(toCreate) < |toCreate|
    ensures !failed ==> newPostsCount == |FreshPosts(posts, existingPostIds)|
    ensures db.Snapshot() == old(db.Snapshot()).(posts := db.posts)
    ensures |dummyUsers| == 0 ==> db.posts == old(db.posts)
    ensures |dummyUsers| > 0 ==> var toCreate := FreshPosts(posts, existingPostIds);
              db.posts == old(db.posts) + ImportedPosts(toCreate[..FirstRepeat(toCreate)], dummyUsers, now)
  {
    newPostsCount := 0;
    failed := false;
    var j := 0;
    if |dummyUsers| > 0 {
      assert old(db.posts) + ImportedPosts([], dummyUsers, now) == old(db.posts);
    }
    while j < |posts|
      invariant 0 <= j <= |posts|
      invariant db.users == old(db.users) && db.comments == old(db.comments)
      invariant db.notifications == old(db.notifications) && db.nextOid == old(db.nextOid)
      invariant newPostsCount == |FreshPosts(posts[..j], existingPostIds)|
      invariant Progress(db.posts, old(db.posts), FreshPosts(posts[..j], existingPostIds), dummyUsers, now)
    {
      var stop;
      newPostsCount, stop := CreateNext(db, posts, j, existingPostIds, dummyUsers, now, old(db.posts), newPostsCount);
      if stop {
        return newPostsCount, true;
      }
      j := j + 1;
    }
    assert posts[..j] == posts;
    CreateEnd(posts, existingPostIds);
  }

  /** The post loop's state once the posts `created` are done: they have
      distinct ids, and the table is the old one plus their rows (without a
      dummy user nothing has been created). */
  ghost predicate Progress(rows: seq<Post>, base: seq<Post>, created: seq<ApiPost>, dummy: seq<DummyUser>, now: int) {
    && DistinctIds(created)
    && (|dummy| > 0 ==> rows == base + ImportedPosts(created, dummy, now))
    && (|dummy| == 0 ==> |created| == 0 && rows == base)
  }

  /** One pass of the post loop, over `posts[j]`: skip a stored id, throw
      without an author, throw on an id the table already has, or create the
      row. A throw stops the loop with the route's failure state. */
  method CreateNext(db: Db, posts: seq<ApiPost>, j: nat, existingPostIds: set<Id>, dummyUsers: seq<DummyUser>,
                    now: int, ghost base: seq<Post>, count: nat)
    returns (count': nat, stop: bool)
    requires j < |posts| && ListsDummyIds(existingPostIds, base)
    requires count == |FreshPosts(posts[..j], existingPostIds)|
    requires Progress(db.posts, base, FreshPosts(posts[..j], existingPostIds), dummyUsers, now)
    modifies db
    ensures db.users == old(db.users) && db.comments == old(db.comments)
    ensures db.notifications == old(db.notifications) && db.nextOid == old(db.nextOid)
    ensures !stop ==> && count' == |FreshPosts(posts[..j + 1], existingPostIds)|
                      && Progress(db.posts, base, FreshPosts(posts[..j + 1], existingPostIds), dummyUsers, now)
    ensures stop ==> var toCreate := FreshPosts(posts, existingPostIds);
      && ((|dummyUsers| == 0 && |toCreate| > 0) || FirstRepeat(toCreate) < |toCreate|)
      && (|dummyUsers| == 0 ==> db.posts == base)
      && (|dummyUsers| > 0 ==> db.posts == base + ImportedPosts(toCreate[..FirstRepeat(toCreate)], dummyUsers, now))
  {
    var apiPost := posts[j];
    var postId := DummyId(apiPost.id);
    if Named(postId) in existingPostIds {
      FreshSkip(posts, j, existingPostIds);
      return count, false;
    }
    var author := AuthorOf(dummyUsers, apiPost.userId);
    if author.None? {
      FreshPrefixGrows(posts, j, existingPostIds);
      return count, true;
    }
    if HasId(db.posts, Named(postId)) {
      TakenMeansRepeat(existingPostIds, base, FreshPosts(posts[..j], existingPostIds), apiPost, dummyUsers, now);
      RepeatStep(posts, j, existingPostIds);
      return count, true;
    }
    CreateStep(posts, j, existingPostIds, base, dummyUsers, now);
    db.posts := db.posts + [Imported(apiPost, author.value, count, now)];
    return count + 1, false;
  }

  /** A post whose id is new to the table is created: the posts created so
      far stay distinct and its row is numbered after theirs. */
  lemma CreateStep(posts: seq<ApiPost>, j: nat, existing: set<Id>, base: seq<Post>, dummy: seq<DummyUser>, now: int)
    requires j < |posts| && |dummy| > 0 && Named(DummyId(posts[j].id)) !in existing
    requires DistinctIds(FreshPosts(posts[..j], existing))
    requires !HasId(base + ImportedPosts(FreshPosts(posts[..j], existing), dummy, now), Named(DummyId(posts[j].id)))
    ensures var c := FreshPosts(posts[..j], existing);
      && FreshPosts(posts[..j + 1], existing) == c + [posts[j]]
      && DistinctIds(c + [posts[j]])
      && base + ImportedPosts(c + [posts[j]], dummy, now)
         == base + ImportedPosts(c, dummy, now) + [Imported(posts[j], AuthorOf(dummy, posts[j].userId).value, |c|, now)]
  {
    var c := FreshPosts(posts[..j], existing);
    var p := posts[j];
    FreshExtend(posts, j, existing);
    var t := base + ImportedPosts(c, dummy, now);
    HasIdAt(t, Named(DummyId(p.id)));
    NotTakenExtendsDistinct(base, c, p, dummy, now);
    ImportedAppend(c, p, dummy, now);
    var row := Imported(p, AuthorOf(dummy, p.userId).value, |c|, now);
    assert base + ImportedPosts(c + [p], dummy, now) == base + (ImportedPosts(c, dummy, now) + [row]);
    assert base + (ImportedPosts(c, dummy, now) + [row]) == t + [row];
  }

  /** A post whose id a row created in this loop already has stops the
      loop, right at the first repeat of the posts to create. */
  lemma RepeatStep(posts: seq<ApiPost>, j: nat, existing: set<Id>)
    requires j < |posts| && Named(DummyId(posts[j].id)) !in existing
    requires DistinctIds(FreshPosts(posts[..j], existing))
    requires var c := FreshPosts(posts[..j], existing);
      exists a :: 0 <= a < |c| && DummyId(c[a].id) == DummyId(posts[j].id)
    ensures var c := FreshPosts(posts[..j], existing);
      var toCreate := FreshPosts(posts, existing);
      FirstRepeat(toCreate) == |c| < |toCreate| && toCreate[..|c|] == c
  {
    var c := FreshPosts(posts[..j], existing);
    var toCreate := FreshPosts(posts, existing);
    FreshExtend(posts, j, existing);
    FreshPrefix(posts, j + 1, existing);
    assert toCreate[..|c| + 1] == c + [posts[j]];
    StopsAtRepeat(toCreate, c, posts[j]);
  }

  /** A loop that met no repeat created every post to create. */
  lemma CreateEnd(posts: seq<ApiPost>, existing: set<Id>)
    requires DistinctIds(FreshPosts(posts, existing))
    ensures var toCreate := FreshPosts(posts, existing);
      FirstRepeat(toCreate) == |toCreate| && toCreate[..|toCreate|] == toCreate
  {
    var toCreate := FreshPosts(posts, existing);
    assert toCreate[..|toCreate|] == toCreate;
    FirstRepeatUnique(toCreate, |toCreate|);
  }

  /** Some row of the table has the id, so a `create` with it would break
      the unique key on post ids. */
  predicate HasId(rows: seq<Post>, id: Id) {
    |rows| > 0 && (rows[|rows| - 1].id == id || HasId(rows[..|rows| - 1], id))
  }

  lemma {:induction false} HasIdAt(rows: seq<Post>, id: Id)
    ensures HasId(rows, id) <==> exists k :: 0 <= k < |rows| && rows[k].id == id
  {
    if |rows| > 0 {
      var init := rows[..|rows| - 1];
      HasIdAt(init, id);
      if HasId(init, id) {
        var k :| 0 <= k < |init| && init[k].id == id;
        assert rows[k] == init[k];
      }
      if exists k :: 0 <= k < |rows| && rows[k].id == id {
        var k :| 0 <= k < |rows| && rows[k].id == id;
        if k < |init| {
          assert init[k] == rows[k];
        }
      }
    }
  }

  /** A `dummy_` id already in the table, when it was not there before the
      loop, belongs to a row this loop created from an earlier post. */
  lemma TakenMeansRepeat(existing: set<Id>, base: seq<Post>, before: seq<ApiPost>, p: ApiPost,
                          dummy: seq<DummyUser>, now: int)
    requires |dummy| > 0
    requires ListsDummyIds(existing, base) && Named(DummyId(p.id)) !in existing
    requires HasId(base + ImportedPosts(before, dummy, now), Named(DummyId(p.id)))
    ensures exists a :: 0 <= a < |before| && DummyId(before[a].id) == DummyId(p.id)
  {
    var t := base + ImportedPosts(before, dummy, now);
    HasIdAt(t, Named(DummyId(p.id)));
    var k :| 0 <= k < |t| && t[k].id == Named(DummyId(p.id));
    if k < |base| {
      NotStoredUnlessListed(existing, base, p.id, k);
    } else {
      assert DummyId(before[k - |base|].id) == DummyId(p.id);
    }
  }

  /** An id not yet in the table keeps the posts created so far distinct. */
  lemma NotTakenExtendsDistinct(base: seq<Post>, before: seq<ApiPost>, p: ApiPost, dummy: seq<DummyUser>, now: int)
    requires |dummy| > 0 && DistinctIds(before)
    requires var t := base + ImportedPosts(before, dummy, now);
      forall k :: 0 <= k < |t| ==> t[k].id != Named(DummyId(p.id))
    ensures DistinctIds(before + [p])
  {
    var t := base + ImportedPosts(before, dummy, now);
    var e := before + [p];
    forall a, b | 0 <= a < b < |e|
      ensures DummyId(e[a].id) != DummyId(e[b].id)
    {
      if b == |before| {
        assert t[|base| + a].id == Named(DummyId(before[a].id));
      }
    }
  }

  /** Meeting a repeated id right after the distinct prefix `before` puts
      the first repeat of the whole list there. */
  lemma StopsAtRepeat(toCreate: seq<ApiPost>, before: seq<ApiPost>, p: ApiPost)
    requires |before| + 1 <= |toCreate| && toCreate[..|before| + 1] == before + [p]
    requires DistinctIds(before)
    requires exists a :: 0 <= a < |before| && DummyId(before[a].id) == DummyId(p.id)
    ensures FirstRepeat(toCreate) == |before| && toCreate[..|before|] == before
  {
    var n := |before|;
    var a :| 0 <= a < n && DummyId(before[a].id) == DummyId(p.id);
    PrefixParts(toCreate, before, p, a);
    FirstRepeatUnique(toCreate, n);
  }

  /** A prefix `before + [p]` of `ps` fixes its first elements and the next. */
  lemma PrefixParts(ps: seq<ApiPost>, before: seq<ApiPost>, p: ApiPost, a: nat)
    requires |before| + 1 <= |ps| && ps[..|before| + 1] == before + [p] && a < |before|
    ensures ps[..|before|] == before && ps[a] == before[a] && ps[|before|] == p
  {
    var e := ps[..|before| + 1];
    assert ps[..|before|] == e[..|before|];
    assert ps[a] == e[a];
    assert ps[|before|] == e[|before|];
  }

  /** The posts to create among a prefix of the payload are a prefix of
      those among the whole payload. */
  lemma {:induction false} FreshPrefix(posts: seq<ApiPost>, j: nat, existing: set<Id>)
    requires j <= |posts|
    ensures var a := FreshPosts(posts[..j], existing);
      var b := FreshPosts(posts, existing);
      |a| <= |b| && b[..|a|] == a
    decreases |posts|
  {
    if j == |posts| {
      assert posts[..j] == posts;
    } else {
      var init := posts[..|posts| - 1];
      assert init[..j] == posts[..j];
      FreshPrefix(init, j, existing);
    }
  }

  /** The posts to create among one more API post. */
  lemma FreshExtend(posts: seq<ApiPost>, j: nat, existing: set<Id>)
    requires j < |posts|
    ensures FreshPosts(posts[..j + 1], existing)
            == FreshPosts(posts[..j], existing) + (if Named(DummyId(posts[j].id)) !in existing then [posts[j]] else [])
  {
    var q := posts[..j + 1];
    assert q[..|q| - 1] == posts[..j];
  }

  /** An API post whose `dummy_` id is already stored adds nothing to create. */
  lemma FreshSkip(posts: seq<ApiPost>, j: nat, existing: set<Id>)
    requires j < |posts| && Named(DummyId(posts[j].id)) in existing
    ensures FreshPosts(posts[..j + 1], existing) == FreshPosts(posts[..j], existing)
  {
    FreshExtend(posts, j, existing);
    var c := FreshPosts(posts[..j], existing);
    assert c + [] == c;
  }

  /** One more post to create is one more row, numbered after the others. */
  lemma ImportedAppend(before: seq<ApiPost>, p: ApiPost, dummy: seq<DummyUser>, now: int)
    requires |dummy| > 0
    ensures ImportedPosts(before + [p], dummy, now)
            == ImportedPosts(before, dummy, now) + [Imported(p, AuthorOf(dummy, p.userId).value, |before|, now)]
  {
    var all := before + [p];
    var r := ImportedPosts(all, dummy, now);
    var b := ImportedPosts(before, dummy, now);
    var e := b + [Imported(p, AuthorOf(dummy, p.userId).value, |before|, now)];
    assert |r| == |e|;
    forall k | 0 <= k < |r|
      ensures r[k] == e[k]
    {
      assert r[k] == Imported(all[k], AuthorOf(dummy, all[k].userId).value, k, now);
      if k < |before| {
        assert all[k] == before[k];
        assert e[k] == b[k];
      } else {
        assert all[k] == p;
      }
    }
  }

  /** Once a post to create is met, the list of posts to create is not empty. */
  lemma {:induction false} FreshPrefixGrows(posts: seq<ApiPost>, j: nat, existing: set<Id>)
    requires j < |posts| && Named(DummyId(posts[j].id)) !in existing
    ensures |FreshPosts(posts, existing)| > 0
  {
    FreshPostsMembers(posts, existing);
    assert posts[j] in FreshPosts(posts, existing);
  }
}
