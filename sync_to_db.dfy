/** `POST /api/posts/sync-to-db` of the social clone: imports at most the
    first ten posts of the sample API, skipping any whose body is already
    stored (looked up afresh on every iteration), creating a `user<id>`
    account for each new author on demand. The fetched payload and
    `Date.now()` are inputs. */
module SyncToDb {
  import opened Common
  import opened SocialDb

  /** A post of the sample API. */
  datatype ApiPost = ApiPost(id: int, body: string, userId: int)

  datatype Body = Synced(message: string, synced: nat) | Error(error: string)

  datatype Reply = Reply(status: int, body: Body)

  const BatchSize := 10
  const HourMs := 3600000

  /** `slice(0, 10)` */
  function Batch(apiPosts: seq<ApiPost>): (r: seq<ApiPost>)
    ensures |r| <= BatchSize && |r| <= |apiPosts| && r == apiPosts[..|r|]
    ensures |apiPosts| >= BatchSize ==> |r| == BatchSize
  {
    if |apiPosts| <= BatchSize then apiPosts else apiPosts[..BatchSize]
  }

  /** `findFirst({ where: { body } })` finds a row. */
  predicate BodyStored(posts: seq<Post>, body: string) {
    exists j :: 0 <= j < |posts| && posts[j].body == body
  }

  function AuthorEmail(userId: int): string {
    "user" + IntToString(userId) + "@dummy.com"
  }

  /** The `upsert` with an empty update: the row with that email, or a new
      `User <id>` account. */
  function UpsertAuthor(st: Store, userId: int, now: int): (o: (Store, User))
    ensures o.1.email == AuthorEmail(userId) && o.1 in o.0.users
    ensures |o.0.users| >= |st.users| && o.0.users[..|st.users|] == st.users
    ensures o.0.posts == st.posts
    ensures FindByEmail(st.users, AuthorEmail(userId)).Some? ==>
              o.0 == st && o.1 == st.users[FindByEmail(st.users, AuthorEmail(userId)).value]
    ensures FindByEmail(st.users, AuthorEmail(userId)).None? ==>
              && o.0.users == st.users + [o.1] && o.1.id == Oid(st.nextOid) && o.0.nextOid > st.nextOid
              && o.1.name == "User " + IntToString(userId) && o.1.followingIds == []
  {
    var email := AuthorEmail(userId);
    match FindByEmail(st.users, email)
    case Some(i) =>
      assert st.users[..|st.users|] == st.users;
      (st, st.users[i])
    case None =>
      var u := User(Oid(st.nextOid), "User " + IntToString(userId), "user" + IntToString(userId), email,
                    "Dummy user", "", [], now);
      (st.(users := st.users + [u], nextOid := st.nextOid + 1), u)
  }

  /** One iteration of the loop: skip a stored body, or create the post. */
  function Step(st: Store, p: ApiPost, now: int): (o: (Store, bool))
    ensures !o.1 ==> o.0 == st
    ensures o.1 ==> !BodyStored(st.posts, p.body) && |o.0.posts| == |st.posts| + 1
    ensures o.0.posts[..|st.posts|] == st.posts
    ensures o.1 ==> var q := o.0.posts[|st.posts|];
              q.body == p.body && q.createdAt == now - p.id * HourMs && q.likedIds == []
    ensures o.1 ==> |o.0.users| >= |st.users| && o.0.users[..|st.users|] == st.users
    ensures o.1 ==> exists j :: 0 <= j < |o.0.users| && o.0.users[j].email == AuthorEmail(p.userId)
                                 && o.0.users[j].id == o.0.posts[|st.posts|].userId
  {
    if BodyStored(st.posts, p.body) then
      assert st.posts[..|st.posts|] == st.posts;
      (st, false)
    else
      var (st1, author) := UpsertAuthor(st, p.userId, now);
      var post := Post(Oid(st1.nextOid), p.body, author.id, now - p.id * HourMs, []);
      var st2 := st1.(posts := st1.posts + [post], nextOid := st1.nextOid + 1);
      assert st2.posts[..|st.posts|] == st.posts;
      (st2, true)
  }

  /** One iteration applied to the store and `syncedCount` so far. */
  function Advance(acc: (Store, nat), p: ApiPost, now: int): (o: (Store, nat))
    ensures |o.0.posts| == |acc.0.posts| + (o.1 - acc.1) && acc.1 <= o.1 <= acc.1 + 1
    ensures o.0.posts[..|acc.0.posts|] == acc.0.posts
  {
    var (st, created) := Step(acc.0, p, now);
    (st, acc.1 + if created then 1 else 0)
  }

  /** The loop over a prefix of the batch: the store and `syncedCount`. */
  function Run(st: Store, ps: seq<ApiPost>, now: int): (o: (Store, nat))
    ensures o.1 <= |ps|
    ensures |o.0.posts| == |st.posts| + o.1 && o.0.posts[..|st.posts|] == st.posts
  {
    if |ps| == 0 then
      assert st.posts[..|st.posts|] == st.posts;
      (st, 0)
    else
      var before := Run(st, ps[..|ps| - 1], now);
      var after := Advance(before, ps[|ps| - 1], now);
      assert after.0.posts[..|st.posts|] == before.0.posts[..|before.0.posts|][..|st.posts|];
      after
  }

  /** `Synced ${syncedCount} posts to database with exact details` */
  function SyncMessage(n: nat): string {
    "Synced " + NatToString(n) + " posts to database with exact details"
  }

  /** The route as a transition of the database. */
  function Sync(st: Store, apiPosts: Fetched<seq<ApiPost>>, now: int): (o: (Reply, Store))
    ensures apiPosts.FetchError? ==> o == (Reply(500, Error(apiPosts.message)), st)
    ensures o.0.status == 200 ==> o.0.body.Synced? && o.0.body.synced <= BatchSize
    ensures o.0.status == 200 ==> |o.1.posts| == |st.posts| + o.0.body.synced
    ensures apiPosts.Got? ==> var r := Run(st, Batch(apiPosts.value), now);
              o == (Reply(200, Synced(SyncMessage(r.1), r.1)), r.0)
  {
    if apiPosts.FetchError? then (Reply(500, Error(apiPosts.message)), st)
    else
      var (st', n) := Run(st, Batch(apiPosts.value), now);
      (Reply(200, Synced(SyncMessage(n), n)), st')
  }

  /** `posts` extends `base` with rows whose bodies are pairwise distinct
      and none of which `base` stored. */
  ghost predicate FreshDistinct(base: seq<Post>, posts: seq<Post>) {
    && |base| <= |posts| && posts[..|base|] == base
    && (forall k :: |base| <= k < |posts| ==> !BodyStored(base, posts[k].body))
    && (forall k, m :: |base| <= k < m < |posts| ==> posts[k].body != posts[m].body)
  }

  lemma AppendFreshDistinct(base: seq<Post>, posts: seq<Post>, q: Post)
    requires FreshDistinct(base, posts) && !BodyStored(posts, q.body)
    ensures FreshDistinct(base, posts + [q])
  {
    var w := posts + [q];
    assert w[..|base|] == posts[..|base|];
    assert forall j :: 0 <= j < |base| ==> base[j] == posts[j];
  }

  /** The bodies of the rows a run created are pairwise distinct and none
      was stored before: a body repeated within the batch is created once. */
  lemma {:induction false} RunCreatesDistinctBodies(st: Store, ps: seq<ApiPost>, now: int)
    ensures FreshDistinct(st.posts, Run(st, ps, now).0.posts)
    decreases |ps|
  {
    if |ps| == 0 {
      assert st.posts[..|st.posts|] == st.posts;
    } else {
      var st1 := Run(st, ps[..|ps| - 1], now).0;
      RunCreatesDistinctBodies(st, ps[..|ps| - 1], now);
      var (st2, created) := Step(st1, ps[|ps| - 1], now);
      assert Run(st, ps, now).0 == st2;
      if created {
        assert st2.posts == st1.posts + [st2.posts[|st1.posts|]];
        AppendFreshDistinct(st.posts, st1.posts, st2.posts[|st1.posts|]);
      }
    }
  }

  /** Every body of the batch is stored once the run is over: each was
      either found or created. */
  lemma {:induction false} RunStoresEveryBody(st: Store, ps: seq<ApiPost>, now: int)
    ensures forall k :: 0 <= k < |ps| ==> BodyStored(Run(st, ps, now).0.posts, ps[k].body)
    decreases |ps|
  {
    if |ps| > 0 {
      var init := ps[..|ps| - 1];
      var (st1, n1) := Run(st, init, now);
      RunStoresEveryBody(st, init, now);
      var (st2, created) := Step(st1, ps[|ps| - 1], now);
      forall k | 0 <= k < |ps|
        ensures BodyStored(st2.posts, ps[k].body)
      {
        if k < |ps| - 1 {
          assert ps[k] == init[k];
          var j :| 0 <= j < |st1.posts| && st1.posts[j].body == ps[k].body;
          assert st2.posts[j] == st1.posts[j] by {
            assert st2.posts[..|st1.posts|] == st1.posts;
          }
        } else if created {
          assert st2.posts[|st1.posts|].body == ps[k].body;
        }
      }
    }
  }

  /** A fetched payload is answered 200 with the number of posts created;
      afterwards every body of the first ten posts is stored, the rows created
      have pairwise distinct bodies none of which was stored before, and the
      earlier rows are kept. */
  lemma SyncOutcome(st: Store, apiPosts: seq<ApiPost>, now: int)
    ensures var (reply, st') := Sync(st, Got(apiPosts), now);
            && reply.status == 200 && reply.body.Synced?
            && reply.body.message == SyncMessage(reply.body.synced)
            && |st'.posts| == |st.posts| + reply.body.synced
            && FreshDistinct(st.posts, st'.posts)
            && forall k :: 0 <= k < |apiPosts| && k < BatchSize ==> BodyStored(st'.posts, apiPosts[k].body)
  {
    var batch := Batch(apiPosts);
    RunCreatesDistinctBodies(st, batch, now);
    RunStoresEveryBody(st, batch, now);
    forall k | 0 <= k < |apiPosts| && k < BatchSize
      ensures apiPosts[k] == batch[k]
    {
    }
  }

  /** The run over one more post is the run so far followed by one step. */
  lemma RunStep(st0: Store, batch: seq<ApiPost>, i: nat, now: int,
                before: Store, n: nat, after: Store, created: bool)
    requires i < |batch|
    requires (before, n) == Run(st0, batch[..i], now)
    requires (after, created) == Step(before, batch[i], now)
    ensures (after, if created then n + 1 else n) == Run(st0, batch[..i + 1], now)
  {
    var q := batch[..i + 1];
    assert q[..|q| - 1] == batch[..i] && q[|q| - 1] == batch[i];
    AdvanceByStep((before, n), batch[i], now, after, created);
  }

  /** `syncedCount` grows by one exactly when the step created a post. */
  lemma AdvanceByStep(acc: (Store, nat), p: ApiPost, now: int, after: Store, created: bool)
    requires (after, created) == Step(acc.0, p, now)
    ensures Advance(acc, p, now) == (after, if created then acc.1 + 1 else acc.1)
  {
  }

  /** The handler: the loop over the first ten posts. */
  method HandlePost(db: Db, apiPosts: Fetched<seq<ApiPost>>, now: int) returns (reply: Reply)
    modifies db
    ensures (reply, db.Snapshot()) == Sync(old(db.Snapshot()), apiPosts, now)
  {
    if apiPosts.FetchError? {
      return Reply(500, Error(apiPosts.message));
    }
    var batch := Batch(apiPosts.value);
    ghost var st0 := db.Snapshot();
    var syncedCount := 0;
    var i := 0;
    while i < |batch|
      invariant 0 <= i <= |batch|
      invariant (db.Snapshot(), syncedCount) == Run(st0, batch[..i], now)
    {
      syncedCount := ImportNext(db, batch, i, st0, syncedCount, now);
      i := i + 1;
    }
    assert batch[..i] == batch;
    reply := Reply(200, Synced(SyncMessage(syncedCount), syncedCount));
  }

  /** One pass of the handler's loop: `syncedCount` and the database follow
      the run over one more post. */
  method ImportNext(db: Db, batch: seq<ApiPost>, i: nat, ghost st0: Store, syncedCount: nat, now: int)
    returns (count: nat)
    requires i < |batch|
    requires (db.Snapshot(), syncedCount) == Run(st0, batch[..i], now)
    modifies db
    ensures (db.Snapshot(), count) == Run(st0, batch[..i + 1], now)
  {
    ghost var before := db.Snapshot();
    var created := ImportOne(db, batch[i], now);
    count := if created then syncedCount + 1 else syncedCount;
    RunStep(st0, batch, i, now, before, syncedCount, db.Snapshot(), created);
  }

  /** One iteration against the database. */
  method ImportOne(db: Db, p: ApiPost, now: int) returns (created: bool)
    modifies db
    ensures (db.Snapshot(), created) == Step(old(db.Snapshot()), p, now)
  {
    var existing := exists j :: 0 <= j < |db.posts| && db.posts[j].body == p.body;
    if existing {
      return false;
    }
    var email := AuthorEmail(p.userId);
    var found := FindByEmail(db.users, email);
    var author: User;
    if found.Some? {
      author := db.users[found.value];
    } else {
      author := User(Oid(db.nextOid), "User " + IntToString(p.userId), "user" + IntToString(p.userId), email,
                     "Dummy user", "", [], now);
      db.users := db.users + [author];
      db.nextOid := db.nextOid + 1;
    }
    db.posts := db.posts + [Post(Oid(db.nextOid), p.body, author.id, now - p.id * HourMs, [])];
    db.nextOid := db.nextOid + 1;
    created := true;
  }
}
