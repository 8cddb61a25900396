/** `/api/posts` of the second social clone: GET lists every post newest
    first with its comments newest first; POST creates a post for the
    signed-in user; DELETE removes a post its author asks to remove.
    `getAuthenticatedUser` throws without a session, and the error handler
    turns that into 500 "Internal Error". */
module PostsRoute {
  import opened Common
  import opened SocialDb
  import Ordering

  /** A post as GET returns it: the row, its author and its comments. */
  datatype PostView = PostView(post: Post, author: Option<User>, comments: seq<Comment>)

  datatype Body = Text(text: string) | Feed(posts: seq<PostView>) | Created(post: Post) | Deleted(success: bool)

  datatype Reply = Reply(status: int, body: Body)

  /** `handleApiError(error)` with its defaults. */
  const InternalError := Reply(500, Text("Internal Error"))

  function PostCreatedAt(p: Post): int { p.createdAt }

  function CommentCreatedAt(c: Comment): int { c.createdAt }

  /** The comments that belong to a post, in table order. */
  function CommentsOf(comments: seq<Comment>, postId: Id): (r: seq<Comment>)
    ensures forall c :: c in r <==> c in comments && c.postId == postId
    ensures multiset(r) <= multiset(comments)
  {
    if |comments| == 0 then []
    else
      var last := comments[|comments| - 1];
      assert comments == comments[..|comments| - 1] + [last];
      CommentsOf(comments[..|comments| - 1], postId) + (if last.postId == postId then [last] else [])
  }

  function ViewOf(st: Store, p: Post): (v: PostView)
    ensures v.post == p
    ensures Ordering.SortedDesc(v.comments, CommentCreatedAt)
    ensures forall c :: c in v.comments <==> c in st.comments && c.postId == p.id
    ensures v.author.Some? ==> v.author.value in st.users && v.author.value.id == p.userId
    ensures v.author.None? <==> forall j :: 0 <= j < |st.users| ==> st.users[j].id != p.userId
  {
    var mine := CommentsOf(st.comments, p.id);
    var sorted := Ordering.SortDesc(mine, CommentCreatedAt);
    assert forall c :: c in sorted <==> c in multiset(sorted);
    var author := match FindById(st.users, p.userId)
      case None => None
      case Some(i) => Some(st.users[i]);
    PostView(p, author, sorted)
  }

  /** The rows behind a list of views. */
  function Rows(vs: seq<PostView>): (r: seq<Post>)
    ensures |r| == |vs| && forall k :: 0 <= k < |vs| ==> r[k] == vs[k].post
  {
    seq(|vs|, k requires 0 <= k < |vs| => vs[k].post)
  }

  function Views(st: Store, rows: seq<Post>): (r: seq<PostView>)
    ensures Rows(r) == rows
    ensures forall k :: 0 <= k < |r| ==> r[k] == ViewOf(st, rows[k])
  {
    seq(|rows|, k requires 0 <= k < |rows| => ViewOf(st, rows[k]))
  }

  /** GET: every post, newest first, each with its author (a user carrying
      the post's userId, absent only when no user does) and exactly its own
      comments, newest first. */
  function Get(st: Store): (r: Reply)
    ensures r.status == 200 && r.body.Feed?
    ensures |r.body.posts| == |st.posts|
    ensures Ordering.SortedDesc(Rows(r.body.posts), PostCreatedAt)
    ensures multiset(Rows(r.body.posts)) == multiset(st.posts)
    ensures forall k :: 0 <= k < |r.body.posts| ==>
              && Ordering.SortedDesc(r.body.posts[k].comments, CommentCreatedAt)
              && (forall c :: c in r.body.posts[k].comments <==>
                    c in st.comments && c.postId == r.body.posts[k].post.id)
    ensures forall k :: 0 <= k < |r.body.posts| ==>
              && (r.body.posts[k].author.Some? ==>
                    r.body.posts[k].author.value in st.users
                    && r.body.posts[k].author.value.id == r.body.posts[k].post.userId)
              && (r.body.posts[k].author.None? <==>
                    forall j :: 0 <= j < |st.users| ==> st.users[j].id != r.body.posts[k].post.userId)
  {
    Reply(200, Feed(Views(st, Ordering.SortDesc(st.posts, PostCreatedAt))))
  }

  /** POST: `session` is the signed-in email, `body` the request's body
      field (absent and empty both falsy), `now` the creation time. */
  function Create(st: Store, session: Option<string>, body: Option<string>, now: int): (o: (Reply, Store))
    ensures session.None? || session.value == "" ==> o == (InternalError, st)
    ensures session.Some? && session.value != "" && (body.None? || body.value == "")
            ==> o == (Reply(400, Text("Body is required")), st)
    ensures o.0.status != 200 ==> o.1 == st
    ensures o.1.users == st.users && o.1.comments == st.comments && o.1.notifications == st.notifications
  {
    if session.None? || session.value == "" then (InternalError, st)
    else if body.None? || body.value == "" then (Reply(400, Text("Body is required")), st)
    else match FindByEmail(st.users, session.value)
      case None => (Reply(404, Text("User not found")), st)
      case Some(i) =>
        var post := Post(Oid(st.nextOid), body.value, st.users[i].id, now, []);
        (Reply(200, Created(post)), st.(posts := st.posts + [post], nextOid := st.nextOid + 1))
  }

  /** A signed-in, known user with a non-empty body gets exactly one new
      post, with that body and that user's id, under a fresh generated id. */
  lemma CreateOutcome(st: Store, email: string, body: string, now: int)
    requires email != "" && body != ""
    requires IdsBelowSupply(st)
    ensures var (reply, st') := Create(st, Some(email), Some(body), now);
      && (FindByEmail(st.users, email).None? ==> reply == Reply(404, Text("User not found")) && st' == st)
      && (FindByEmail(st.users, email).Some? ==>
            && reply.status == 200 && reply.body.Created?
            && st'.posts == st.posts + [reply.body.post]
            && reply.body.post.body == body
            && reply.body.post.userId == st.users[FindByEmail(st.users, email).value].id
            && (forall j :: 0 <= j < |st.posts| ==> st.posts[j].id != reply.body.post.id)
            && IdsBelowSupply(st'))
  {
  }

  /** The position of the post with the given id. */
  function FindPost(posts: seq<Post>, id: Id): (r: Option<nat>)
    ensures r.Some? ==> r.value < |posts| && posts[r.value].id == id
    ensures r.Some? ==> forall j :: 0 <= j < r.value ==> posts[j].id != id
    ensures r.None? ==> forall j :: 0 <= j < |posts| ==> posts[j].id != id
  {
    FirstWhere(posts, (p: Post) => p.id == id)
  }

  /** DELETE: `postId` is the `id` parameter (None when absent or empty).
      A missing post, an unknown signed-in user or another author's post
      are all 401. */
  function Delete(st: Store, session: Option<string>, postId: Option<Id>): (o: (Reply, Store))
    ensures session.None? || session.value == "" ==> o == (InternalError, st)
    ensures session.Some? && session.value != "" && postId.None?
            ==> o == (Reply(400, Text("Post ID is required")), st)
    ensures o.0.status != 200 ==> o.1 == st
    ensures o.1.users == st.users && o.1.comments == st.comments && o.1.nextOid == st.nextOid
  {
    if session.None? || session.value == "" then (InternalError, st)
    else if postId.None? then (Reply(400, Text("Post ID is required")), st)
    else
      var p := FindPost(st.posts, postId.value);
      var me := FindByEmail(st.users, session.value);
      if p.None? || me.None? || st.posts[p.value].userId != st.users[me.value].id then
        (Reply(401, Text("Unauthorized")), st)
      else
        (Reply(200, Deleted(true)), st.(posts := st.posts[..p.value] + st.posts[p.value + 1..]))
  }

  /** Only the author deletes, and exactly the one post: the others stay in
      their order. When post ids are unique, none with that id remains. */
  lemma DeleteOutcome(st: Store, email: string, id: Id)
    requires email != ""
    ensures var (reply, st') := Delete(st, Some(email), Some(id));
      && (reply.status == 200 <==>
            && FindPost(st.posts, id).Some? && FindByEmail(st.users, email).Some?
            && st.posts[FindPost(st.posts, id).value].userId == st.users[FindByEmail(st.users, email).value].id)
      && (reply.status != 200 ==> reply == Reply(401, Text("Unauthorized")) && st' == st)
      && (reply.status == 200 ==>
            && |st'.posts| == |st.posts| - 1
            && multiset(st'.posts) + multiset{st.posts[FindPost(st.posts, id).value]} == multiset(st.posts)
            && ((forall a, b :: 0 <= a < b < |st.posts| ==> st.posts[a].id != st.posts[b].id)
                  ==> forall j :: 0 <= j < |st'.posts| ==> st'.posts[j].id != id))
  {
    var (reply, st') := Delete(st, Some(email), Some(id));
    if reply.status == 200 {
      var p := FindPost(st.posts, id).value;
      assert st.posts == st.posts[..p] + [st.posts[p]] + st.posts[p + 1..];
      if forall a, b :: 0 <= a < b < |st.posts| ==> st.posts[a].id != st.posts[b].id {
        forall j | 0 <= j < |st'.posts|
          ensures st'.posts[j].id != id
        {
          if j < p {
            assert st'.posts[j] == st.posts[j];
          } else {
            assert st'.posts[j] == st.posts[j + 1];
          }
        }
      }
    }
  }

  /** POST as it runs against the database. */
  method HandlePost(db: Db, session: Option<string>, body: Option<string>, now: int) returns (reply: Reply)
    modifies db
    ensures (reply, db.Snapshot()) == Create(old(db.Snapshot()), session, body, now)
  {
    if session.None? || session.value == "" {
      return InternalError;
    }
    if body.None? || body.value == "" {
      return Reply(400, Text("Body is required"));
    }
    var me := FindByEmail(db.users, session.value);
    if me.None? {
      return Reply(404, Text("User not found"));
    }
    var post := Post(Oid(db.nextOid), body.value, db.users[me.value].id, now, []);
    db.posts := db.posts + [post];
    db.nextOid := db.nextOid + 1;
    reply := Reply(200, Created(post));
  }

  /** DELETE as it runs against the database. */
  method HandleDelete(db: Db, session: Option<string>, postId: Option<Id>) returns (reply: Reply)
    modifies db
    ensures (reply, db.Snapshot()) == Delete(old(db.Snapshot()), session, postId)
  {
    if session.None? || session.value == "" {
      return InternalError;
    }
    if postId.None? {
      return Reply(400, Text("Post ID is required"));
    }
    var me := FindByEmail(db.users, session.value);
    var p := FindPost(db.posts, postId.value);
    if p.None? || me.None? || db.posts[p.value].userId != db.users[me.value].id {
      return Reply(401, Text("Unauthorized"));
    }
    db.posts := db.posts[..p.value] + db.posts[p.value + 1..];
    reply := Reply(200, Deleted(true));
  }
}
