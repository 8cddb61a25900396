/** The database of the social clone, as the route handlers see it through
    Prisma: users (each holding the ids it follows), posts, comments and
    notifications. Rows created without an explicit id get a fresh
    generated id; `nextOid` is the supply of such ids. */
module SocialDb {
  import opened Common

  /** A row id: generated by the database, or chosen by the caller
      (the imported `dummy_<n>` posts). */
  datatype Id = Oid(n: nat) | Named(s: string)

  /** A user row. An absent username is the empty string: both are falsy. */
  datatype User = User(id: Id, name: string, username: string, email: string, bio: string,
                       hashedPassword: string, followingIds: seq<Id>, createdAt: int)

  datatype Post = Post(id: Id, body: string, userId: Id, createdAt: int, likedIds: seq<string>)

  datatype Comment = Comment(id: Id, body: string, userId: Id, postId: Id, createdAt: int)

  datatype Notification = Notification(id: Id, body: string, userId: Id)

  /** The whole database at one moment. */
  datatype Store = Store(users: seq<User>, posts: seq<Post>, comments: seq<Comment>,
                         notifications: seq<Notification>, nextOid: nat)

  /** Every generated id in use is below the supply, so the next one is fresh. */
  ghost predicate IdsBelowSupply(st: Store) {
    && (forall i :: 0 <= i < |st.users| ==> st.users[i].id.Oid? ==> st.users[i].id.n < st.nextOid)
    && (forall i :: 0 <= i < |st.posts| ==> st.posts[i].id.Oid? ==> st.posts[i].id.n < st.nextOid)
    && (forall i :: 0 <= i < |st.notifications| ==>
          st.notifications[i].id.Oid? ==> st.notifications[i].id.n < st.nextOid)
  }

  /** `findUnique({ where: { email } })`: the position of the user with that email. */
  function FindByEmail(users: seq<User>, email: string): (r: Option<nat>)
    ensures r.Some? ==> r.value < |users| && users[r.value].email == email
    ensures r.Some? ==> forall j :: 0 <= j < r.value ==> users[j].email != email
    ensures r.None? ==> forall j :: 0 <= j < |users| ==> users[j].email != email
  {
    if |users| == 0 then None
    else if users[0].email == email then Some(0)
    else match FindByEmail(users[1..], email)
      case None => None
      case Some(i) => Some(i + 1)
  }

  /** The position of the user row with the given id. */
  function FindById(users: seq<User>, id: Id): (r: Option<nat>)
    ensures r.Some? ==> r.value < |users| && users[r.value].id == id
    ensures r.Some? ==> forall j :: 0 <= j < r.value ==> users[j].id != id
    ensures r.None? ==> forall j :: 0 <= j < |users| ==> users[j].id != id
  {
    FirstWhere(users, (u: User) => u.id == id)
  }

  /** `user.findMany({ where: { followingIds: { has: id } } })`, in table order. */
  function Followers(users: seq<User>, id: Id): (r: seq<User>)
    ensures |r| <= |users|
    ensures forall u :: u in r <==> u in users && id in u.followingIds
  {
    if |users| == 0 then []
    else
      var last := users[|users| - 1];
      Followers(users[..|users| - 1], id) + (if id in last.followingIds then [last] else [])
  }

  /** `user.count({ where: { followingIds: { has: id } } })` */
  function FollowerCount(users: seq<User>, id: Id): (c: nat)
    ensures c <= |users|
    ensures (exists j :: 0 <= j < |users| && id in users[j].followingIds) ==> c > 0
  {
    |Followers(users, id)|
  }

  /** Every user follows `id` exactly when the count is the table size;
      nobody does exactly when it is zero. */
  lemma {:induction false} FollowerCountBounds(users: seq<User>, id: Id)
    ensures FollowerCount(users, id) == 0 <==> forall j :: 0 <= j < |users| ==> id !in users[j].followingIds
    ensures FollowerCount(users, id) == |users| <==> forall j :: 0 <= j < |users| ==> id in users[j].followingIds
    decreases |users|
  {
    if |users| > 0 {
      var init := users[..|users| - 1];
      FollowerCountBounds(init, id);
      assert forall j :: 0 <= j < |init| ==> init[j] == users[j];
    }
  }

  /** Replacing one user row changes every follower count by what the row
      stops or starts contributing: counts move only through edits of
      `followingIds`. */
  lemma {:induction false} FollowerCountAfterRowUpdate(users: seq<User>, i: nat, v: User, id: Id)
    requires i < |users|
    ensures FollowerCount(users[i := v], id) + (if id in users[i].followingIds then 1 else 0)
            == FollowerCount(users, id) + (if id in v.followingIds then 1 else 0)
    decreases |users|
  {
    var n := |users|;
    var w := users[i := v];
    assert w[..n - 1] == if i == n - 1 then users[..n - 1] else users[..n - 1][i := v];
    if i < n - 1 {
      FollowerCountAfterRowUpdate(users[..n - 1], i, v, id);
    }
  }

  /** The database, updated in place by the route handlers. */
  class Db {
    var users: seq<User>
    var posts: seq<Post>
    var comments: seq<Comment>
    var notifications: seq<Notification>
    var nextOid: nat

    constructor (st: Store)
      ensures Snapshot() == st
    {
      users := st.users;
      posts := st.posts;
      comments := st.comments;
      notifications := st.notifications;
      nextOid := st.nextOid;
    }

    function Snapshot(): (st: Store)
      reads this
      ensures st.users == users && st.posts == posts && st.comments == comments
      ensures st.notifications == notifications && st.nextOid == nextOid
    {
      Store(users, posts, comments, notifications, nextOid)
    }
  }
}
