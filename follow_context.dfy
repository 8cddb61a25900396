/** The client-side follow counters of the social clone: the signed-in
    user's following and follower counts and a loading flag, updated by the
    follow action, by the stats fetch and by follower events. The session
    email and what each request answered are inputs; the requests run one
    at a time. */
module FollowContext {
  import opened Common

  /** What `POST /api/follow` answered: an ok reply with its `following`
      flag, a reply that is not ok, or a thrown error. */
  datatype FollowReply = FollowOk(following: bool) | FollowNotOk | FollowThrew

  /** What `GET /api/user/stats` answered. */
  datatype StatsReply = StatsOk(following: int, followers: int) | StatsNotOk | StatsThrew

  /** The context's three state values. */
  datatype Counts = Counts(followingCount: int, followersCount: int, loading: bool)

  /** The `followStateChanged` event `performFollow` dispatches. */
  datatype FollowEvent = FollowEvent(userId: string, isFollowing: bool)

  /** `!session?.user?.email`: no email, or the empty one. */
  predicate SignedOut(email: Option<string>) {
    email.None? || email.value == ""
  }

  /** `performFollow(userId)`: the new counts, the value returned, and the
      event dispatched, if any. Only an ok reply moves a count, by one in
      the direction of its flag, with no lower bound. */
  function AfterFollow(c: Counts, email: Option<string>, userId: string, reply: FollowReply)
    : (o: (Counts, Option<bool>, Option<FollowEvent>))
    ensures c.loading || SignedOut(email) ==> o == (c, None, None)
    ensures !c.loading && !SignedOut(email) ==> !o.0.loading && o.0.followersCount == c.followersCount
    ensures !c.loading && !SignedOut(email) && reply.FollowOk? ==>
              && o.1 == Some(reply.following)
              && o.0.followingCount == c.followingCount + (if reply.following then 1 else -1)
              && o.2 == Some(FollowEvent(userId, reply.following))
    ensures !reply.FollowOk? ==> o.1.None? && o.2.None? && o.0.followingCount == c.followingCount
  {
    if c.loading || SignedOut(email) then (c, None, None)
    else match reply
      case FollowOk(following) =>
        (c.(followingCount := if following then c.followingCount + 1 else c.followingCount - 1),
         Some(following), Some(FollowEvent(userId, following)))
      case _ => (c, None, None)
  }

  /** `fetchFollowCounts`: an ok reply replaces both counts. */
  function AfterFetch(c: Counts, email: Option<string>, reply: StatsReply): (r: Counts)
    ensures SignedOut(email) || !reply.StatsOk? ==> r == c
    ensures !SignedOut(email) && reply.StatsOk? ==>
              r == Counts(reply.following, reply.followers, c.loading)
  {
    if SignedOut(email) then c
    else match reply
      case StatsOk(following, followers) => c.(followingCount := following, followersCount := followers)
      case _ => c
  }

  /** `updateFollowerCount(increment)`. */
  function AfterFollowerEvent(c: Counts, increment: bool): (r: Counts)
    ensures r.followersCount == c.followersCount + (if increment then 1 else -1)
    ensures r.followingCount == c.followingCount && r.loading == c.loading
  {
    c.(followersCount := if increment then c.followersCount + 1 else c.followersCount - 1)
  }

  /** A follow answered `true` and then `false` leaves the counts where
      they were. */
  lemma FollowThenUnfollowRestores(c: Counts, email: string, userId: string)
    requires !c.loading && email != ""
    ensures var c1 := AfterFollow(c, Some(email), userId, FollowOk(true)).0;
      AfterFollow(c1, Some(email), userId, FollowOk(false)).0 == c
  {
  }

  /** The following count is not clamped: an unfollow answer at zero makes
      it negative. */
  lemma UnfollowAtZeroGoesNegative(email: string, userId: string)
    requires email != ""
    ensures AfterFollow(Counts(0, 0, false), Some(email), userId, FollowOk(false)).0.followingCount == -1
  {
  }

  /** The number of ok `true` answers minus the number of ok `false`
      answers. */
  function Net(replies: seq<FollowReply>): (n: int)
    ensures -|replies| <= n <= |replies|
  {
    if |replies| == 0 then 0
    else
      var last := replies[|replies| - 1];
      Net(replies[..|replies| - 1]) + (if last.FollowOk? then (if last.following then 1 else -1) else 0)
  }

  /** `performFollow` called once per answer, in order. */
  function FollowAll(c: Counts, email: Option<string>, userId: string, replies: seq<FollowReply>): Counts {
    if |replies| == 0 then c
    else AfterFollow(FollowAll(c, email, userId, replies[..|replies| - 1]), email, userId, replies[|replies| - 1]).0
  }

  /** Any number of `performFollow` calls ends with the flag cleared, the
      follower count untouched and the following count moved by `Net`. */
  lemma {:induction false} FollowAllMovesByNet(c: Counts, email: string, userId: string, replies: seq<FollowReply>)
    requires !c.loading && email != ""
    ensures var r := FollowAll(c, Some(email), userId, replies);
      && !r.loading && r.followersCount == c.followersCount
      && r.followingCount == c.followingCount + Net(replies)
  {
    if |replies| > 0 {
      FollowAllMovesByNet(c, email, userId, replies[..|replies| - 1]);
    }
  }

  /** The provider's state. */
  class Provider {
    var followingCount: int
    var followersCount: int
    var loading: bool

    function Snapshot(): (c: Counts)
      reads this
      ensures c.followingCount == followingCount && c.followersCount == followersCount && c.loading == loading
    {
      Counts(followingCount, followersCount, loading)
    }

    constructor()
      ensures Snapshot() == Counts(0, 0, false)
    {
      followingCount, followersCount, loading := 0, 0, false;
    }

    /** `performFollow`: the loading flag is raised around the request and
        cleared in `finally`. */
    method PerformFollow(email: Option<string>, userId: string, reply: FollowReply)
      returns (result: Option<bool>, event: Option<FollowEvent>)
      modifies this
      ensures (Snapshot(), result, event) == AfterFollow(old(Snapshot()), email, userId, reply)
    {
      if loading || email.None? || email.value == "" {
        return None, None;
      }
      loading := true;
      result, event := None, None;
      if reply.FollowOk? {
        followingCount := if reply.following then followingCount + 1 else followingCount - 1;
        event := Some(FollowEvent(userId, reply.following));
        result := Some(reply.following);
      }
      loading := false;
    }

    method FetchFollowCounts(email: Option<string>, reply: StatsReply)
      modifies this
      ensures Snapshot() == AfterFetch(old(Snapshot()), email, reply)
    {
      if email.None? || email.value == "" {
        return;
      }
      if reply.StatsOk? {
        followingCount := reply.following;
        followersCount := reply.followers;
      }
    }

    method UpdateFollowerCount(increment: bool)
      modifies this
      ensures Snapshot() == AfterFollowerEvent(old(Snapshot()), increment)
    {
      followersCount := if increment then followersCount + 1 else followersCount - 1;
    }
  }
}
