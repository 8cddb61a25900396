/** The "Who to follow" box of the microservices copy of the social clone:
    the users it suggests, how many of them it shows, whether it links to
    more, and how a follow event elsewhere marks a shown user. The user
    list request's answer and the session are inputs. */
module WhoToFollow {
  import opened Common
  import opened UserUtils
  import ApiUtils

  /** Neither the signed-in user (by email) nor a user already followed. */
  predicate Suggestible(u: ClientUser, sessionEmail: Option<string>) {
    (sessionEmail.None? || u.email != sessionEmail.value) && !u.isFollowing
  }

  /** The `filter` over all users. */
  function Candidates(all: seq<ClientUser>, sessionEmail: Option<string>): (r: seq<ClientUser>)
    ensures |r| <= |all|
    ensures forall u :: u in r <==> u in all && Suggestible(u, sessionEmail)
  {
    Filter(all, (u: ClientUser) => Suggestible(u, sessionEmail))
  }

  /** The end index `slice(0, end)` uses on a list of length `len`: a
      negative end counts from the back. */
  function SliceEnd(len: nat, end: int): (e: nat)
    ensures e <= len
    ensures 0 <= end ==> e == if end < len then end else len
    ensures end < 0 ==> e == if len + end < 0 then 0 else len + end
  {
    if end < 0 then (if len + end < 0 then 0 else len + end)
    else if end < len then end else len
  }

  /** `otherUsers.slice(0, limit)` */
  function Shown(candidates: seq<ClientUser>, limit: int): (r: seq<ClientUser>)
    ensures |r| <= |candidates| && r == candidates[..|r|]
    ensures 0 <= limit ==> |r| == if limit < |candidates| then limit else |candidates|
  {
    candidates[..SliceEnd(|candidates|, limit)]
  }

  /** The "Show More" link. */
  function ShowsMoreLink(showMore: bool, totalUsers: int, limit: int): (shown: bool)
    ensures shown <==> showMore && totalUsers > limit
  {
    showMore && totalUsers > limit
  }

  /** With a non-negative limit, the link appears exactly when some
      suggestion is left out of the shown list. */
  lemma MoreLinkIffHidden(all: seq<ClientUser>, sessionEmail: Option<string>, limit: int)
    requires 0 <= limit
    ensures var c := Candidates(all, sessionEmail);
      ShowsMoreLink(true, |c|, limit) <==> |Shown(c, limit)| < |c|
  {
  }

  /** The `followStateChanged` handler's `map`: the matching entries take
      the new flag, every other field and entry is kept. */
  function MarkFollowing(users: seq<ClientUser>, userId: string, isFollowing: bool): (r: seq<ClientUser>)
    ensures |r| == |users|
    ensures forall i :: 0 <= i < |r| ==> r[i].id == users[i].id && r[i].email == users[i].email
    ensures forall i :: 0 <= i < |r| ==> r[i].isFollowing == (if users[i].id == userId then isFollowing else users[i].isFollowing)
    ensures forall i :: 0 <= i < |r| && users[i].id != userId ==> r[i] == users[i]
  {
    seq(|users|, i requires 0 <= i < |users| =>
      if users[i].id == userId then users[i].(isFollowing := isFollowing) else users[i])
  }

  /** A user followed through the event stays in the list, now marked as
      followed, so it is no longer one the filter would suggest; the next
      fetch drops it. */
  lemma FollowedUserStaysUntilRefetch(users: seq<ClientUser>, i: nat, sessionEmail: Option<string>)
    requires i < |users|
    ensures var r := MarkFollowing(users, users[i].id, true);
      r[i].id == users[i].id && r[i].isFollowing && !Suggestible(r[i], sessionEmail)
  {
  }

  /** Following and then unfollowing a suggested user restores the list. */
  lemma MarkTwiceRestores(users: seq<ClientUser>, userId: string)
    requires forall i :: 0 <= i < |users| && users[i].id == userId ==> !users[i].isFollowing
    ensures MarkFollowing(MarkFollowing(users, userId, true), userId, false) == users
  {
    var r := MarkFollowing(MarkFollowing(users, userId, true), userId, false);
    assert forall i :: 0 <= i < |users| ==> r[i] == users[i];
  }

  /** The widget's state. */
  class Widget {
    var users: seq<ClientUser>
    var totalUsers: int
    var loading: bool

    constructor()
      ensures users == [] && totalUsers == 0 && loading
    {
      users, totalUsers, loading := [], 0, true;
    }

    /** The fetch effect, run only with a session: on success the total is
        the number of suggestions and the list their first `limit`; a
        failed request keeps both. */
    method FetchUsers(signedIn: bool, sessionEmail: Option<string>, response: UsersResponse, limit: int)
      modifies this
      ensures !signedIn ==> users == old(users) && totalUsers == old(totalUsers) && loading == old(loading)
      ensures signedIn ==> !loading
      ensures signedIn && response.UsersOk? ==>
                && totalUsers == |Candidates(response.users, sessionEmail)|
                && users == Shown(Candidates(response.users, sessionEmail), limit)
      ensures response.UsersNotOk? ==> users == old(users) && totalUsers == old(totalUsers)
    {
      if !signedIn {
        return;
      }
      var all := FetchAllUsers(response);
      if all.Returned? {
        var otherUsers := Filter(all.value, (u: ClientUser) => Suggestible(u, sessionEmail));
        totalUsers := |otherUsers|;
        users := otherUsers[..SliceEnd(|otherUsers|, limit)];
      }
      loading := false;
    }

    method OnFollowStateChanged(userId: string, isFollowing: bool)
      modifies this
      ensures users == MarkFollowing(old(users), userId, isFollowing)
      ensures totalUsers == old(totalUsers) && loading == old(loading)
    {
      users := MarkFollowing(users, userId, isFollowing);
    }
  }
}
