/** The followers / following list of a profile in the social clone: the
    ids it derives from the profile and the user list, and the state the
    fetch leaves behind. Each request's answer is an input; the refetch on
    a follow event runs the same fetch again. */
module FollowListPage {
  import opened Common
  import opened UserUtils
  import ApiUtils

  datatype Tab = FollowersTab | FollowingTab

  /** `user.followingIds?.includes(id)`: an absent list follows nobody. */
  predicate FollowsId(u: ClientUser, id: string) {
    u.followingIds.Some? && id in u.followingIds.value
  }

  /** The ids of the users in `users`, in order. */
  function Ids(users: seq<ClientUser>): (ids: seq<string>)
    ensures |ids| == |users|
    ensures forall k :: 0 <= k < |users| ==> ids[k] == users[k].id
  {
    if |users| == 0 then [] else Ids(users[..|users| - 1]) + [users[|users| - 1].id]
  }

  /** The ids to list: the profile's own `followingIds` in stored order
      (none when absent), or the ids of every user following the profile. */
  function ListIds(tab: Tab, profile: ClientUser, all: seq<ClientUser>): (ids: seq<string>)
    ensures tab == FollowingTab ==> ids == if profile.followingIds.Some? then profile.followingIds.value else []
    ensures tab == FollowersTab ==> forall id :: id in ids <==>
              exists k :: 0 <= k < |all| && all[k].id == id && FollowsId(all[k], profile.id)
  {
    match tab
    case FollowingTab => if profile.followingIds.Some? then profile.followingIds.value else []
    case FollowersTab =>
      var followers := Filter(all, (u: ClientUser) => FollowsId(u, profile.id));
      var ids := Ids(followers);
      forall id
        ensures id in ids <==> exists k :: 0 <= k < |all| && all[k].id == id && FollowsId(all[k], profile.id)
      {
        if id in ids {
          var j :| 0 <= j < |ids| && ids[j] == id;
          assert followers[j] in all;
          var k :| 0 <= k < |all| && all[k] == followers[j];
        }
        if exists k :: 0 <= k < |all| && all[k].id == id && FollowsId(all[k], profile.id) {
          var k :| 0 <= k < |all| && all[k].id == id && FollowsId(all[k], profile.id);
          assert all[k] in followers;
          var j :| 0 <= j < |followers| && followers[j] == all[k];
          assert ids[j] == id;
        }
      }
      ids
  }

  /** What one run of `fetchUsers` sets the list to, if anything: `None` when
      the profile is missing or a request throws. */
  function Listed(tab: Tab, profile: ApiUtils.Outcome<Option<ClientUser>>, all: ApiUtils.Outcome<seq<ClientUser>>,
                  byIds: UsersResponse): (r: Option<seq<ClientUser>>)
    ensures profile.Threw? || (profile.Returned? && profile.value.None?) ==> r.None?
    ensures (&& profile.Returned? && profile.value.Some?
             && |ListIds(tab, profile.value.value, if all.Returned? then all.value else [])| == 0
             && (tab == FollowingTab || all.Returned?)) ==> r == Some([])
  {
    if profile.Threw? || profile.value.None? then None
    else if tab == FollowersTab && all.Threw? then None
    else
      var ids := ListIds(tab, profile.value.value, if all.Returned? then all.value else []);
      if |ids| == 0 then Some([])
      else match FetchUsersByIds(ids, byIds).0
        case Threw(_) => None
        case Returned(users) => Some(users)
  }

  /** With ids to list, the list holds exactly the users of the second
      request whose id is among them. */
  lemma ListedUsersMatchIds(tab: Tab, profile: ClientUser, all: seq<ClientUser>, users: seq<ClientUser>)
    requires |ListIds(tab, profile, all)| > 0
    ensures var r := Listed(tab, ApiUtils.Returned(Some(profile)), ApiUtils.Returned(all), UsersOk(users));
      r.Some? && forall u :: u in r.value <==> u in users && u.id in ListIds(tab, profile, all)
  {
  }

  /** The page's state. */
  class Page {
    var users: seq<ClientUser>
    var loading: bool

    constructor()
      ensures users == [] && loading
    {
      users, loading := [], true;
    }

    /** `fetchUsers`: the list is replaced when the run gets that far and
        left alone otherwise; `loading` is cleared in `finally`. The second
        request is made only with ids to look up. */
    method FetchUsers(tab: Tab, profile: UserResponse, all: UsersResponse, byIds: UsersResponse)
      returns (fetchedByIds: bool)
      modifies this
      ensures !loading
      ensures var r := Listed(tab, FetchUserByUsername(profile), FetchAllUsers(all), byIds);
        users == if r.Some? then r.value else old(users)
    {
      var profileUser := FetchUserByUsername(profile);
      fetchedByIds := false;
      if profileUser.Threw? || profileUser.value.None? {
        loading := false;
        return;
      }
      var userIds: seq<string>;
      if tab == FollowingTab {
        var p := profileUser.value.value;
        userIds := if p.followingIds.Some? then p.followingIds.value else [];
      } else {
        var allUsers := FetchAllUsers(all);
        if allUsers.Threw? {
          loading := false;
          return;
        }
        userIds := Ids(Filter(allUsers.value, (u: ClientUser) => FollowsId(u, profileUser.value.value.id)));
      }
      if |userIds| > 0 {
        var fetched := FetchUsersByIds(userIds, byIds);
        fetchedByIds := true;
        if fetched.0.Returned? {
          users := fetched.0.value;
        }
      } else {
        users := [];
      }
      loading := false;
    }
  }
}
