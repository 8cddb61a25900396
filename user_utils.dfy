/** The client's user fetch helpers: one user by username, all users, and
    the users with given ids. What each request answers is an input; a
    reply that is not ok throws. */
module UserUtils {
  import opened Common
  import ApiUtils

  /** A user as the client receives it. `isFollowing` absent is `false`;
      `followingIds` may be absent. */
  datatype ClientUser = ClientUser(id: string, name: string, username: string, email: string,
                                   isFollowing: bool, followingIds: Option<seq<string>>)

  /** What a request for a list of users answered. */
  datatype UsersResponse = UsersOk(users: seq<ClientUser>) | UsersNotOk

  /** What a request for one user answered: its JSON, `null` included. */
  datatype UserResponse = UserOk(user: Option<ClientUser>) | UserNotOk

  /** `fetchUserByUsername(username)`. */
  function FetchUserByUsername(response: UserResponse): (r: ApiUtils.Outcome<Option<ClientUser>>)
    ensures response.UserNotOk? <==> r == ApiUtils.Threw("Failed to fetch user")
    ensures response.UserOk? ==> r == ApiUtils.Returned(response.user)
  {
    match response
    case UserOk(user) => ApiUtils.Returned(user)
    case UserNotOk => ApiUtils.Threw("Failed to fetch user")
  }

  /** `fetchAllUsers()`. */
  function FetchAllUsers(response: UsersResponse): (r: ApiUtils.Outcome<seq<ClientUser>>)
    ensures response.UsersNotOk? <==> r == ApiUtils.Threw("Failed to fetch users")
    ensures response.UsersOk? ==> r == ApiUtils.Returned(response.users)
  {
    match response
    case UsersOk(users) => ApiUtils.Returned(users)
    case UsersNotOk => ApiUtils.Threw("Failed to fetch users")
  }

  /** `fetchUsersByIds(userIds)`: the outcome, and whether it fetched. An
      empty list answers `[]` at once; otherwise the users whose id is
      listed, in the order of all users. */
  function FetchUsersByIds(userIds: seq<string>, response: UsersResponse): (o: (ApiUtils.Outcome<seq<ClientUser>>, bool))
    ensures |userIds| == 0 ==> o == (ApiUtils.Returned([]), false)
    ensures |userIds| > 0 ==> o.1
    ensures |userIds| > 0 && response.UsersNotOk? ==> o.0 == ApiUtils.Threw("Failed to fetch users")
    ensures |userIds| > 0 && response.UsersOk? ==>
              && o.0.Returned? && |o.0.value| <= |response.users|
              && forall u :: u in o.0.value <==> u in response.users && u.id in userIds
  {
    if |userIds| == 0 then (ApiUtils.Returned([]), false)
    else match FetchAllUsers(response)
      case Threw(message) => (ApiUtils.Threw(message), true)
      case Returned(all) => (ApiUtils.Returned(Filter(all, (u: ClientUser) => u.id in userIds)), true)
  }

  /** Only the SET of requested ids matters: repeating an id or reordering
      the list changes nothing. */
  lemma FetchUsersByIdsUsesIdSet(a: seq<string>, b: seq<string>, response: UsersResponse)
    requires |a| > 0 && |b| > 0 && (forall x :: x in a <==> x in b)
    ensures FetchUsersByIds(a, response).0 == FetchUsersByIds(b, response).0
  {
    if response.UsersOk? {
      var ka := (u: ClientUser) => u.id in a;
      var kb := (u: ClientUser) => u.id in b;
      FilterSameKeep(response.users, ka, kb);
    }
  }

  /** The selected users keep the order of all users: selecting from two
      halves and joining is selecting from the whole. */
  lemma FetchUsersByIdsKeepsOrder(userIds: seq<string>, first: seq<ClientUser>, second: seq<ClientUser>)
    requires |userIds| > 0
    ensures FetchUsersByIds(userIds, UsersOk(first + second)).0.value ==
            FetchUsersByIds(userIds, UsersOk(first)).0.value + FetchUsersByIds(userIds, UsersOk(second)).0.value
  {
    FilterAppend(first, second, (u: ClientUser) => u.id in userIds);
  }
}
