/** `POST /api/follow` of the social clone: toggles whether the signed-in
    user follows `followingId`. Following appends the id and creates a
    notification for the followed user; unfollowing filters the id out and
    deletes that user's notifications whose body contains the follow text.
    The session email and the formatted date are inputs. */
module FollowRoute {
  import opened Common
  import opened SocialDb

  datatype Body = Text(text: string) | Following(following: bool)

  datatype Reply = Reply(status: int, body: Body)

  /** `currentUser.username || currentUser.name` */
  function Handle(u: User): string {
    if u.username != "" then u.username else u.name
  }

  /** The text both branches look for or write before the date. */
  function FollowerPrefix(handle: string): string {
    "You got a new follower @" + handle
  }

  /** Keeps the ids other than `x`. */
  function Other(x: Id): Id -> bool {
    (y: Id) => y != x
  }

  /** Keeps the notifications the unfollow delete does not match. */
  function Unmatched(target: Id, text: string): Notification -> bool {
    (n: Notification) => !(n.userId == target && Contains(n.body, text))
  }

  /** `ids.filter(id => id !== x)`: every occurrence of `x` goes, the other
      ids stay in order. */
  function Without(ids: seq<Id>, x: Id): (r: seq<Id>)
    ensures r == Filter(ids, Other(x))
    ensures forall y :: y in r <==> y in ids && y != x
  {
    if |ids| == 0 then []
    else
      var last := ids[|ids| - 1];
      Without(ids[..|ids| - 1], x) + (if last != x then [last] else [])
  }

  /** The notifications `deleteMany({ where: { userId: target, body: { contains: text } } })` keeps. */
  function Surviving(notes: seq<Notification>, target: Id, text: string): (r: seq<Notification>)
    ensures r == Filter(notes, Unmatched(target, text))
  {
    if |notes| == 0 then []
    else
      var last := notes[|notes| - 1];
      Surviving(notes[..|notes| - 1], target, text)
        + (if last.userId == target && Contains(last.body, text) then [] else [last])
  }

  /** Exactly the notifications of `target` whose body contains `text` are
      deleted. */
  lemma {:induction false} SurvivingMembers(notes: seq<Notification>, target: Id, text: string)
    ensures forall n :: n in Surviving(notes, target, text) <==> n in notes && !(n.userId == target && Contains(n.body, text))
    decreases |notes|
  {
    if |notes| > 0 {
      var init := notes[..|notes| - 1];
      SurvivingMembers(init, target, text);
      assert notes == init + [notes[|notes| - 1]];
    }
  }

  /** The whole handler as a transition of the database. */
  function Toggle(st: Store, email: Option<string>, followingId: Id, date: string): (o: (Reply, Store))
    ensures o.0.status in {200, 401, 404}
    ensures o.0.status != 200 ==> o.1 == st
    ensures o.1.posts == st.posts && o.1.comments == st.comments
    ensures |o.1.users| == |st.users|
  {
    if email.None? || email.value == "" then (Reply(401, Text("Unauthorized")), st)
    else match FindByEmail(st.users, email.value)
      case None => (Reply(404, Text("User not found")), st)
      case Some(i) =>
        var u := st.users[i];
        var prefix := FollowerPrefix(Handle(u));
        if followingId in u.followingIds then
          (Reply(200, Following(false)),
           st.(users := st.users[i := u.(followingIds := Without(u.followingIds, followingId))],
               notifications := Surviving(st.notifications, followingId, prefix)))
        else
          var n := Notification(Oid(st.nextOid), prefix + " on " + date, followingId);
          (Reply(200, Following(true)),
           st.(users := st.users[i := u.(followingIds := u.followingIds + [followingId])],
               notifications := st.notifications + [n], nextOid := st.nextOid + 1))
  }

  /** The two branches, stated for the signed-in user at position `i`. Only
      that user's row changes. Unfollowing removes every occurrence of the
      id and keeps exactly the notifications the delete does not match;
      following appends the id (whatever it is: it is not validated) and
      exactly one notification for the followed user, whose body starts with
      the follow text. */
  lemma ToggleOutcomes(st: Store, email: string, followingId: Id, date: string)
    requires email != ""
    requires FindByEmail(st.users, email).Some?
    ensures var i := FindByEmail(st.users, email).value;
      var u := st.users[i];
      var prefix := FollowerPrefix(Handle(u));
      var (reply, st') := Toggle(st, Some(email), followingId, date);
      && (forall j :: 0 <= j < |st.users| && j != i ==> st'.users[j] == st.users[j])
      && st'.users[i].email == email && st'.users[i].id == u.id
      && (followingId in u.followingIds ==>
            && reply == Reply(200, Following(false))
            && followingId !in st'.users[i].followingIds
            && st'.users[i].followingIds == Filter(u.followingIds, Other(followingId))
            && (forall y :: y in st'.users[i].followingIds <==> y in u.followingIds && y != followingId)
            && st'.notifications == Filter(st.notifications, Unmatched(followingId, prefix))
            && (forall n :: n in st'.notifications <==>
                  n in st.notifications && !(n.userId == followingId && Contains(n.body, prefix))))
      && (followingId !in u.followingIds ==>
            && reply == Reply(200, Following(true))
            && st'.users[i].followingIds == u.followingIds + [followingId]
            && |st'.notifications| == |st.notifications| + 1
            && st'.notifications[..|st.notifications|] == st.notifications
            && st'.notifications[|st.notifications|].userId == followingId
            && StartsWith(st'.notifications[|st.notifications|].body, prefix))
  {
    var i := FindByEmail(st.users, email).value;
    var u := st.users[i];
    var prefix := FollowerPrefix(Handle(u));
    var (reply, st') := Toggle(st, Some(email), followingId, date);
    SurvivingMembers(st.notifications, followingId, prefix);
    if followingId !in u.followingIds {
      assert st'.notifications[..|st.notifications|] == st.notifications;
      var body := prefix + " on " + date;
      assert body[..|prefix|] == prefix;
    }
  }

  lemma WithoutAbsent(ids: seq<Id>, x: Id)
    requires x !in ids
    ensures Without(ids, x) == ids
  {
    assert forall k :: 0 <= k < |ids| ==> Other(x)(ids[k]);
    FilterKeepsAll(ids, Other(x));
  }

  lemma SurvivingUnmatched(notes: seq<Notification>, target: Id, text: string)
    requires forall j :: 0 <= j < |notes| ==> !(notes[j].userId == target && Contains(notes[j].body, text))
    ensures Surviving(notes, target, text) == notes
  {
    assert forall k :: 0 <= k < |notes| ==> Unmatched(target, text)(notes[k]);
    FilterKeepsAll(notes, Unmatched(target, text));
  }

  /** Unfollowing right after following drops exactly the appended id. */
  lemma WithoutAppended(ids: seq<Id>, x: Id)
    requires x !in ids
    ensures Without(ids + [x], x) == ids
  {
    WithoutAbsent(ids, x);
    assert (ids + [x])[..|ids|] == ids;
  }

  /** The unfollow delete removes the notification the follow just made and
      keeps the older ones when none of them matched. */
  lemma SurvivingAppended(notes: seq<Notification>, n: Notification, target: Id, prefix: string, date: string)
    requires forall j :: 0 <= j < |notes| ==> !(notes[j].userId == target && Contains(notes[j].body, prefix))
    requires n == Notification(n.id, prefix + " on " + date, target)
    ensures Surviving(notes + [n], target, prefix) == notes
  {
    ContainsPrefix(prefix, " on " + date);
    assert prefix + " on " + date == prefix + (" on " + date);
    SurvivingUnmatched(notes, target, prefix);
    assert (notes + [n])[..|notes|] == notes;
  }

  lemma FindAfterRowUpdate(users: seq<User>, email: string, i: nat, v: User)
    requires FindByEmail(users, email) == Some(i)
    requires v.email == users[i].email
    ensures FindByEmail(users[i := v], email) == Some(i)
  {
    var w := users[i := v];
    assert w[i].email == email;
    assert forall j :: 0 <= j < i ==> w[j].email != email;
  }

  /** Following an id the signed-in user does not follow yet, as one
      transition of the database. */
  lemma FollowStep(st: Store, email: string, followingId: Id, date: string)
    requires email != ""
    requires FindByEmail(st.users, email).Some?
    requires followingId !in st.users[FindByEmail(st.users, email).value].followingIds
    ensures var i := FindByEmail(st.users, email).value;
      var u := st.users[i];
      var prefix := FollowerPrefix(Handle(u));
      Toggle(st, Some(email), followingId, date)
        == (Reply(200, Following(true)),
            st.(users := st.users[i := u.(followingIds := u.followingIds + [followingId])],
                notifications := st.notifications + [Notification(Oid(st.nextOid), prefix + " on " + date, followingId)],
                nextOid := st.nextOid + 1))
  {
  }

  /** Unfollowing an id the user at position `i` follows, as one transition
      of the database. */
  lemma UnfollowStep(st: Store, email: string, followingId: Id, date: string, i: nat)
    requires email != ""
    requires FindByEmail(st.users, email) == Some(i)
    requires followingId in st.users[i].followingIds
    ensures var u := st.users[i];
      Toggle(st, Some(email), followingId, date)
        == (Reply(200, Following(false)),
            st.(users := st.users[i := u.(followingIds := Without(u.followingIds, followingId))],
                notifications := Surviving(st.notifications, followingId, FollowerPrefix(Handle(u)))))
  {
  }

  /** Following and then unfollowing the same id, when it was not followed
      and the followed user had no notification containing the follow text,
      restores the database exactly, except that one generated id has been
      used up. */
  lemma FollowThenUnfollowRestores(st: Store, email: string, followingId: Id, date1: string, date2: string)
    requires email != ""
    requires FindByEmail(st.users, email).Some?
    requires followingId !in st.users[FindByEmail(st.users, email).value].followingIds
    requires var prefix := FollowerPrefix(Handle(st.users[FindByEmail(st.users, email).value]));
      forall j :: 0 <= j < |st.notifications| ==>
        !(st.notifications[j].userId == followingId && Contains(st.notifications[j].body, prefix))
    ensures var (r1, st1) := Toggle(st, Some(email), followingId, date1);
      var (r2, st2) := Toggle(st1, Some(email), followingId, date2);
      r1 == Reply(200, Following(true)) && r2 == Reply(200, Following(false))
      && st2 == st.(nextOid := st.nextOid + 1)
  {
    var i := FindByEmail(st.users, email).value;
    var u := st.users[i];
    var prefix := FollowerPrefix(Handle(u));
    var u1 := u.(followingIds := u.followingIds + [followingId]);
    var n := Notification(Oid(st.nextOid), prefix + " on " + date1, followingId);
    var st1 := st.(users := st.users[i := u1], notifications := st.notifications + [n],
                   nextOid := st.nextOid + 1);
    FollowStep(st, email, followingId, date1);
    FindAfterRowUpdate(st.users, email, i, u1);
    UnfollowStep(st1, email, followingId, date2, i);
    WithoutAppended(u.followingIds, followingId);
    SurvivingAppended(st.notifications, n, followingId, prefix, date1);
    assert st.users[i := u1][i := u] == st.users;
  }

  /** The delete matches by `contains`, so unfollowing as `h` also deletes
      the followed user's notification from any follower whose handle
      extends `h` (unfollowing as "bob" deletes "@bobby"'s notification). */
  lemma UnfollowDeletesExtendedHandles(notes: seq<Notification>, target: Id, h: string, ext: string,
                                       date: string, id: Id)
    ensures Notification(id, FollowerPrefix(h + ext) + " on " + date, target)
            !in Surviving(notes, target, FollowerPrefix(h))
  {
    assert FollowerPrefix(h + ext) + " on " + date == FollowerPrefix(h) + (ext + " on " + date);
    ContainsPrefix(FollowerPrefix(h), ext + " on " + date);
    SurvivingMembers(notes, target, FollowerPrefix(h));
  }

  /** The handler: look the signed-in user up, then write the new list and
      create or delete the notification. */
  method HandlePost(db: Db, email: Option<string>, followingId: Id, date: string) returns (reply: Reply)
    modifies db
    ensures (reply, db.Snapshot()) == Toggle(old(db.Snapshot()), email, followingId, date)
  {
    if email.None? || email.value == "" {
      return Reply(401, Text("Unauthorized"));
    }
    var found := FindByEmail(db.users, email.value);
    if found.None? {
      return Reply(404, Text("User not found"));
    }
    var i := found.value;
    var currentUser := db.users[i];
    var prefix := FollowerPrefix(Handle(currentUser));
    if followingId in currentUser.followingIds {
      db.users := db.users[i := currentUser.(followingIds := Without(currentUser.followingIds, followingId))];
      db.notifications := Surviving(db.notifications, followingId, prefix);
      reply := Reply(200, Following(false));
    } else {
      db.users := db.users[i := currentUser.(followingIds := currentUser.followingIds + [followingId])];
      var n := Notification(Oid(db.nextOid), prefix + " on " + date, followingId);
      db.notifications := db.notifications + [n];
      db.nextOid := db.nextOid + 1;
      reply := Reply(200, Following(true));
    }
  }
}
