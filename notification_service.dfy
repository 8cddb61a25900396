/** The notification log of the microservices lab: `POST /notifications/send`
    appends a record under the next id and always succeeds; the two listings
    read the log, the per-user one through a strict comparison with
    `parseInt` of the path parameter. The clock is an input of the model. */
module NotificationService {
  import opened Common
  import opened JsText

  /** One record. `userId` is stored exactly as the request body sent it. */
  datatype Notification = Notification(id: nat, userId: Scalar, message: string, kind: string,
                                       timestamp: nat, status: string)

  /** The reply to a send: `{ success: true, notification, message }`. */
  datatype Sent = Sent(success: bool, notification: Notification, message: string)

  /** The reply of both listings: `{ success: true, data, count }`. */
  datatype Listing = Listing(success: bool, data: seq<Notification>, count: nat)

  /** The reply to one send and the log (records and counter) after it. */
  datatype Logged = Logged(reply: Sent, log: seq<Notification>, counter: nat)

  /** `POST /notifications/send` as a transition of the log. */
  function Send(log: seq<Notification>, counter: nat, userId: Scalar, message: string,
                kind: string, now: nat): (l: Logged)
    ensures l.reply.success
  {
    var n := Notification(counter, userId, message, kind, now, "sent");
    Logged(Sent(true, n, "Notification sent successfully"), log + [n], counter + 1)
  }

  /** The log invariant: ids are 1, 2, 3, ... in list order, the counter is the
      next id, and every record has status 'sent'. */
  ghost predicate LogValid(log: seq<Notification>, counter: nat) {
    && counter == |log| + 1
    && (forall i :: 0 <= i < |log| ==> log[i].id == i + 1 && log[i].status == "sent")
  }

  /** A send has no failure path: it appends exactly one record holding the
      given userId, message and type with status 'sent' under the current
      counter, leaves every earlier record as it was, and advances the counter. */
  lemma SendAppendsOne(log: seq<Notification>, counter: nat, userId: Scalar, message: string,
                       kind: string, now: nat)
    ensures var l := Send(log, counter, userId, message, kind, now);
      && |l.log| == |log| + 1
      && l.log[..|log|] == log
      && l.log[|log|] == l.reply.notification
      && l.log[|log|].id == counter && l.counter == counter + 1
      && l.log[|log|].userId == userId && l.log[|log|].message == message
      && l.log[|log|].kind == kind && l.log[|log|].status == "sent"
  {
    var l := Send(log, counter, userId, message, kind, now);
    assert l.log[..|log|] == log;
  }

  /** The log invariant holds from the start and after every send. */
  lemma SendKeepsLogValid(log: seq<Notification>, counter: nat, userId: Scalar, message: string,
                          kind: string, now: nat)
    requires LogValid(log, counter)
    ensures var l := Send(log, counter, userId, message, kind, now);
            LogValid(l.log, l.counter)
  {
  }

  /** `log.filter(n => n.userId === target)`: the records whose userId
      strictly equals `target`, in log order. */
  function WithUserId(log: seq<Notification>, target: Scalar): (r: seq<Notification>)
    ensures |r| <= |log|
    ensures forall n :: n in r <==> n in log && n.userId == target
  {
    Filter(log, UserIdIs(target))
  }

  /** Keeps the records whose userId strictly equals `target`. */
  function UserIdIs(target: Scalar): Notification -> bool {
    (n: Notification) => n.userId == target
  }

  /** `GET /notifications/user/:userId`: the records whose userId strictly
      equals `parseInt(userId)`; nothing when the parameter does not parse
      (`NaN` equals nothing). */
  function ForUser(log: seq<Notification>, param: string): (r: Listing)
    ensures r.success && r.count == |r.data|
  {
    var data := match ParseInt(param)
      case None => []
      case Some(v) => WithUserId(log, Num(v));
    Listing(true, data, |data|)
  }

  /** `GET /notifications`: the whole log with its length. */
  function All(log: seq<Notification>): (r: Listing)
    ensures r.success && r.count == |r.data| && r.data == log
  {
    Listing(true, log, |log|)
  }

  /** A record is listed for a path parameter exactly when the parameter
      parses to an integer and the record's userId is that number. */
  lemma ForUserMembership(log: seq<Notification>, param: string, n: Notification)
    ensures n in ForUser(log, param).data <==>
      n in log && ParseInt(param).Some? && n.userId == Num(ParseInt(param).value)
  {
  }

  /** Insertion order is kept: a new record joins the end of a user's listing
      when its userId matches, and the listing is unchanged otherwise. */
  lemma {:induction false} WithUserIdAppend(log: seq<Notification>, n: Notification, target: Scalar)
    ensures WithUserId(log + [n], target)
         == WithUserId(log, target) + (if n.userId == target then [n] else [])
  {
    FilterAppend(log, [n], UserIdIs(target));
  }

  /** Records whose userId was sent as a string never appear in a per-user
      listing, whatever the path parameter. */
  lemma StringIdsNeverListed(log: seq<Notification>, param: string, n: Notification)
    requires n.userId.Str?
    ensures n !in ForUser(log, param).data
  {
  }

  /** The decimal text of a user id selects exactly the records stored under
      that numeric id. */
  lemma ForUserOfDecimal(log: seq<Notification>, id: nat)
    ensures ForUser(log, NatToString(id)).data == WithUserId(log, Num(id))
  {
    ParseIntOfNatToString(id);
  }

  /** The running service: the log and its counter are fields updated in place. */
  class NotificationLog {
    var notifications: seq<Notification>
    var notificationIdCounter: nat

    constructor ()
      ensures notifications == [] && notificationIdCounter == 1
      ensures LogValid(notifications, notificationIdCounter)
    {
      notifications := [];
      notificationIdCounter := 1;
    }

    /** `POST /notifications/send` */
    method SendNotification(userId: Scalar, message: string, kind: string, now: nat) returns (reply: Sent)
      modifies this
      ensures Logged(reply, notifications, notificationIdCounter)
           == Send(old(notifications), old(notificationIdCounter), userId, message, kind, now)
    {
      var n := Notification(notificationIdCounter, userId, message, kind, now, "sent");
      notificationIdCounter := notificationIdCounter + 1;
      notifications := notifications + [n];
      reply := Sent(true, n, "Notification sent successfully");
    }
  }
}
