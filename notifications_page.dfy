/** The notifications page of the social clone: the fetch that fills the
    list and records when notifications were last seen, the `@username`
    link inside a notification's text, and the relative age shown beside
    it. The fetch's answer and the clock are inputs; the browser's storage
    is a field of the page. */
module NotificationsPage {
  import opened Common

  /** A notification as the page receives it; `createdAt` in milliseconds. */
  datatype Note = Note(id: string, body: string, createdAt: int)

  /** What `GET /api/notifications` answered. */
  datatype NotesReply = NotesOk(data: seq<Note>) | NotesNotOk | NotesThrew

  /** The `\w` class: ASCII letters, digits and `_`. */
  predicate IsWordChar(c: char) {
    ('a' <= c <= 'z') || ('A' <= c <= 'Z') || ('0' <= c <= '9') || c == '_'
  }

  /** An '@' at `i` immediately followed by a word character. */
  predicate MentionAt(s: string, i: int) {
    0 <= i && i + 1 < |s| && s[i] == '@' && IsWordChar(s[i + 1])
  }

  /** The first position at or after `from` where `/@(\w+)/` matches. */
  function FirstMention(s: string, from: nat): (r: Option<nat>)
    ensures r.Some? ==> from <= r.value && MentionAt(s, r.value)
    ensures forall i :: from <= i && (r.None? || i < r.value) ==> !MentionAt(s, i)
    decreases |s| - from
  {
    if from + 1 >= |s| then None
    else if MentionAt(s, from) then Some(from)
    else FirstMention(s, from + 1)
  }

  /** The length of the run of word characters starting at `i`. */
  function WordRun(s: string, i: nat): (n: nat)
    requires i <= |s|
    ensures i + n <= |s|
    ensures forall k :: i <= k < i + n ==> IsWordChar(s[k])
    ensures i + n == |s| || !IsWordChar(s[i + n])
    decreases |s| - i
  {
    if i < |s| && IsWordChar(s[i]) then 1 + WordRun(s, i + 1) else 0
  }

  /** What `renderNotificationBody` shows: the text unchanged, or the text
      before the mention, a link to `/<username>` reading `@<username>`, and
      the text after it. */
  datatype Rendered = Plain(text: string) | Linked(before: string, username: string, after: string)

  function RenderBody(body: string): (r: Rendered)
    ensures r.Plain? <==> forall i :: 0 <= i < |body| ==> !MentionAt(body, i)
    ensures r.Plain? ==> r.text == body
  {
    match FirstMention(body, 0)
    case None => Plain(body)
    case Some(i) =>
      var n := WordRun(body, i + 1);
      Linked(body[..i], body[i + 1..i + 1 + n], body[i + 1 + n..])
  }

  /** The pieces put back together are the body, and the mention is the
      first one, its username the longest run of word characters there. */
  lemma RenderReconstructs(body: string)
    ensures var r := RenderBody(body);
      r.Linked? ==>
        && r.before + "@" + r.username + r.after == body
        && |r.username| > 0 && (forall k :: 0 <= k < |r.username| ==> IsWordChar(r.username[k]))
        && (|r.after| == 0 || !IsWordChar(r.after[0]))
        && (forall i :: 0 <= i < |r.before| ==> !MentionAt(body, i))
  {
    var r := RenderBody(body);
    if r.Linked? {
      var i := FirstMention(body, 0).value;
      var n := WordRun(body, i + 1);
      assert body == body[..i] + [body[i]] + body[i + 1..i + 1 + n] + body[i + 1 + n..];
    }
  }

  /** A label of `formatDate`: fixed text, or the month and year of the
      date, whose locale formatting is not modelled. */
  datatype DateLabel = Text(text: string) | MonthYear(date: int)

  const HourMs := 3600000

  /** `formatDate(createdAt)` at time `now`, with the floor divisions of
      the source. */
  function FormatDate(createdAt: int, now: int): DateLabel {
    var hours := (now - createdAt) / HourMs;
    var days := hours / 24;
    var weeks := days / 7;
    if hours < 1 then Text("now")
    else if hours < 24 then Text(NatToString(hours) + "h")
    else if days < 7 then Text(NatToString(days) + "d")
    else if weeks < 4 then Text(NatToString(weeks) + "w")
    else MonthYear(createdAt)
  }

  /** The buckets by elapsed milliseconds: under an hour (the future
      included) is "now"; then whole hours below a day, whole days below a
      week, whole weeks below four; from 28 days on, the month and year. */
  lemma FormatDateBuckets(createdAt: int, now: int)
    ensures var e := now - createdAt; var shown := FormatDate(createdAt, now);
      && (e < HourMs ==> shown == Text("now"))
      && (HourMs <= e < 24 * HourMs ==> shown == Text(NatToString(e / HourMs) + "h"))
      && (24 * HourMs <= e < 7 * 24 * HourMs ==> shown == Text(NatToString(e / (24 * HourMs)) + "d"))
      && (7 * 24 * HourMs <= e < 28 * 24 * HourMs ==> shown == Text(NatToString(e / (7 * 24 * HourMs)) + "w"))
      && (shown.MonthYear? <==> e >= 28 * 24 * HourMs)
  {
    var e := now - createdAt;
    var hours := e / HourMs;
    DivDiv(e, HourMs, 24);
    DivDiv(e, 24 * HourMs, 7);
    assert hours / 24 == e / (24 * HourMs);
    assert hours / 24 / 7 == e / (7 * 24 * HourMs);
  }

  /** Floor division in two steps is floor division by the product; the
      divisors are the ones `formatDate` uses, which keeps the arithmetic
      linear. */
  lemma DivDiv(e: int, a: int, b: int)
    requires (a == HourMs && b == 24) || (a == 24 * HourMs && b == 7)
    ensures e / a / b == e / (a * b)
  {
    var q := e / a;
    var r := e % a;
    var q2 := q / b;
    var r2 := q % b;
    assert e == q * a + r;
    assert q == q2 * b + r2;
    if a == HourMs {
      assert e == q2 * (24 * HourMs) + (r2 * HourMs + r);
    } else {
      assert e == q2 * (7 * 24 * HourMs) + (r2 * (24 * HourMs) + r);
    }
  }

  /** The page's state: the list, the loading flag, and the
      `lastSeenNotifications` entry of local storage. */
  class Page {
    var notifications: seq<Note>
    var loading: bool
    var lastSeen: Option<string>

    constructor(stored: Option<string>)
      ensures notifications == [] && loading && lastSeen == stored
    {
      notifications, loading, lastSeen := [], true, stored;
    }

    /** The fetch effect: an ok answer replaces the list, and only a
        non-empty one writes `now` to local storage; the loading flag is
        cleared on every path. */
    method FetchNotifications(reply: NotesReply, now: int)
      modifies this
      ensures !loading
      ensures reply.NotesOk? ==> notifications == reply.data
      ensures !reply.NotesOk? ==> notifications == old(notifications)
      ensures lastSeen == if reply.NotesOk? && |reply.data| > 0 then Some(IntToString(now)) else old(lastSeen)
    {
      if reply.NotesOk? {
        notifications := reply.data;
        if |reply.data| > 0 {
          lastSeen := Some(IntToString(now));
        }
      }
      loading := false;
    }
  }
}
