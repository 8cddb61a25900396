/** The profile header's line under the display name: the count that goes
    with the active tab. */
module ProfileHeader {
  import opened Common
  import opened JsText

  /** The counts by tab; absent counts read as all zeros. */
  datatype TabCounts = TabCounts(posts: nat, replies: nat, highlights: nat, articles: nat, media: nat, likes: nat)

  const NoCounts := TabCounts(0, 0, 0, 0, 0, 0)

  /** `getHeaderCount()`: likes on the Likes tab, media on the Media tab,
      posts on every other tab. */
  function HeaderCount(activeTab: string, counts: Option<TabCounts>): (text: string)
    ensures var c := if counts.Some? then counts.value else NoCounts;
      var n := if activeTab == "Likes" then c.likes else if activeTab == "Media" then c.media else c.posts;
      var noun := if activeTab == "Likes" then "likes" else if activeTab == "Media" then "photos & videos" else "posts";
      StartsWith(text, NatToString(n) + " ") && text[|NatToString(n)| + 1..] == noun
  {
    var c := if counts.Some? then counts.value else NoCounts;
    var digits := if activeTab == "Likes" then NatToString(c.likes)
                  else if activeTab == "Media" then NatToString(c.media)
                  else NatToString(c.posts);
    var noun := if activeTab == "Likes" then "likes" else if activeTab == "Media" then "photos & videos" else "posts";
    assert (digits + " " + noun)[|digits| + 1..] == noun;
    digits + " " + noun
  }

  /** The line reads back: `parseInt` of it is the count of the active
      tab's kind, read from the counts or zero when they are absent. */
  lemma HeaderCountReadsBack(activeTab: string, counts: Option<TabCounts>)
    ensures var c := if counts.Some? then counts.value else NoCounts;
      ParseInt(HeaderCount(activeTab, counts))
        == Some(if activeTab == "Likes" then c.likes else if activeTab == "Media" then c.media else c.posts)
  {
    var c := if counts.Some? then counts.value else NoCounts;
    var n := if activeTab == "Likes" then c.likes else if activeTab == "Media" then c.media else c.posts;
    var noun := if activeTab == "Likes" then "likes" else if activeTab == "Media" then "photos & videos" else "posts";
    assert HeaderCount(activeTab, counts) == NatToString(n) + " " + noun;
    ParseIntOfNatThenSpace(n, noun);
  }

  /** The tabs that have counts of their own but no case of their own,
      Replies, Highlights and Articles, show the posts count. */
  lemma UncasedTabsShowPosts(activeTab: string, c: TabCounts)
    requires activeTab in {"Replies", "Highlights", "Articles"}
    ensures HeaderCount(activeTab, Some(c)) == NatToString(c.posts) + " posts"
  {
  }

  /** Without counts every tab reads zero, e.g. "0 posts". */
  lemma AbsentCountsReadZero(activeTab: string)
    ensures HeaderCount(activeTab, None) ==
      if activeTab == "Likes" then "0 likes" else if activeTab == "Media" then "0 photos & videos" else "0 posts"
  {
    assert NatToString(0) == "0";
  }
}
