/**
  The evidence fetchers of the request pipeline (app.py, `fetch_wiki` and
  `fetch_news`), reduced to how they shape what their collaborators return.
  The encyclopedia page and the parsed feed are inputs; an exception raised by
  the collaborator is the `None` case of those inputs.
*/
module EvidenceSelector {
  import opened Wrappers

  /** At most this many characters of an encyclopedia summary are kept. */
  const SummaryLimit: nat := 500

  /** At most this many feed entries are used. */
  const NewsLimit: nat := 3

  /** What the encyclopedia client reports for a title: `page.exists()` and `page.summary`. */
  datatype WikiPage = WikiPage(found: bool, summary: string)

  /** A parsed feed entry; reading `entry.link` fails when the entry has none. */
  datatype FeedEntry = FeedEntry(link: Option<string>)

  /** `fetch_wiki`: the first `SummaryLimit` characters of the summary of an
      existing page; no summary when the page is missing or the lookup failed. */
  function FetchWiki(page: Option<WikiPage>): (summary: Option<string>)
    ensures summary.Some? <==> page.Some? && page.value.found
    ensures summary.Some? ==>
      && |summary.value| == Min(SummaryLimit, |page.value.summary|)
      && summary.value <= page.value.summary
  {
    match page
    case None => None
    case Some(p) => if p.found then Some(p.summary[..Min(SummaryLimit, |p.summary|)]) else None
  }

  /** Every entry carries a link. */
  predicate AllLinked(entries: seq<FeedEntry>)
  {
    forall k :: 0 <= k < |entries| ==> entries[k].link.Some?
  }

  /** `[entry.link for entry in entries]`: the links in order, or a failure as
      soon as one entry has no link. */
  function Links(entries: seq<FeedEntry>): (links: Option<seq<string>>)
    ensures links.Some? <==> AllLinked(entries)
    ensures links.Some? ==>
      && |links.value| == |entries|
      && forall k :: 0 <= k < |entries| ==> links.value[k] == entries[k].link.value
  {
    if entries == [] then Some([])
    else
      match entries[0].link
      case None => None
      case Some(first) =>
        match Links(entries[1..])
        case None => None
        case Some(rest) => Some([first] + rest)
  }

  /** `fetch_news`: the links of the first `NewsLimit` entries, in feed order;
      nothing when the feed failed or one of those entries has no link. */
  function FetchNews(feed: Option<seq<FeedEntry>>): (links: seq<string>)
    ensures |links| <= NewsLimit
    ensures feed.None? ==> links == []
    ensures feed.Some? ==>
      var head := feed.value[..Min(NewsLimit, |feed.value|)];
      && (AllLinked(head) ==> |links| == |head|)
      && (!AllLinked(head) ==> links == [])
      && forall k :: 0 <= k < |links| ==> links[k] == head[k].link.value
  {
    match feed
    case None => []
    case Some(entries) =>
      match Links(entries[..Min(NewsLimit, |entries|)])
      case None => []
      case Some(links) => links
  }
}
