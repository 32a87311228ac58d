/** The dashboard page's decisions: which rows it shows after fetching the `scripts` table,
    the platform badge chosen from a row's source URL, and the badge shown for each status. */
module Dashboard {
  import opened Wrappers
  import opened Text
  import opened Scripts

  /** How the `select('*')` query on `scripts` ended: an error, a thrown exception, or the
      rows, `None` when the data is `null`. */
  datatype Fetch = FetchError | FetchThrew | Fetched(data: Option<seq<Script>>)

  /** `getScripts`: the fetched rows, and the empty list on every failure. */
  function GetScripts(fetch: Fetch): (r: seq<Script>)
    ensures fetch.Fetched? && fetch.data.Some? ==> r == fetch.data.value
    ensures !(fetch.Fetched? && fetch.data.Some?) ==> r == []
  {
    match fetch
    case FetchError => []
    case FetchThrew => []
    case Fetched(data) => data.GetOr([])
  }

  /** A coloured label. */
  datatype Badge = Badge(caption: string, color: string)

  const XIAOHONGSHU_BADGE := Badge("小红书", "bg-red-500")
  const DOUYIN_BADGE := Badge("抖音", "bg-black text-white")

  /** `getPlatformBadge`: the Xiaohongshu badge for a URL mentioning `xiaohongshu`,
      otherwise the Douyin badge for one mentioning `douyin`, otherwise none. */
  function GetPlatformBadge(sourceUrl: Option<string>): (r: Option<Badge>)
    ensures r.Some? ==> sourceUrl.Some? && sourceUrl.value != ""
  {
    match sourceUrl
    case None => None
    case Some(url) =>
      if url == "" then None
      else if Contains(url, "xiaohongshu") then Some(XIAOHONGSHU_BADGE)
      else if Contains(url, "douyin") then Some(DOUYIN_BADGE)
      else None
  }

  /** A badge is shown exactly for a URL mentioning one of the two platforms; the
      Xiaohongshu test comes first, so it wins when a URL mentions both, and the Douyin
      badge needs a URL that does not mention Xiaohongshu. */
  lemma PlatformBadgeChoice(sourceUrl: Option<string>)
    ensures var r := GetPlatformBadge(sourceUrl);
      (r.Some? <==> sourceUrl.Some? && (Contains(sourceUrl.value, "xiaohongshu") || Contains(sourceUrl.value, "douyin"))) &&
      (r == Some(XIAOHONGSHU_BADGE) <==> sourceUrl.Some? && Contains(sourceUrl.value, "xiaohongshu")) &&
      (r == Some(DOUYIN_BADGE) <==>
        sourceUrl.Some? && !Contains(sourceUrl.value, "xiaohongshu") && Contains(sourceUrl.value, "douyin"))
  {
    if sourceUrl.Some? && sourceUrl.value == "" {
      NotContainsChar("", "douyin", 0);
      NotContainsChar("", "xiaohongshu", 0);
    }
  }

  /** `getStatusBadge`: the label and class of each status. */
  function GetStatusBadge(status: Status): (r: (string, string))
    ensures r.0 != "" && r.1 != ""
  {
    match status
    case New => ("New", "bg-blue-500 text-white")
    case Editing => ("Editing", "bg-yellow-500 text-white")
    case Done => ("Done", "bg-green-500 text-white")
  }

  /** Different statuses get different labels and different classes. */
  lemma StatusBadgesDistinct(s: Status, t: Status)
    requires s != t
    ensures GetStatusBadge(s).0 != GetStatusBadge(t).0
    ensures GetStatusBadge(s).1 != GetStatusBadge(t).1
  {
    var a, b := GetStatusBadge(s).1, GetStatusBadge(t).1;
    assert a[3] != b[3];
  }
}
