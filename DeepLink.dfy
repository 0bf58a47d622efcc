/** The URL the widget opens when tapped: `m2://widget/play`, with the track's id when there is one. */
module DeepLink {
  import opened Wrappers
  import Dates
  import opened WidgetConfig
  import opened TrackStore
  import opened WidgetTimeline

  datatype QueryItem = QueryItem(name: string, value: Option<string>)

  /** The fields of Foundation's `URLComponents` that the widget sets. */
  datatype URLComponents = URLComponents(
    scheme: Option<string>,
    host: Option<string>,
    path: string,
    queryItems: Option<seq<QueryItem>>)

  /** A URL, held as the components it was built from. */
  datatype URL = URL(
    scheme: Option<string>,
    host: Option<string>,
    path: string,
    queryItems: Option<seq<QueryItem>>)

  /**
   * `URLComponents.url`: no URL when the path cannot follow the authority:
   * with a host the path must be empty or start with "/", and without one it
   * must not start with "//".
   */
  function ComponentsURL(c: URLComponents): (u: Option<URL>)
    ensures u.Some? ==> u.value == URL(c.scheme, c.host, c.path, c.queryItems)
    ensures c.host.Some? && |c.path| > 0 && c.path[0] == '/' ==> u.Some?
  {
    if c.host.Some? && c.path != [] && c.path[0] != '/' then None
    else if c.host.None? && |c.path| >= 2 && c.path[..2] == "//" then None
    else Some(URL(c.scheme, c.host, c.path, c.queryItems))
  }

  /** `URL(string: "m2://widget/play")!`. */
  const FallbackURL: URL := URL(Some(DeepLinkScheme), Some(DeepLinkHost), DeepLinkPath, None)

  /**
   * The deep-link reader's view of a URL: the value of its first `trackID`
   * query item, if it is a play link that carries one.
   */
  function PlayTrackID(url: URL): Option<string> {
    if url.scheme != Some(DeepLinkScheme) || url.host != Some(DeepLinkHost) || url.path != DeepLinkPath then None
    else match url.queryItems
      case None => None
      case Some(items) => FirstValue(items, DeepLinkTrackIDQueryItem)
  }

  /** The value of the first query item called `name`. */
  function FirstValue(items: seq<QueryItem>, name: string): Option<string> {
    if items == [] then None
    else if items[0].name == name then items[0].value
    else FirstValue(items[1..], name)
  }

  /**
   * `LovelyWidgetView.widgetURL`: always a play link; it carries the entry's
   * track id exactly when the entry has a track with a non-empty id, and has
   * no query at all otherwise.
   */
  method WidgetURL(entry: Entry) returns (url: URL)
    ensures url.scheme == Some(DeepLinkScheme) && url.host == Some(DeepLinkHost) && url.path == DeepLinkPath
    ensures url.queryItems.Some? <==> entry.track.Some? && entry.track.value.id != []
    ensures PlayTrackID(url) == if entry.track.Some? && entry.track.value.id != [] then Some(entry.track.value.id) else None
  {
    var components := URLComponents(None, None, "", None);
    components := components.(scheme := Some(DeepLinkScheme));
    components := components.(host := Some(DeepLinkHost));
    components := components.(path := DeepLinkPath);

    if entry.track.Some? && entry.track.value.id != [] {
      components := components.(queryItems := Some([QueryItem(DeepLinkTrackIDQueryItem, Some(entry.track.value.id))]));
    }

    var built := ComponentsURL(components);
    url := built.GetOr(FallbackURL);
  }

  /**
   * Every track an entry can show has a non-empty id, so by WidgetURL's
   * contract the link of any entry with a track names that track.
   */
  lemma EntryTracksHaveIDs(e: Entry, date: Dates.Date, source: Source, preview: bool, store: Store)
    requires IsEntryFor(e, date, source, preview, store)
    ensures e.track.Some? ==> e.track.value.id != []
  {
    EntryTrackOrigin(e, date, source, preview, store);
  }
}
