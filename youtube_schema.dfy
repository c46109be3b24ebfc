/**
 * The parts of the YouTube Data API's responses and of the login session that
 * the API routes read.  Every field the API may omit is an `Option`; the calls
 * themselves are not modelled: their outcome is an input.
 */
module YouTubeSchema {
  import opened Wrappers
  import opened YouTubeErrors

  /** The login session, `{ accessToken? }`. */
  datatype Session = Session(accessToken: Option<string>)

  /** `session && session.accessToken`: a session with a non-empty token. */
  predicate Authorized(session: Option<Session>) {
    session.Some? && TruthyString(session.value.accessToken)
  }

  /** The outcome of an awaited API call: its value, or what it threw. */
  datatype CallResult<T> = Returned(value: T) | Threw(error: ThrownError)

  datatype Thumbnail = Thumbnail(url: Option<string>)

  datatype Thumbnails = Thumbnails(high: Option<Thumbnail>, medium: Option<Thumbnail>, default_: Option<Thumbnail>)

  datatype Snippet = Snippet(
    title: Option<string>,
    description: Option<string>,
    thumbnails: Option<Thumbnails>,
    publishedAt: Option<string>,
    channelId: Option<string>,
    channelTitle: Option<string>,
    videoOwnerChannelId: Option<string>,
    videoOwnerChannelTitle: Option<string>)

  datatype ItemContentDetails = ItemContentDetails(videoId: Option<string>)

  /** One entry of `playlistItems.list`. */
  datatype PlaylistItem = PlaylistItem(id: Option<string>, snippet: Option<Snippet>, contentDetails: Option<ItemContentDetails>)

  /** The `items` of a `playlistItems.list` response. */
  datatype PlaylistResponse = PlaylistResponse(items: Option<seq<PlaylistItem>>)

  datatype VideoContentDetails = VideoContentDetails(duration: Option<string>)

  datatype Statistics = Statistics(viewCount: Option<string>, likeCount: Option<string>, commentCount: Option<string>)

  datatype VideoSnippet = VideoSnippet(categoryId: Option<string>)

  /** One entry of `videos.list`. */
  datatype Video = Video(
    id: Option<string>,
    contentDetails: Option<VideoContentDetails>,
    statistics: Option<Statistics>,
    snippet: Option<VideoSnippet>)

  /** The `items` of a `videos.list` response. */
  datatype VideosResponse = VideosResponse(items: Option<seq<Video>>)

  /** A snippet with every field missing: what `item.snippet?.<field>` reads when there is no snippet. */
  const NoSnippet := Snippet(None, None, None, None, None, None, None, None)

  /** The item's snippet, or `NoSnippet`. */
  function SnippetOf(item: PlaylistItem): (r: Snippet)
    ensures item.snippet.Some? ==> r == item.snippet.value
    ensures item.snippet.None? ==> r == NoSnippet
  {
    item.snippet.GetOr(NoSnippet)
  }

  /** `item.snippet?.thumbnails?.<size>?.url`: the size is picked from the thumbnails, or from none. */
  function ThumbnailsOf(item: PlaylistItem): Thumbnails {
    SnippetOf(item).thumbnails.GetOr(Thumbnails(None, None, None))
  }

  function UrlOf(t: Option<Thumbnail>): Option<string> {
    if t.Some? then t.value.url else None
  }

  /** `item.contentDetails?.videoId || ""`. */
  function VideoIdOf(item: PlaylistItem): (r: string)
    ensures r == "" <==> !(item.contentDetails.Some? && TruthyString(item.contentDetails.value.videoId))
  {
    if item.contentDetails.Some? then OrString(item.contentDetails.value.videoId, "") else ""
  }
}
