/**
 * The watch-history API route: read the "HL" playlist, turn every item into a
 * flat record with defaults for missing fields, and map the API's first error
 * reason to a status code and a message.
 */
module WatchHistoryRoute {
  import opened Wrappers
  import opened YouTubeErrors
  import opened YouTubeSchema

  /** One record of the response. */
  datatype HistoryRecord = HistoryRecord(
    id: string, videoId: string, title: string, description: string, thumbnail: string,
    publishedAt: string, videoOwnerChannelTitle: string, videoOwnerChannelId: string)

  /**
   * The record of one playlist item.  `now` is `new Date().toISOString()`,
   * the fallback for a missing `publishedAt`.  Every field is the item's own
   * value when that is a non-empty string, else its default; the thumbnail
   * prefers the default size to the medium one.
   */
  function ToHistoryRecord(item: PlaylistItem, now: string): (r: HistoryRecord)
    requires now != ""
    ensures r.title != "" && r.videoOwnerChannelTitle != "" && r.publishedAt != ""
    ensures r.videoId == VideoIdOf(item)
    ensures TruthyString(SnippetOf(item).title) ==> r.title == SnippetOf(item).title.value
    ensures !TruthyString(SnippetOf(item).title) ==> r.title == "Untitled Video"
    ensures TruthyString(item.id) ==> r.id == item.id.value
    ensures !TruthyString(item.id) ==> r.id == ""
    ensures TruthyString(SnippetOf(item).description) ==> r.description == SnippetOf(item).description.value
    ensures !TruthyString(SnippetOf(item).description) ==> r.description == ""
    ensures TruthyString(SnippetOf(item).publishedAt) ==> r.publishedAt == SnippetOf(item).publishedAt.value
    ensures !TruthyString(SnippetOf(item).publishedAt) ==> r.publishedAt == now
    ensures TruthyString(SnippetOf(item).videoOwnerChannelTitle) ==>
      r.videoOwnerChannelTitle == SnippetOf(item).videoOwnerChannelTitle.value
    ensures !TruthyString(SnippetOf(item).videoOwnerChannelTitle) ==> r.videoOwnerChannelTitle == "Unknown Channel"
    ensures TruthyString(SnippetOf(item).videoOwnerChannelId) ==>
      r.videoOwnerChannelId == SnippetOf(item).videoOwnerChannelId.value
    ensures !TruthyString(SnippetOf(item).videoOwnerChannelId) ==> r.videoOwnerChannelId == ""
    ensures var t := ThumbnailsOf(item);
      && (TruthyString(UrlOf(t.default_)) ==> r.thumbnail == UrlOf(t.default_).value)
      && (!TruthyString(UrlOf(t.default_)) && TruthyString(UrlOf(t.medium)) ==> r.thumbnail == UrlOf(t.medium).value)
      && (r.thumbnail == "" <==> !TruthyString(UrlOf(t.default_)) && !TruthyString(UrlOf(t.medium)))
  {
    var snippet := SnippetOf(item);
    var t := ThumbnailsOf(item);
    HistoryRecord(
      OrString(item.id, ""),
      VideoIdOf(item),
      OrString(snippet.title, "Untitled Video"),
      OrString(snippet.description, ""),
      OrString(UrlOf(t.default_), OrString(UrlOf(t.medium), "")),
      OrString(snippet.publishedAt, now),
      OrString(snippet.videoOwnerChannelTitle, "Unknown Channel"),
      OrString(snippet.videoOwnerChannelId, ""))
  }

  /** `response.data.items.map(...)`: one record per item, in order. */
  function ToHistory(items: seq<PlaylistItem>, now: string): (r: seq<HistoryRecord>)
    requires now != ""
    ensures |r| == |items|
    ensures forall i :: 0 <= i < |items| ==> r[i] == ToHistoryRecord(items[i], now)
  {
    seq(|items|, i requires 0 <= i < |items| => ToHistoryRecord(items[i], now))
  }

  const NoSessionMessage := "Unauthorized: No active session or access token."
  const NotFoundMessage := "Watch history playlist not found."
  const AuthorizationPrefix := "YouTube API Authorization Error: "
  const AuthorizationSuffix := ". Please ensure permissions are granted or try re-logging."

  /** The reasons that mean the caller may not read the playlist. */
  predicate IsAuthorizationReason(reason: Option<string>) {
    reason == Some("authError") || reason == Some("forbidden") || reason == Some("insufficientPermissions")
  }

  /** `details?.errors?.[0]`, when present. */
  function FirstReason(details: Option<ApiErrorData>): (r: Option<ErrorReason>)
    ensures r.Some? <==> details.Some? && details.value.errors.Some? && |details.value.errors.value| > 0
  {
    if details.Some? && details.value.errors.Some? && |details.value.errors.value| > 0 then
      Some(details.value.errors.value[0])
    else None
  }

  /** The status and message sent back for an extracted API error. */
  datatype Classified = Classified(status: int, message: string)

  /**
   * The reason table: an authorization reason gives 403 and the extracted
   * message (or "Access denied") between the authorization prefix and suffix;
   * "playlistNotFound" gives 404 and a fixed message; any other reason, or no
   * first error at all, keeps the extracted status and message.
   */
  function ClassifyError(x: ExtractedError): (r: Classified)
    ensures var first := FirstReason(x.details);
      && (first.Some? && IsAuthorizationReason(first.value.reason) ==>
            r == Classified(403, AuthorizationPrefix + OrString(Some(x.message), "Access denied") + AuthorizationSuffix))
      && (first.Some? && first.value.reason == Some("playlistNotFound") ==> r == Classified(404, NotFoundMessage))
      && (first.None? || (!IsAuthorizationReason(first.value.reason) && first.value.reason != Some("playlistNotFound")) ==>
            r == Classified(x.statusCode, x.message))
  {
    var errorMessage := x.message;
    var finalStatusCode := x.statusCode;
    match FirstReason(x.details)
    case None => Classified(finalStatusCode, errorMessage)
    case Some(specificError) =>
      if IsAuthorizationReason(specificError.reason) then
        Classified(403, AuthorizationPrefix + OrString(Some(x.message), "Access denied") + AuthorizationSuffix)
      else if specificError.reason == Some("playlistNotFound") then
        Classified(404, NotFoundMessage)
      else Classified(finalStatusCode, errorMessage)
  }

  /**
   * On the route's own errors the status is never 0 and the message never
   * empty, and the "Access denied" fallback is never taken: the extracted
   * message is never empty.
   */
  lemma ClassifiedErrorIsComplete(error: ThrownError)
    ensures var x := ExtractYouTubeAPIError(error);
      var r := ClassifyError(x);
      && r.status != 0
      && r.message != ""
      && (r.status == 403 && FirstReason(x.details).Some? && IsAuthorizationReason(FirstReason(x.details).value.reason) ==>
            r.message == AuthorizationPrefix + x.message + AuthorizationSuffix)
  {
  }

  /** What `GET` answers; `details` `None` is sent as "No details available". */
  datatype WatchHistoryResponse =
    | Unauthorized(error: string)
    | History(records: seq<HistoryRecord>)
    | ApiFailure(error: string, details: Option<ApiErrorData>, status: int)

  function StatusOf(resp: WatchHistoryResponse): int {
    match resp
    case Unauthorized(_) => 401
    case History(_) => 200
    case ApiFailure(_, _, status) => status
  }

  /**
   * `GET`.  The session and the outcome of `playlistItems.list` on "HL" are
   * inputs, and so is the clock reading `now`.  No session or no token gives
   * 401; no `items` gives an empty list; otherwise one record per item.
   */
  function GetWatchHistory(session: Option<Session>, playlistCall: CallResult<PlaylistResponse>, now: string)
    : (r: WatchHistoryResponse)
    requires now != ""
    ensures StatusOf(r) != 0
    ensures !Authorized(session) <==> r == Unauthorized(NoSessionMessage)
    ensures Authorized(session) && playlistCall.Returned? ==>
      var items := playlistCall.value.items;
      && r.History?
      && (items.None? ==> r.records == [])
      && (items.Some? ==>
            && |r.records| == |items.value|
            && forall i :: 0 <= i < |items.value| ==> r.records[i] == ToHistoryRecord(items.value[i], now))
    ensures Authorized(session) && playlistCall.Threw? ==>
      var x := ExtractYouTubeAPIError(playlistCall.error);
      && r.ApiFailure?
      && r.details == x.details
      && Classified(r.status, r.error) == ClassifyError(x)
  {
    if !Authorized(session) then Unauthorized(NoSessionMessage)
    else
      match playlistCall
      case Returned(response) =>
        if response.items.None? then History([]) else History(ToHistory(response.items.value, now))
      case Threw(error) =>
        var x := ExtractYouTubeAPIError(error);
        ClassifiedErrorIsComplete(error);
        var c := ClassifyError(x);
        ApiFailure(c.message, x.details, c.status)
  }
}
