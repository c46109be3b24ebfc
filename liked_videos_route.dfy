/**
 * The liked-videos API route: read the "LL" playlist, look up the details of
 * every video in it with one `videos.list` call, join the two by video id
 * into flat records with defaults for every missing field, and turn API
 * errors into a status code and a message.
 */
module LikedVideosRoute {
  import opened Wrappers
  import opened YouTubeErrors
  import opened YouTubeSchema

  // ------------------------------------------------------------- video ids

  /** `videoIds`: each item's video id, in item order, with the empty ones removed. */
  function VideoIds(items: seq<PlaylistItem>): (r: seq<string>)
    ensures |r| <= |items|
    ensures forall id :: id in r ==> id != ""
  {
    if items == [] then []
    else
      var id := VideoIdOf(items[|items| - 1]);
      VideoIds(items[..|items| - 1]) + (if id != "" then [id] else [])
  }

  /** The filter keeps order: the ids of a concatenation are the ids of the parts. */
  lemma {:induction false} VideoIdsAppend(a: seq<PlaylistItem>, b: seq<PlaylistItem>)
    ensures VideoIds(a + b) == VideoIds(a) + VideoIds(b)
    decreases |b|
  {
    if b == [] {
      assert a + b == a;
    } else {
      assert (a + b)[..|a + b| - 1] == a + b[..|b| - 1];
      VideoIdsAppend(a, b[..|b| - 1]);
    }
  }

  /** An id is listed exactly when it is non-empty and some item carries it. */
  lemma {:induction false} VideoIdsMembership(items: seq<PlaylistItem>, id: string)
    ensures id in VideoIds(items) <==> id != "" && exists i :: 0 <= i < |items| && VideoIdOf(items[i]) == id
  {
    if items != [] {
      var init := items[..|items| - 1];
      VideoIdsMembership(init, id);
      if exists i :: 0 <= i < |init| && VideoIdOf(init[i]) == id {
        var i :| 0 <= i < |init| && VideoIdOf(init[i]) == id;
        assert items[i] == init[i];
      }
      if exists i :: 0 <= i < |items| && VideoIdOf(items[i]) == id {
        var i :| 0 <= i < |items| && VideoIdOf(items[i]) == id;
        if i < |init| { assert init[i] == items[i]; }
      }
    }
  }

  // ---------------------------------------------------------- details join

  /**
   * The object `videoDetails` that the `reduce` builds: `acc[video.id] = video`
   * for every video with a non-empty id, in order, so a later video with the
   * same id replaces an earlier one.
   */
  function IdIndex(videos: seq<Video>): map<string, Video> {
    if videos == [] then map[]
    else
      var last := videos[|videos| - 1];
      var acc := IdIndex(videos[..|videos| - 1]);
      if TruthyString(last.id) then acc[last.id.value := last] else acc
  }

  /**
   * The index holds exactly the non-empty ids of the videos, each mapped to
   * the last video that carries it.
   */
  lemma {:induction false} IdIndexSpec(videos: seq<Video>, k: string)
    ensures k in IdIndex(videos) <==> k != "" && exists i :: 0 <= i < |videos| && videos[i].id == Some(k)
    ensures k in IdIndex(videos) ==>
      exists i :: 0 <= i < |videos| && IdIndex(videos)[k] == videos[i] && videos[i].id == Some(k)
        && forall j :: i < j < |videos| ==> videos[j].id != Some(k)
  {
    if videos != [] {
      var n := |videos| - 1;
      var init := videos[..n];
      IdIndexSpec(init, k);
      if videos[n].id == Some(k) && k != "" {
        assert IdIndex(videos)[k] == videos[n];
      } else {
        if k in IdIndex(init) {
          var i :| 0 <= i < |init| && IdIndex(init)[k] == init[i] && init[i].id == Some(k)
            && forall j :: i < j < |init| ==> init[j].id != Some(k);
          assert videos[i] == init[i];
          assert forall j :: i < j < |videos| ==> videos[j].id != Some(k) by {
            forall j | i < j < |videos| ensures videos[j].id != Some(k) {
              if j < n { assert videos[j] == init[j]; }
            }
          }
        }
        if exists i :: 0 <= i < |videos| && videos[i].id == Some(k) {
          var i :| 0 <= i < |videos| && videos[i].id == Some(k);
          if i < n { assert init[i] == videos[i]; }
        }
      }
    }
  }

  /** The `reduce` over `videosResponse.data.items`. */
  method BuildVideoDetails(videos: seq<Video>) returns (acc: map<string, Video>)
    ensures acc == IdIndex(videos)
  {
    acc := map[];
    for i := 0 to |videos|
      invariant acc == IdIndex(videos[..i])
    {
      var video := videos[i];
      assert videos[..i + 1][..i] == videos[..i];
      if TruthyString(video.id) {
        acc := acc[video.id.value := video];
      }
    }
    assert videos[..|videos|] == videos;
  }

  // ---------------------------------------------------------------- records

  /** One record of the response, every field a string. */
  datatype LikedVideo = LikedVideo(
    id: string, videoId: string, title: string, description: string, thumbnail: string,
    publishedAt: string, channelId: string, channelTitle: string, duration: string,
    viewCount: string, likeCount: string, commentCount: string, category: string)

  /** `videoId ? videoDetails[videoId] || {} : {}`; `None` stands for the empty object. */
  function DetailOf(videoId: string, details: map<string, Video>): (r: Option<Video>)
    ensures r.Some? <==> videoId != "" && videoId in details
  {
    if videoId != "" && videoId in details then Some(details[videoId]) else None
  }

  function DurationOf(d: Option<Video>): Option<string> {
    if d.Some? && d.value.contentDetails.Some? then d.value.contentDetails.value.duration else None
  }

  /** `videoDetail.statistics`, or statistics with every count missing. */
  function StatisticsOf(d: Option<Video>): Statistics {
    if d.Some? && d.value.statistics.Some? then d.value.statistics.value else Statistics(None, None, None)
  }

  function CategoryOf(d: Option<Video>): Option<string> {
    if d.Some? && d.value.snippet.Some? then d.value.snippet.value.categoryId else None
  }

  /** `high || medium || default || ""` over the snippet's thumbnail urls. */
  function BestThumbnail(item: PlaylistItem): (r: string)
    ensures var t := ThumbnailsOf(item);
      && (TruthyString(UrlOf(t.high)) ==> r == UrlOf(t.high).value)
      && (!TruthyString(UrlOf(t.high)) && TruthyString(UrlOf(t.medium)) ==> r == UrlOf(t.medium).value)
      && (!TruthyString(UrlOf(t.high)) && !TruthyString(UrlOf(t.medium)) && TruthyString(UrlOf(t.default_)) ==>
            r == UrlOf(t.default_).value)
      && (r == "" <==> !TruthyString(UrlOf(t.high)) && !TruthyString(UrlOf(t.medium)) && !TruthyString(UrlOf(t.default_)))
  {
    var t := ThumbnailsOf(item);
    OrString(UrlOf(t.high), OrString(UrlOf(t.medium), OrString(UrlOf(t.default_), "")))
  }

  /**
   * The record of one playlist item joined with the details of its video.
   * Every field is the item's or the video's own value when that is a
   * non-empty string, else its default; an item whose video has no details
   * gets an empty duration and category and "0" counts.
   */
  function ToLikedVideo(item: PlaylistItem, details: map<string, Video>): (r: LikedVideo)
    ensures r.videoId == VideoIdOf(item)
    ensures r.title != "" && r.channelTitle != ""
    ensures r.viewCount != "" && r.likeCount != "" && r.commentCount != ""
    ensures TruthyString(SnippetOf(item).title) ==> r.title == SnippetOf(item).title.value
    ensures !TruthyString(SnippetOf(item).title) ==> r.title == "Untitled Video"
    ensures TruthyString(item.id) ==> r.id == item.id.value
    ensures !TruthyString(item.id) ==> r.id == ""
    ensures TruthyString(SnippetOf(item).description) ==> r.description == SnippetOf(item).description.value
    ensures !TruthyString(SnippetOf(item).description) ==> r.description == ""
    ensures TruthyString(SnippetOf(item).publishedAt) ==> r.publishedAt == SnippetOf(item).publishedAt.value
    ensures !TruthyString(SnippetOf(item).publishedAt) ==> r.publishedAt == ""
    ensures r.thumbnail == BestThumbnail(item)
    // the channel: the snippet's own channel, else the liked video's owner, else the default
    ensures var sn := SnippetOf(item);
      && (TruthyString(sn.channelTitle) ==> r.channelTitle == sn.channelTitle.value)
      && (!TruthyString(sn.channelTitle) && TruthyString(sn.videoOwnerChannelTitle) ==>
            r.channelTitle == sn.videoOwnerChannelTitle.value)
      && (!TruthyString(sn.channelTitle) && !TruthyString(sn.videoOwnerChannelTitle) ==>
            r.channelTitle == "Unknown Channel")
    ensures var sn := SnippetOf(item);
      && (TruthyString(sn.channelId) ==> r.channelId == sn.channelId.value)
      && (!TruthyString(sn.channelId) && TruthyString(sn.videoOwnerChannelId) ==>
            r.channelId == sn.videoOwnerChannelId.value)
      && (!TruthyString(sn.channelId) && !TruthyString(sn.videoOwnerChannelId) ==> r.channelId == "")
    ensures DetailOf(VideoIdOf(item), details).None? ==>
      r.duration == "" && r.viewCount == "0" && r.likeCount == "0" && r.commentCount == "0" && r.category == ""
    // a found video's details reach the record; each missing or empty one is defaulted
    ensures var d := DetailOf(VideoIdOf(item), details);
      d.Some? ==>
        && (d.value.contentDetails.Some? && TruthyString(d.value.contentDetails.value.duration) ==>
              r.duration == d.value.contentDetails.value.duration.value)
        && (!(d.value.contentDetails.Some? && TruthyString(d.value.contentDetails.value.duration)) ==> r.duration == "")
        && (d.value.snippet.Some? && TruthyString(d.value.snippet.value.categoryId) ==>
              r.category == d.value.snippet.value.categoryId.value)
        && (!(d.value.snippet.Some? && TruthyString(d.value.snippet.value.categoryId)) ==> r.category == "")
    ensures var d := DetailOf(VideoIdOf(item), details);
      d.Some? && d.value.statistics.Some? ==>
        var st := d.value.statistics.value;
        && (TruthyString(st.viewCount) ==> r.viewCount == st.viewCount.value)
        && (!TruthyString(st.viewCount) ==> r.viewCount == "0")
        && (TruthyString(st.likeCount) ==> r.likeCount == st.likeCount.value)
        && (!TruthyString(st.likeCount) ==> r.likeCount == "0")
        && (TruthyString(st.commentCount) ==> r.commentCount == st.commentCount.value)
        && (!TruthyString(st.commentCount) ==> r.commentCount == "0")
    ensures var d := DetailOf(VideoIdOf(item), details);
      d.Some? && d.value.statistics.None? ==> r.viewCount == "0" && r.likeCount == "0" && r.commentCount == "0"
  {
    var videoId := VideoIdOf(item);
    var videoDetail := DetailOf(videoId, details);
    var snippet := SnippetOf(item);
    var statistics := StatisticsOf(videoDetail);
    LikedVideo(
      OrString(item.id, ""),
      videoId,
      OrString(snippet.title, "Untitled Video"),
      OrString(snippet.description, ""),
      BestThumbnail(item),
      OrString(snippet.publishedAt, ""),
      OrString(snippet.channelId, OrString(snippet.videoOwnerChannelId, "")),
      OrString(snippet.channelTitle, OrString(snippet.videoOwnerChannelTitle, "Unknown Channel")),
      OrString(DurationOf(videoDetail), ""),
      OrString(statistics.viewCount, "0"),
      OrString(statistics.likeCount, "0"),
      OrString(statistics.commentCount, "0"),
      OrString(CategoryOf(videoDetail), ""))
  }

  /**
   * The join finds each item's video: an item whose id is carried by one of the
   * returned videos gets the details of the last such video.
   */
  lemma JoinFindsVideo(item: PlaylistItem, videos: seq<Video>)
    requires VideoIdOf(item) != ""
    requires exists i :: 0 <= i < |videos| && videos[i].id == Some(VideoIdOf(item))
    ensures var d := DetailOf(VideoIdOf(item), IdIndex(videos));
      && d.Some?
      && d.value.id == Some(VideoIdOf(item))
      && exists i :: 0 <= i < |videos| && d.value == videos[i]
           && forall j :: i < j < |videos| ==> videos[j].id != Some(VideoIdOf(item))
  {
    IdIndexSpec(videos, VideoIdOf(item));
  }

  // --------------------------------------------------------------- the route

  const NoSessionMessage := "Unauthorized: No active session or access token."
  const NoLikedVideosMessage := "No liked videos found or API access is restricted"
  const SessionErrorMessage := "Failed to get session. Please try logging in again."
  const NotAccessibleMessage := "Liked videos are not accessible. You may need to make your likes public in YouTube settings."
  const ForbiddenMessage := "Access to liked videos is forbidden. This could be due to privacy settings."
  const AuthorizationPrefix := "YouTube API Authorization Error: "
  const AuthorizationSuffix := ". Please ensure permissions are granted or try re-logging."

  /** What `GET` answers; `details` `None` is sent as "No details available". */
  datatype LikedVideosResponse =
    | SessionFailure(error: string)
    | Unauthorized(error: string)
    | NoLikedVideos(message: string)
    | LikedVideos(items: seq<LikedVideo>)
    | ApiFailure(error: string, details: Option<ApiErrorData>, status: int)

  /** The HTTP status of a response. */
  function StatusOf(resp: LikedVideosResponse): int {
    match resp
    case SessionFailure(_) => 401
    case Unauthorized(_) => 401
    case NoLikedVideos(_) => 200
    case LikedVideos(_) => 200
    case ApiFailure(_, _, status) => status
  }

  /**
   * The message for an API error: fixed texts for 404 and 403, and for every
   * other status the extracted message between the authorization prefix and
   * suffix.
   */
  function LikedVideosErrorMessage(statusCode: int, message: string): (r: string)
    ensures statusCode == 404 ==> r == NotAccessibleMessage
    ensures statusCode == 403 ==> r == ForbiddenMessage
    ensures statusCode != 404 && statusCode != 403 ==> r == AuthorizationPrefix + message + AuthorizationSuffix
  {
    if statusCode == 404 then NotAccessibleMessage
    else if statusCode == 403 then ForbiddenMessage
    else AuthorizationPrefix + message + AuthorizationSuffix
  }

  /** The response to a thrown API call: the classified message, the details and the extracted status. */
  function ErrorResponse(error: ThrownError): (r: LikedVideosResponse)
    ensures r.ApiFailure?
    ensures r.status == ExtractYouTubeAPIError(error).statusCode && r.status != 0
    ensures r.details == ExtractYouTubeAPIError(error).details
    ensures r.error != ""
  {
    var x := ExtractYouTubeAPIError(error);
    ApiFailure(LikedVideosErrorMessage(x.statusCode, x.message), x.details, x.statusCode)
  }

  /** The details the route joins with: from `videos.list` when it was called and returned items, else none. */
  function JoinedDetails(items: seq<PlaylistItem>, videosCall: CallResult<VideosResponse>): map<string, Video> {
    if |VideoIds(items)| > 0 && videosCall.Returned? && videosCall.value.items.Some? then
      IdIndex(videosCall.value.items.value)
    else map[]
  }

  /**
   * `GET`.  The three calls are inputs: the session lookup, `playlistItems.list`
   * on "LL", and `videos.list`, which is only consulted when some item has a
   * video id.
   */
  method GetLikedVideos(sessionCall: CallResult<Option<Session>>, playlistCall: CallResult<PlaylistResponse>,
                        videosCall: CallResult<VideosResponse>) returns (resp: LikedVideosResponse)
    ensures StatusOf(resp) != 0
    ensures sessionCall.Threw? ==> resp == SessionFailure(SessionErrorMessage)
    ensures sessionCall.Returned? && !Authorized(sessionCall.value) ==> resp == Unauthorized(NoSessionMessage)
    ensures sessionCall.Returned? && Authorized(sessionCall.value) ==>
      match playlistCall
      case Threw(e) => resp == ErrorResponse(e)
      case Returned(response) =>
        if response.items.None? || |response.items.value| == 0 then resp == NoLikedVideos(NoLikedVideosMessage)
        else
          var items := response.items.value;
          if |VideoIds(items)| > 0 && videosCall.Threw? then resp == ErrorResponse(videosCall.error)
          else
            && resp.LikedVideos?
            && |resp.items| == |items|
            && forall i :: 0 <= i < |items| ==> resp.items[i] == ToLikedVideo(items[i], JoinedDetails(items, videosCall))
  {
    if sessionCall.Threw? {
      return SessionFailure(SessionErrorMessage);
    }
    var session := sessionCall.value;
    if !Authorized(session) {
      return Unauthorized(NoSessionMessage);
    }
    if playlistCall.Threw? {
      return ErrorResponse(playlistCall.error);
    }
    var response := playlistCall.value;
    if response.items.None? || |response.items.value| == 0 {
      return NoLikedVideos(NoLikedVideosMessage);
    }
    var items := response.items.value;
    var videoIds := VideoIds(items);
    var videoDetails: map<string, Video> := map[];
    if |videoIds| > 0 {
      if videosCall.Threw? {
        return ErrorResponse(videosCall.error);
      }
      if videosCall.value.items.Some? {
        videoDetails := BuildVideoDetails(videosCall.value.items.value);
      }
    }
    var likedVideos := seq(|items|, i requires 0 <= i < |items| => ToLikedVideo(items[i], videoDetails));
    resp := LikedVideos(likedVideos);
  }
}
