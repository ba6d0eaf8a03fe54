/**
 * func/getVideos: `GET /videos?videoId=...` or `?channelId=...`.
 *
 * The store is reached through two reads that are parameters here:
 * `query(id)` is the query by partition key (`None` when it failed) and
 * `byChannel(channelId)` the lookup of the rows naming a channel. `tagsOf`
 * stands for the video's tag list.
 */
module GetVideosHandler {
  import opened Wrappers
  import opened Util
  import opened AwsInfra
  import opened Youtube
  import opened Http

  /** `queryStringParameters`, once present. */
  datatype QueryParams = QueryParams(videoId: Option<string>, channelId: Option<string>)

  const RequiredParamIsNotProvidedAtAll := "RequiredParamIsNotProvidedAtAll"
  const RequiredParamIsNotProvided := "RequiredParamIsNotProvided"
  const BothParams := "videoId or channelId"
  const CorsHeaders: map<string, string> := map["Access-Control-Allow-Origin" := "*"]

  /** A value assigned to a key of the response object; `Undefined` is dropped by `JSON.stringify`. */
  datatype Field = Text(text: string) | Undefined | Texts(items: seq<string>)

  /** `responseVideoObj`: an object built by assigning keys one at a time. */
  type VideoObject = map<string, Field>

  /** The keys every response object gets, whatever the video holds. */
  const AlwaysKeys: set<string> := {"id", "title", "publishedAt", "channelID"}
  const OptionalKeys: set<string> := {"scheduledStartTime", "actualStartTime", "actualEndTime", "tags"}

  /**
   * `validateReqParams`: missing parameters are rejected outright, and the
   * request passes as soon as one of the two ids is not blank.
   */
  function ValidateReqParams(params: Option<QueryParams>): (e: Option<ErrorHandler>)
    ensures params.None? ==> e == Some(ErrorHandler(RequiredParamIsNotProvidedAtAll, None))
    ensures params.Some? ==> (e.None? <==> !IsBlank(params.value.videoId) || !IsBlank(params.value.channelId))
    ensures params.Some? && e.Some? ==> e.value == ErrorHandler(RequiredParamIsNotProvided, Some(BothParams))
  {
    match params
    case None => Some(ErrorHandler(RequiredParamIsNotProvidedAtAll, None))
    case Some(p) =>
      if IsBlank(p.videoId) && IsBlank(p.channelId) then
        Some(ErrorHandler(RequiredParamIsNotProvided, Some(BothParams)))
      else None
  }

  /** `makeErrorResponse`: the two validation codes are client errors, anything else is a 500. */
  function MakeErrorResponse(e: ErrorHandler): (r: Response<seq<VideoObject>>)
    ensures r.statusCode == 400 <==> e.code in {RequiredParamIsNotProvidedAtAll, RequiredParamIsNotProvided}
    ensures r.statusCode == 400 ==> r.body.ErrorBody? && r.body.code == e.code
    ensures e.code == RequiredParamIsNotProvided ==> r.body.detail == e.area
    ensures e.code == RequiredParamIsNotProvidedAtAll ==> r.body.detail.None?
    ensures r.statusCode != 400 ==> r.statusCode == 500 && r.body == ErrorBody(UnhandledError, None)
    ensures r.headers == map[]
  {
    if e.code == RequiredParamIsNotProvidedAtAll then Error(400, e.code, None)
    else if e.code == RequiredParamIsNotProvided then Error(400, e.code, e.area)
    else Unhandled()
  }

  /** `getVideoByVideoId`: the video as a list of at most one element. */
  function GetVideoByVideoId(query: string -> Option<seq<Record>>, videoId: string): (vs: seq<Video>)
    ensures |vs| <= 1
    ensures vs != [] <==> query(videoId).Some? && query(videoId).value != []
    ensures vs != [] ==> vs[0] == Assemble(query(videoId).value)
  {
    match Init(query(videoId))
    case None => []
    case Some(v) => [v]
  }

  /**
   * `getVideosByChannelId` as written: one `Video.init` per row the channel
   * lookup returns, in order. The `as Video[]` cast keeps the absent ones.
   */
  function GetVideosByChannelIdAsWritten(
    byChannel: string -> Option<seq<Record>>,
    query: string -> Option<seq<Record>>,
    channelId: string): (os: seq<Option<Video>>)
    ensures byChannel(channelId).None? ==> os == []
    ensures byChannel(channelId).Some? ==> |os| == |byChannel(channelId).value|
    ensures byChannel(channelId).Some? ==>
      forall i :: 0 <= i < |os| ==> os[i] == Init(query(byChannel(channelId).value[i].id))
  {
    match byChannel(channelId)
    case None => []
    case Some(recs) => seq(|recs|, i requires 0 <= i < |recs| => Init(query(recs[i].id)))
  }

  /**
   * The present videos of a list, in order: `FoundAppend` with the
   * one-entry case below fixes the order and the multiplicity.
   */
  function Found(os: seq<Option<Video>>): (vs: seq<Video>)
    ensures |vs| <= |os|
    ensures forall v :: v in vs <==> Some(v) in os
    ensures (forall i :: 0 <= i < |os| ==> os[i].Some?) ==>
      |vs| == |os| && forall i :: 0 <= i < |os| ==> vs[i] == os[i].value
    ensures |os| == 1 ==> vs == (if os[0].Some? then [os[0].value] else [])
  {
    if os == [] then []
    else
      var rest := Found(os[1..]);
      assert forall i :: 1 <= i < |os| ==> os[i] == os[1..][i - 1];
      assert forall o :: o in os <==> o == os[0] || o in os[1..];
      match os[0]
      case Some(v) => [v] + rest
      case None => rest
  }

  /** Dropping absent entries distributes over concatenation. */
  lemma {:induction false} FoundAppend(os1: seq<Option<Video>>, os2: seq<Option<Video>>)
    ensures Found(os1 + os2) == Found(os1) + Found(os2)
  {
    if os1 != [] {
      assert (os1 + os2)[0] == os1[0];
      assert (os1 + os2)[1..] == os1[1..] + os2;
      FoundAppend(os1[1..], os2);
    } else {
      assert os1 + os2 == os2;
    }
  }

  /**
   * `getVideosByChannelId`, corrected: the videos that were found, in the
   * order of the channel lookup; one per row when every one is found.
   */
  function GetVideosByChannelId(
    byChannel: string -> Option<seq<Record>>,
    query: string -> Option<seq<Record>>,
    channelId: string): (vs: seq<Video>)
    ensures byChannel(channelId).None? ==> vs == []
    ensures byChannel(channelId).Some? ==> |vs| <= |byChannel(channelId).value|
    ensures byChannel(channelId).Some? ==> forall v :: v in vs ==>
      exists i :: 0 <= i < |byChannel(channelId).value| && Init(query(byChannel(channelId).value[i].id)) == Some(v)
    ensures (byChannel(channelId).Some? &&
      forall i :: 0 <= i < |byChannel(channelId).value| ==> Init(query(byChannel(channelId).value[i].id)).Some?) ==>
      && |vs| == |byChannel(channelId).value|
      && forall i :: 0 <= i < |vs| ==> Some(vs[i]) == Init(query(byChannel(channelId).value[i].id))
    ensures byChannel(channelId).Some? ==>
      forall i :: 0 <= i < |byChannel(channelId).value| && Init(query(byChannel(channelId).value[i].id)).Some? ==>
        Init(query(byChannel(channelId).value[i].id)).value in vs
    ensures byChannel(channelId).Some? && |byChannel(channelId).value| == 1 ==>
      vs == match Init(query(byChannel(channelId).value[0].id))
        case None => []
        case Some(v) => [v]
  {
    var os := GetVideosByChannelIdAsWritten(byChannel, query, channelId);
    assert forall v :: Some(v) in os ==> exists i :: 0 <= i < |os| && os[i] == Some(v);
    assert forall i :: 0 <= i < |os| ==> os[i] in os;
    Found(os)
  }

  /**
   * The corrected lookup keeps the order of the channel listing: a listing
   * split in two gives the videos of the first part, then those of the second.
   */
  lemma ChannelListingSplits(
    byChannel: string -> Option<seq<Record>>,
    byChannel1: string -> Option<seq<Record>>,
    byChannel2: string -> Option<seq<Record>>,
    query: string -> Option<seq<Record>>,
    channelId: string)
    requires byChannel(channelId).Some? && byChannel1(channelId).Some? && byChannel2(channelId).Some?
    requires byChannel(channelId).value == byChannel1(channelId).value + byChannel2(channelId).value
    ensures GetVideosByChannelId(byChannel, query, channelId) ==
      GetVideosByChannelId(byChannel1, query, channelId) + GetVideosByChannelId(byChannel2, query, channelId)
  {
    var os1 := GetVideosByChannelIdAsWritten(byChannel1, query, channelId);
    var os2 := GetVideosByChannelIdAsWritten(byChannel2, query, channelId);
    assert GetVideosByChannelIdAsWritten(byChannel, query, channelId) == os1 + os2;
    FoundAppend(os1, os2);
  }

  function FieldOf(o: Option<string>): Field {
    match o
    case Some(s) => Text(s)
    case None => Undefined
  }

  /**
   * The response object of one video: the four main keys are always
   * assigned, the other keys only when the video defines them.
   */
  function ToResponseObject(v: Video, tags: Option<seq<string>>): (obj: VideoObject)
    ensures AlwaysKeys <= obj.Keys <= AlwaysKeys + OptionalKeys
    ensures obj["id"] == FieldOf(v.id) && obj["title"] == FieldOf(v.title)
    ensures obj["publishedAt"] == FieldOf(v.publishedAt) && obj["channelID"] == FieldOf(v.channelId)
    ensures "scheduledStartTime" in obj <==> v.scheduledStartTime.Some?
    ensures "actualStartTime" in obj <==> v.actualStartTime.Some?
    ensures "actualEndTime" in obj <==> v.actualEndTime.Some?
    ensures "tags" in obj <==> tags.Some?
    ensures "scheduledStartTime" in obj ==> obj["scheduledStartTime"] == Text(v.scheduledStartTime.value)
    ensures "actualStartTime" in obj ==> obj["actualStartTime"] == Text(v.actualStartTime.value)
    ensures "actualEndTime" in obj ==> obj["actualEndTime"] == Text(v.actualEndTime.value)
    ensures "tags" in obj ==> obj["tags"] == Texts(tags.value)
  {
    var base := map[
      "id" := FieldOf(v.id),
      "title" := FieldOf(v.title),
      "publishedAt" := FieldOf(v.publishedAt),
      "channelID" := FieldOf(v.channelId)];
    var o1 := if v.scheduledStartTime.Some? then base["scheduledStartTime" := Text(v.scheduledStartTime.value)] else base;
    var o2 := if v.actualStartTime.Some? then o1["actualStartTime" := Text(v.actualStartTime.value)] else o1;
    var o3 := if v.actualEndTime.Some? then o2["actualEndTime" := Text(v.actualEndTime.value)] else o2;
    if tags.Some? then o3["tags" := Texts(tags.value)] else o3
  }

  /** The `videos` variable of `getVideos`: a defined `videoId` decides the branch. */
  function SelectVideos(
    p: QueryParams,
    byChannel: string -> Option<seq<Record>>,
    query: string -> Option<seq<Record>>): seq<Video>
  {
    if p.videoId.Some? then GetVideoByVideoId(query, p.videoId.value)
    else if p.channelId.Some? then GetVideosByChannelId(byChannel, query, p.channelId.value)
    else []
  }

  /**
   * `getVideos`: always a 200 with the current API version, one response
   * object per selected video, in order (possibly none).
   */
  function GetVideos(
    p: QueryParams,
    byChannel: string -> Option<seq<Record>>,
    query: string -> Option<seq<Record>>,
    tagsOf: Video -> Option<seq<string>>): (r: Response<seq<VideoObject>>)
    ensures r.statusCode == 200 && r.body.ResultSet? && r.body.apiVersion == ApiVersion
    ensures |r.body.result| == |SelectVideos(p, byChannel, query)|
    ensures forall i :: 0 <= i < |r.body.result| ==>
      var v := SelectVideos(p, byChannel, query)[i];
      r.body.result[i] == ToResponseObject(v, tagsOf(v))
  {
    var vs := SelectVideos(p, byChannel, query);
    Ok(seq(|vs|, i requires 0 <= i < |vs| => ToResponseObject(vs[i], tagsOf(vs[i]))))
  }

  /**
   * `lambdaHandler`: validation errors are 400s, everything else is the 200
   * of `getVideos`; every response carries the CORS header.
   */
  function LambdaHandler(
    params: Option<QueryParams>,
    byChannel: string -> Option<seq<Record>>,
    query: string -> Option<seq<Record>>,
    tagsOf: Video -> Option<seq<string>>): (r: Response<seq<VideoObject>>)
    ensures r.headers == CorsHeaders
    ensures r.statusCode in {200, 400}
    ensures r.statusCode == 400 <==>
      params.None? || (IsBlank(params.value.videoId) && IsBlank(params.value.channelId))
    ensures params.None? ==> r.body == ErrorBody(RequiredParamIsNotProvidedAtAll, None)
    ensures params.Some? && r.statusCode == 400 ==> r.body == ErrorBody(RequiredParamIsNotProvided, Some(BothParams))
    ensures r.statusCode == 200 ==>
      r.body.ResultSet? && r.body.apiVersion == ApiVersion &&
      |r.body.result| == |SelectVideos(params.value, byChannel, query)|
    ensures r.statusCode == 200 ==> r.body == GetVideos(params.value, byChannel, query, tagsOf).body
  {
    var response := match ValidateReqParams(params)
      case None => GetVideos(params.value, byChannel, query, tagsOf)
      case Some(e) => MakeErrorResponse(e);
    response.(headers := CorsHeaders)
  }

  /**
   * Dispatch tests `videoId` for being defined while validation tests it for
   * being blank: `videoId=''` with a channel passes validation, yet the
   * channel is never looked at and the result is the lookup of id ''.
   */
  lemma EmptyVideoIdShadowsChannelId(
    channelId: string,
    byChannel1: string -> Option<seq<Record>>,
    byChannel2: string -> Option<seq<Record>>,
    query: string -> Option<seq<Record>>,
    tagsOf: Video -> Option<seq<string>>)
    requires channelId != ""
    ensures var params := Some(QueryParams(Some(""), Some(channelId)));
      && LambdaHandler(params, byChannel1, query, tagsOf) == LambdaHandler(params, byChannel2, query, tagsOf)
      && LambdaHandler(params, byChannel1, query, tagsOf).statusCode == 200
      && LambdaHandler(params, byChannel1, query, tagsOf).body.result == (
        if query("").Some? && query("").value != []
        then var v := Assemble(query("").value); [ToResponseObject(v, tagsOf(v))]
        else [])
  {
  }

  // ----- getVideosByChannelId as written -----

  /** The `videos` variable of `getVideos` with the channel lookup as written. */
  function SelectVideosAsWritten(
    p: QueryParams,
    byChannel: string -> Option<seq<Record>>,
    query: string -> Option<seq<Record>>): (os: seq<Option<Video>>)
    ensures (exists i :: 0 <= i < |os| && os[i].None?) <==>
      && p.videoId.None? && p.channelId.Some? && byChannel(p.channelId.value).Some?
      && exists i :: 0 <= i < |byChannel(p.channelId.value).value| &&
           Init(query(byChannel(p.channelId.value).value[i].id)).None?
    ensures (forall i :: 0 <= i < |os| ==> os[i].Some?) ==>
      && |os| == |SelectVideos(p, byChannel, query)|
      && forall i :: 0 <= i < |os| ==> os[i] == Some(SelectVideos(p, byChannel, query)[i])
  {
    if p.videoId.Some? then
      var vs := GetVideoByVideoId(query, p.videoId.value);
      seq(|vs|, i requires 0 <= i < |vs| => Some(vs[i]))
    else if p.channelId.Some? then
      var os := GetVideosByChannelIdAsWritten(byChannel, query, p.channelId.value);
      assert (forall i :: 0 <= i < |os| ==> os[i].Some?) ==> Found(os) == GetVideosByChannelId(byChannel, query, p.channelId.value);
      os
    else []
  }

  /**
   * `getVideos` with the channel lookup as written: reading `v.id` of an
   * absent video throws, so a single missing video makes the whole request
   * fail instead of being left out.
   */
  function GetVideosAsWritten(
    p: QueryParams,
    byChannel: string -> Option<seq<Record>>,
    query: string -> Option<seq<Record>>,
    tagsOf: Video -> Option<seq<string>>): (o: Outcome<seq<VideoObject>>)
    ensures o.Raised? <==>
      && p.videoId.None? && p.channelId.Some? && byChannel(p.channelId.value).Some?
      && exists i :: 0 <= i < |byChannel(p.channelId.value).value| &&
           Init(query(byChannel(p.channelId.value).value[i].id)).None?
    ensures o.Responded? ==> o.response == GetVideos(p, byChannel, query, tagsOf)
  {
    var os := SelectVideosAsWritten(p, byChannel, query);
    if exists i :: 0 <= i < |os| && os[i].None? then Raised
    else
      var objs := seq(|os|, i requires 0 <= i < |os| => ToResponseObject(os[i].value, tagsOf(os[i].value)));
      assert objs == GetVideos(p, byChannel, query, tagsOf).body.result;
      Responded(Ok(objs))
  }

  /** The shipped code fails where the corrected lookup answers 200 with no videos. */
  lemma ChannelListingFailsOnMissingVideo()
    ensures var p := QueryParams(None, Some("UC1"));
      var byChannel := (c: string) => Some([Record("v1", "ChannelID", Some(c), None)]);
      var query := (id: string) => None;
      var tagsOf := (v: Video) => None;
      && GetVideosAsWritten(p, byChannel, query, tagsOf) == Raised
      && GetVideos(p, byChannel, query, tagsOf) == Ok([])
  {
  }
}
