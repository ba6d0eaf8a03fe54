/**
 * func/getVideosId: `GET /videos/{videoId}`. One lookup; not found is a 404.
 *
 * `query(id)` is the query by partition key (`None` when it failed) and
 * `makeVideoResponse` the video's own response object.
 */
module GetVideosIdHandler {
  import opened Wrappers
  import opened AwsInfra
  import opened Youtube
  import opened Http

  /** `pathParameters`, once present. */
  datatype PathParams = PathParams(videoId: Option<string>)

  const RequiredParamIsNotProvidedAtAll := "RequiredParamIsNotProvidedAtAll"

  /** `validateReqParams`: only a missing parameter object is rejected. */
  function ValidateReqParams(params: Option<PathParams>): (e: Option<ErrorHandler>)
    ensures e.None? <==> params.Some?
    ensures e.Some? ==> e.value == ErrorHandler(RequiredParamIsNotProvidedAtAll, None)
  {
    match params
    case None => Some(ErrorHandler(RequiredParamIsNotProvidedAtAll, None))
    case Some(_) => None
  }

  /** `makeErrorResponse`: 400 for missing parameters, 404 naming the id, 500 otherwise. */
  function MakeErrorResponse<R>(e: ErrorHandler): (r: Response<R>)
    ensures r.statusCode == 400 <==> e.code == RequiredParamIsNotProvidedAtAll
    ensures r.statusCode == 404 <==> e.code == ProvidedVideoIdIsNotFound
    ensures r.statusCode in {400, 404} ==> r.body == ErrorBody(e.code, if r.statusCode == 404 then e.area else None)
    ensures r.statusCode !in {400, 404} ==> r.statusCode == 500 && r.body == ErrorBody(UnhandledError, None)
    ensures r.headers == map[]
  {
    if e.code == RequiredParamIsNotProvidedAtAll then Error(400, e.code, None)
    else if e.code == ProvidedVideoIdIsNotFound then Error(404, e.code, e.area)
    else Unhandled()
  }

  /**
   * `getVideos`: a 404 naming the requested id when no video is found,
   * otherwise a 200 with the response object of the assembled video.
   */
  function GetVideos<R>(
    p: PathParams,
    query: string -> Option<seq<Record>>,
    makeVideoResponse: Video -> R): (r: Response<R>)
    ensures var q := query(KeyText(p.videoId));
      && (r.statusCode == 404 <==> q.None? || q.value == [])
      && (r.statusCode == 404 ==> r.body == ErrorBody(ProvidedVideoIdIsNotFound, p.videoId))
      && (r.statusCode != 404 ==>
            r.statusCode == 200 && r.body == ResultSet(ApiVersion, makeVideoResponse(Assemble(q.value))))
    ensures r.headers == map[]
  {
    match Init(query(KeyText(p.videoId)))
    case None => MakeErrorResponse(ErrorHandler(ProvidedVideoIdIsNotFound, p.videoId))
    case Some(video) => Ok(makeVideoResponse(video))
  }

  /** `lambdaHandler`: validate, then look the video up. */
  function LambdaHandler<R>(
    params: Option<PathParams>,
    query: string -> Option<seq<Record>>,
    makeVideoResponse: Video -> R): (r: Response<R>)
    ensures r.statusCode in {200, 400, 404}
    ensures r.statusCode == 400 <==> params.None?
    ensures params.None? ==> r.body == ErrorBody(RequiredParamIsNotProvidedAtAll, None)
    ensures params.Some? ==> r == GetVideos(params.value, query, makeVideoResponse)
  {
    match ValidateReqParams(params)
    case None => GetVideos(params.value, query, makeVideoResponse)
    case Some(e) => MakeErrorResponse(e)
  }

  /** A missing parameter object is answered without consulting the store. */
  lemma InvalidRequestIgnoresStore<R>(
    query1: string -> Option<seq<Record>>,
    query2: string -> Option<seq<Record>>,
    makeVideoResponse: Video -> R)
    ensures LambdaHandler(None, query1, makeVideoResponse) == LambdaHandler(None, query2, makeVideoResponse)
  {
  }

  /**
   * Against a table, the handler answers 404 exactly when no row is stored
   * under the requested id (or the query failed).
   */
  lemma NotFoundMeansNoStoredRow<R>(
    rows: Rows,
    p: PathParams,
    query: string -> Option<seq<Record>>,
    makeVideoResponse: Video -> R)
    requires query(KeyText(p.videoId)).Some? ==> IsQueryResult(rows, KeyText(p.videoId), query(KeyText(p.videoId)).value)
    ensures LambdaHandler(Some(p), query, makeVideoResponse).statusCode == 404 <==>
      query(KeyText(p.videoId)).None? || forall k :: k in rows ==> k.0 != KeyText(p.videoId)
  {
  }
}
