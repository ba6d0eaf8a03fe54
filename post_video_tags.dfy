/**
 * func/postVideoTags: `POST /videos/tags` with a body `{tags: [{videoId, tag}]}`.
 *
 * Two collaborators are parameters: `isExist(videoId)` is the existence
 * check of a video, and `tagRecord(request)` the row the `Tag` entity puts
 * for a request. The concurrent checks and puts are issued one after the
 * other here; each touches its own key.
 */
module PostVideoTagsHandler {
  import opened Wrappers
  import opened Lists
  import opened AwsInfra
  import opened Http

  datatype TagRequest = TagRequest(videoId: string, tag: string)

  /** The `tags` member of the parsed body: missing, a string, or a list of requests. */
  datatype TagsField = Undefined | Text(text: string) | Items(items: seq<TagRequest>)

  datatype RequestBody = RequestBody(tags: TagsField)

  /** The result of `validateReqParams`, or the exception it throws. */
  datatype Validation = Passed | Failed(error: ErrorHandler) | Throws

  const RequiredBodyIsNotProvidedAtAll := "RequiredBodyIsNotProvidedAtAll"
  const RequiredBodyParamIsNotProvided := "RequiredBodyParamIsNotProvided"
  const ProvidedTagsAreInvalid := "ProvidedTagsAreInvalid"

  /** A tag body must have the `key:value` shape. */
  predicate HasColon(tag: string) {
    ':' in tag
  }

  /**
   * The tag bodies without a colon, in request order. Order is fixed by
   * `InvalidTagsAppend` together with the one-request case below.
   */
  function InvalidTags(items: seq<TagRequest>): (bad: seq<string>)
    ensures |bad| <= |items|
    ensures bad == [] <==> forall i :: 0 <= i < |items| ==> HasColon(items[i].tag)
    ensures forall s :: s in bad ==> !HasColon(s)
    ensures forall s :: s in bad ==> exists i :: 0 <= i < |items| && items[i].tag == s
    ensures forall i :: 0 <= i < |items| && !HasColon(items[i].tag) ==> items[i].tag in bad
    ensures |items| == 1 ==> bad == (if HasColon(items[0].tag) then [] else [items[0].tag])
  {
    FilterMap(items, (t: TagRequest) => !HasColon(t.tag), (t: TagRequest) => t.tag)
  }

  /** The invalid bodies of two batches are those of the first, then those of the second. */
  lemma InvalidTagsAppend(items1: seq<TagRequest>, items2: seq<TagRequest>)
    ensures InvalidTags(items1 + items2) == InvalidTags(items1) + InvalidTags(items2)
  {
    FilterMapAppend(items1, items2, (t: TagRequest) => !HasColon(t.tag), (t: TagRequest) => t.tag);
  }

  /**
   * `validateReqParams`: a missing body, then missing or empty `tags`, then
   * tag bodies without a colon, in that order.
   */
  function ValidateReqParams(body: Option<RequestBody>): (v: Validation)
    ensures v == Passed <==>
      body.Some? && body.value.tags.Items? && body.value.tags.items != [] &&
      forall i :: 0 <= i < |body.value.tags.items| ==> HasColon(body.value.tags.items[i].tag)
    ensures body.None? ==> v == Failed(ErrorHandler(RequiredBodyIsNotProvidedAtAll, None))
    ensures body.Some? && body.value.tags in {Undefined, Text(""), Items([])} ==>
      v == Failed(ErrorHandler(RequiredBodyParamIsNotProvided, Some("tags")))
    ensures (body.Some? && body.value.tags.Items? && body.value.tags.items != [] &&
             InvalidTags(body.value.tags.items) != []) ==>
      v == Failed(ErrorHandler(ProvidedTagsAreInvalid, Some(Join(InvalidTags(body.value.tags.items), ","))))
    ensures v.Failed? && v.error.code == ProvidedTagsAreInvalid ==>
      body.value.tags.Items? && v.error.area == Some(Join(InvalidTags(body.value.tags.items), ","))
    ensures v == Throws <==> body.Some? && body.value.tags.Text? && body.value.tags.text != ""
  {
    match body
    case None => Failed(ErrorHandler(RequiredBodyIsNotProvidedAtAll, None))
    case Some(b) =>
      match b.tags
      case Undefined => Failed(ErrorHandler(RequiredBodyParamIsNotProvided, Some("tags")))
      case Text(s) =>
        // `''` is caught; any other string has no `.some` to call.
        if s == "" then Failed(ErrorHandler(RequiredBodyParamIsNotProvided, Some("tags"))) else Throws
      case Items(items) =>
        if items == [] then Failed(ErrorHandler(RequiredBodyParamIsNotProvided, Some("tags")))
        else
          var bad := InvalidTags(items);
          if bad != [] then Failed(ErrorHandler(ProvidedTagsAreInvalid, Some(Join(bad, ","))))
          else Passed
  }

  /**
   * `makeErrorResponse`: body errors are 400s, an unknown video and invalid
   * tags are both 404s, anything else is a 500.
   */
  function MakeErrorResponse(e: ErrorHandler): (r: Response<string>)
    ensures r.statusCode == 400 <==> e.code in {RequiredBodyIsNotProvidedAtAll, RequiredBodyParamIsNotProvided}
    ensures r.statusCode == 404 <==> e.code in {ProvidedVideoIdIsNotFound, ProvidedTagsAreInvalid}
    ensures r.statusCode in {400, 404} ==>
      r.body == ErrorBody(e.code, if e.code == RequiredBodyIsNotProvidedAtAll then None else e.area)
    ensures r.statusCode !in {400, 404} ==> r.statusCode == 500 && r.body == ErrorBody(UnhandledError, None)
    ensures r.headers == map[]
  {
    if e.code == RequiredBodyIsNotProvidedAtAll then Error(400, e.code, None)
    else if e.code == RequiredBodyParamIsNotProvided then Error(400, e.code, e.area)
    else if e.code == ProvidedVideoIdIsNotFound then Error(404, e.code, e.area)
    else if e.code == ProvidedTagsAreInvalid then Error(404, e.code, e.area)
    else Unhandled()
  }

  /**
   * The video ids of the requests whose video does not exist: one entry per
   * failing request, in request order, duplicates kept.
   */
  function NotFoundIds(requests: seq<TagRequest>, isExist: string -> bool): (ids: seq<string>)
    ensures |ids| <= |requests|
    ensures ids == [] <==> forall i :: 0 <= i < |requests| ==> isExist(requests[i].videoId)
    ensures forall id :: id in ids ==> !isExist(id)
    ensures forall i :: 0 <= i < |requests| && !isExist(requests[i].videoId) ==> requests[i].videoId in ids
  {
    FilterMap(requests, (t: TagRequest) => !isExist(t.videoId), (t: TagRequest) => t.videoId)
  }

  /** Two batches checked together report the first batch's missing ids, then the second's. */
  lemma NotFoundIdsKeepRequestOrder(rs1: seq<TagRequest>, rs2: seq<TagRequest>, isExist: string -> bool)
    ensures NotFoundIds(rs1 + rs2, isExist) == NotFoundIds(rs1, isExist) + NotFoundIds(rs2, isExist)
  {
    FilterMapAppend(rs1, rs2, (t: TagRequest) => !isExist(t.videoId), (t: TagRequest) => t.videoId);
  }

  /** The rows a successful request writes: one per tag request, in order. */
  function TagRecords(requests: seq<TagRequest>, tagRecord: TagRequest -> Record): (recs: seq<Record>)
    ensures |recs| == |requests|
    ensures forall i :: 0 <= i < |requests| ==> recs[i] == tagRecord(requests[i])
  {
    seq(|requests|, i requires 0 <= i < |requests| => tagRecord(requests[i]))
  }

  /**
   * `postVideoTags`: when any referenced video is missing, a 404 listing the
   * missing ids and nothing is written; otherwise one put per request, in
   * order, and a 200.
   */
  method PostVideoTags(
    table: DataTable,
    requests: seq<TagRequest>,
    isExist: string -> bool,
    tagRecord: TagRequest -> Record) returns (r: Response<string>)
    requires table.Valid()
    modifies table
    ensures table.Valid()
    ensures var missing := NotFoundIds(requests, isExist);
      if missing != [] then
        && r == Error(404, ProvidedVideoIdIsNotFound, Some(Join(missing, ",")))
        && table.rows == old(table.rows) && table.puts == old(table.puts)
      else
        && r == Ok("ok")
        && table.puts == old(table.puts) + TagRecords(requests, tagRecord)
        && table.rows == PutAll(old(table.rows), TagRecords(requests, tagRecord))
  {
    var missing := NotFoundIds(requests, isExist);
    if missing != [] {
      r := MakeErrorResponse(ErrorHandler(ProvidedVideoIdIsNotFound, Some(Join(missing, ","))));
      return;
    }
    var recs := TagRecords(requests, tagRecord);
    for i := 0 to |recs|
      invariant table.Valid()
      invariant table.puts == old(table.puts) + recs[..i]
      invariant table.rows == PutAll(old(table.rows), recs[..i])
    {
      assert recs[..i + 1][..i] == recs[..i];
      table.PutItem(recs[i]);
    }
    assert recs[..|recs|] == recs;
    r := Ok("ok");
  }

  /**
   * `lambdaHandler`: a request that fails validation is answered (or throws)
   * without touching the table; a valid one goes through `PostVideoTags`.
   */
  method LambdaHandler(
    table: DataTable,
    body: Option<RequestBody>,
    isExist: string -> bool,
    tagRecord: TagRequest -> Record) returns (o: Outcome<string>)
    requires table.Valid()
    modifies table
    ensures table.Valid()
    ensures ValidateReqParams(body) == Throws ==> o == Raised
    ensures ValidateReqParams(body).Failed? ==> o == Responded(MakeErrorResponse(ValidateReqParams(body).error))
    ensures ValidateReqParams(body) != Passed ==> table.rows == old(table.rows) && table.puts == old(table.puts)
    ensures ValidateReqParams(body) == Passed ==>
      var requests := body.value.tags.items;
      o.Responded? &&
      if NotFoundIds(requests, isExist) != [] then
        && o.response == Error(404, ProvidedVideoIdIsNotFound, Some(Join(NotFoundIds(requests, isExist), ",")))
        && table.rows == old(table.rows) && table.puts == old(table.puts)
      else
        && o.response == Ok("ok")
        && table.puts == old(table.puts) + TagRecords(requests, tagRecord)
        && table.rows == PutAll(old(table.rows), TagRecords(requests, tagRecord))
  {
    match ValidateReqParams(body)
    case Throws =>
      o := Raised;
    case Failed(e) =>
      o := Responded(MakeErrorResponse(e));
    case Passed =>
      var r := PostVideoTags(table, body.value.tags.items, isExist, tagRecord);
      o := Responded(r);
  }

  /**
   * After a successful request, every request's row is in the table, unless
   * a later request of the same batch wrote the same key.
   */
  lemma PostedTagsAreStored(rows: Rows, requests: seq<TagRequest>, tagRecord: TagRequest -> Record, i: nat)
    requires i < |requests|
    requires forall j :: i < j < |requests| ==> KeyOf(tagRecord(requests[j])) != KeyOf(tagRecord(requests[i]))
    ensures var after := PutAll(rows, TagRecords(requests, tagRecord));
      KeyOf(tagRecord(requests[i])) in after && after[KeyOf(tagRecord(requests[i]))] == tagRecord(requests[i])
  {
    var recs := TagRecords(requests, tagRecord);
    var k := KeyOf(recs[i]);
    PutAllAt(rows, recs, k);
    var n := LastIndexWithKey(recs, k);
    assert n.Some? && n.value == i;
  }
}
