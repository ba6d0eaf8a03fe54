# vget-API read model and handlers, in Dafny

This project models the core of a small serverless video API backed by one
DynamoDB table. Each video is stored as several rows that share an `id`. The
rows are told apart by a `dataType` discriminator (`VideoTitle`, `ChannelID`,
`PublishedAt`, `ActualStartTime`, `ActualEndTime`, `ScheduledStartTime`,
`VideoCollectionMetaData`, and free-form `Tag:...` rows).

The model covers:

- the `Video` constructor, which assembles a video from those rows, and `Video.init`;
- the blankness test `isBlank`;
- the three HTTP handlers, with the HTTP adapter reduced to status codes, error
  codes, the request detail an error message names, and headers:
  - `func/getVideos`: validation, dispatch by video id or by channel, and projection
    of each video onto a response object;
  - `func/getVideosId`: one lookup by the path's video id, with not-found answered by a 404;
  - `func/postVideoTags`: validation of tag bodies, one existence check per
    request, and one put per request only when every video exists.

Files and modules:

- `wrappers.dfy` (`Wrappers`): `Option`, which stands for a JavaScript value that may be `undefined`.
- `lists.dfy` (`Lists`): `filter`+`map` and `join`, written once over sequences.
- `util.dfy` (`Util`): `IsBlank`.
- `aws_infra.dfy` (`AwsInfra`):
  - the row shape `Record`;
  - the composite key `(id, dataType)`;
  - the table as a map `Rows`;
  - `IsQueryResult`, which says when a sequence is a possible answer of the query by `id`;
  - `PutAll`, the table after a sequence of puts;
  - the class `DataTable`, whose `PutItem` upserts a row and logs the put in a ghost `puts` sequence.
- `youtube.dfy` (`Youtube`): `Video`, `Find`, `Assemble` (the constructor), `Init`, and the lemmas about them.
- `http.dfy` (`Http`): `ErrorHandler`, `Response`, `Outcome` (an answer, or an exception).
- `get_videos.dfy`, `get_videos_id.dfy`, `post_video_tags.dfy`: the three handlers.

Collaborators that are called but whose code is not part of this model become
function-valued parameters:

- `query(id)`: the table query by partition key (`InfrastructureDynamoDB.getVideoByVideoId`). `None` means the query threw.
- `byChannel(channelId)`: `getRecordsByDataValue`.
- `isExist(videoId)`: `Video.isExistVideoId`.
- `tagRecord(request)`: the row that `new Tag(request).put()` writes.
- `tagsOf(video)`: `Video.tags`.
- `makeVideoResponse(video)`: `Video.makeVideoResponse`.

`IsQueryResult` ties `query` to a table. It lets the lemmas state what the
handlers return for what is stored.

A `Video` is a datatype value, so an assembled video cannot change. This
matches the `readonly` fields of the class.

Where the code and the design description disagree, the model follows the code:

- Existence is checked once per tag request, not once per distinct id. Duplicates stay in the not-found list.
- The tag handler rejects tag bodies without a `:`.
- The constructor never returns "absent". Only `init` turns an empty or failed query into absent.
- A video's `tags` may be undefined. When it is, the `tags` key is left out of the response object.

The audit field `by` of a row is named `actor` in the model, because `by` is a
Dafny keyword.

## Model

| member | source | states |
|---|---|---|
| `Util.IsBlank` | lib/util/index.ts:5-7 | blank exactly when the value is undefined or has length 0; a non-empty string, including spaces only, is never blank |
| `AwsInfra.KeyText` | lib/aws-infra/index.ts:83-86 | the query key `${videoId}` is the id itself, or the text "undefined" when no id is given |
| `AwsInfra.LastIndexWithKey` | lib/aws-infra/index.ts:62-65 | finds the last record of a batch under a composite key, and finds none exactly when no record has that key |
| `AwsInfra.PutAllAt` | lib/aws-infra/index.ts:38-53 | after a sequence of upserts, a key holds the last record written under it, or its earlier row when nothing was written under it |
| `AwsInfra.PutAllWellKeyed` | lib/aws-infra/index.ts:62-65 | upserts keep every row stored under its own (id, dataType) key |
| `AwsInfra.RepeatedPutAllIsIdempotent` | lib/aws-infra/index.ts:38-53 | writing the same batch twice leaves the same table as writing it once |
| `AwsInfra.DataTable.PutItem` | lib/aws-infra/index.ts:38-53 | a put replaces the row under the record's key, keeps the table keyed, and adds exactly one entry to the put log; a point lookup of the record's key then returns the record, and lookups of every other key are unchanged |
| `AwsInfra.DataTable.GetItem` | lib/aws-infra/index.ts:55-74 | the point lookup finds a row exactly when one is stored under (id, dataType), and then returns the stored row, which has that id and type |
| `Youtube.FindIndex` | lib/youtube/index.ts:27-36 | `find` on the discriminator returns the first position of that type, and returns nothing exactly when no row has it |
| `Youtube.Assemble` | lib/youtube/index.ts:26-37 | `id` is the id of the first `VideoCollectionMetaData` row; each other field is the `dataValue` of the first row of its type; each field is absent when no such row exists or the row has no value; construction never fails |
| `Youtube.Init` | lib/youtube/index.ts:38-43 | absent exactly when the query failed or returned no rows, otherwise the video built from exactly the returned rows |
| `Youtube.FindIgnoresOtherTypes` | lib/youtube/index.ts:27-36 | removing rows of types outside the seven fixed names does not change which row `find` picks for a fixed name |
| `Youtube.OtherTypesAreIgnored` | lib/youtube/index.ts:27-36 | rows whose type is not one of the seven fixed names, `Tag:...` rows among them, have no effect on the video |
| `Youtube.FindAppend` | lib/youtube/index.ts:27-36 | `find` over two concatenated lists picks from the first list whenever it has a match |
| `Youtube.EarlierRowWins` | lib/youtube/index.ts:27-36 | a later row whose type already occurs does not change the video; the earliest row wins |
| `Youtube.FindTheOnlyRow` | lib/youtube/index.ts:27-36 | when a fixed type occurs once, `find` returns that row wherever it stands |
| `Youtube.OrderIsIrrelevantForUniqueTypes` | lib/youtube/index.ts:27-36 | when each fixed type occurs at most once, the video does not depend on the order of the rows |
| `Youtube.QueryResultHasUniqueTypes` | lib/aws-infra/index.ts:62-65 | the (id, dataType) key means that a query by id returns each type at most once |
| `Youtube.InitIsIndependentOfQueryOrder` | lib/youtube/index.ts:38-43 | any two answers to the same query, in whatever order, give the same video |
| `Youtube.InitFindsStoredVideo` | lib/youtube/index.ts:38-43 | a successful query finds a video exactly when the table holds some row under the id |
| `Youtube.InitIdComesFromMetaDataRow` | lib/youtube/index.ts:27 | the video's id is present exactly when the table has the id's `VideoCollectionMetaData` row, and then equals the looked-up id |
| `Lists.FilterMap` | func/postVideoTags/index.ts:27-31 | `filter` then `map`: empty exactly when nothing is kept; it holds the image of every kept element and nothing else |
| `Lists.FilterMapAppend` | func/postVideoTags/index.ts:94-95 | filtering distributes over concatenation, so order and duplicates are kept |
| `Lists.Join` | func/postVideoTags/index.ts:99 | `join` of no ids is the empty text and of one id is that id |
| `Lists.JoinSnoc` | func/postVideoTags/index.ts:31 | joining a non-empty list with one more element appends the separator and then that element, so the list is rendered element by element with the separator between neighbours |
| `GetVideosHandler.ValidateReqParams` | func/getVideos/index.ts:16-29 | missing parameters give `RequiredParamIsNotProvidedAtAll`; otherwise validation passes exactly when `videoId` or `channelId` is not blank, and fails with `RequiredParamIsNotProvided` naming 'videoId or channelId' |
| `GetVideosHandler.MakeErrorResponse` | func/getVideos/index.ts:31-63 | the two validation codes are 400s with their own code, the area when the message names it, and no headers; every other code is a 500 `unhandledError` |
| `GetVideosHandler.GetVideoByVideoId` | func/getVideos/index.ts:65-72 | at most one video, present exactly when the query returned rows, and then the video assembled from them |
| `GetVideosHandler.GetVideosByChannelIdAsWritten` | func/getVideos/index.ts:74-86 | one `Video.init` result per row of the channel lookup, in the same order, absent ones included; a failed lookup gives an empty list |
| `GetVideosHandler.Found` | func/getVideos/index.ts:80-85 | holds a video exactly when the list holds it as present; one entry gives its video or nothing; when all are present it keeps them all, in place |
| `GetVideosHandler.FoundAppend` | func/getVideos/index.ts:80-85 | dropping absent entries distributes over concatenation, so with the one-entry case the present videos keep their order and multiplicity |
| `GetVideosHandler.GetVideosByChannelId` | func/getVideos/index.ts:74-86 | corrected lookup: a failed lookup gives none; every video returned is the `init` of some listed row, and every listed row whose video is found contributes it; a one-row listing gives that row's video or nothing; when every row's video is found, there is one video per row, in order |
| `GetVideosHandler.ChannelListingSplits` | func/getVideos/index.ts:74-86 | corrected lookup: a listing made of two parts gives the videos of the first part followed by those of the second, so the videos follow the order of the listing |
| `GetVideosHandler.ToResponseObject` | func/getVideos/index.ts:96-115 | `id`, `title`, `publishedAt` and `channelID` are always assigned from the video; `scheduledStartTime`, `actualStartTime`, `actualEndTime` and `tags` are assigned exactly when defined; no other key is assigned |
| `GetVideosHandler.GetVideos` | func/getVideos/index.ts:88-127 | with the corrected channel lookup: always status 200 with apiVersion '0.0.1', even with no videos; one response object per selected video, in the same order |
| `GetVideosHandler.LambdaHandler` | func/getVideos/index.ts:129-142 | with the corrected channel lookup: every response carries `Access-Control-Allow-Origin: *`; 400 exactly when the parameters are missing (body `RequiredParamIsNotProvidedAtAll`) or both ids are blank (body `RequiredParamIsNotProvided`, 'videoId or channelId'); otherwise 200 with the body of `getVideos` |
| `GetVideosHandler.EmptyVideoIdShadowsChannelId` | func/getVideos/index.ts:90-94 | with `videoId=''` and a non-blank channel, validation passes but the channel is never used: the answer is a 200 holding the lookup of id '' |
| `GetVideosHandler.SelectVideosAsWritten` | func/getVideos/index.ts:88-94 | the selected list holds an absent entry exactly when a channel lookup lists a row whose video is not found; otherwise it agrees with the corrected selection |
| `GetVideosHandler.GetVideosAsWritten` | func/getVideos/index.ts:88-127 | as written, the handler throws exactly when a channel lookup lists a video that is not found; in every other case it answers as the corrected handler does |
| `GetVideosHandler.ChannelListingFailsOnMissingVideo` | func/getVideos/index.ts:80-98 | a channel whose one listed video cannot be queried makes the code as written throw, while the corrected handler answers 200 with no videos |
| `GetVideosIdHandler.ValidateReqParams` | func/getVideosId/index.ts:10-17 | only a missing parameter object fails, with `RequiredParamIsNotProvidedAtAll` |
| `GetVideosIdHandler.MakeErrorResponse` | func/getVideosId/index.ts:19-51 | 400 for missing parameters, 404 carrying the area for `ProvidedVideoIdIsNotFound`, a 500 `unhandledError` for any other code |
| `GetVideosIdHandler.GetVideos` | func/getVideosId/index.ts:53-76 | 404 `ProvidedVideoIdIsNotFound` carrying the requested id exactly when the query failed or found no rows; otherwise 200 with apiVersion '0.0.1' and the response object of the assembled video |
| `GetVideosIdHandler.LambdaHandler` | func/getVideosId/index.ts:78-88 | status is 200, 400 or 404; 400 exactly when the parameters are missing; valid input always goes through the lookup |
| `GetVideosIdHandler.InvalidRequestIgnoresStore` | func/getVideosId/index.ts:81-83 | a missing parameter object is answered the same whatever the store holds |
| `GetVideosIdHandler.NotFoundMeansNoStoredRow` | func/getVideosId/index.ts:54-62 | against a table, the answer is a 404 exactly when the query failed or no row is stored under the requested id |
| `PostVideoTagsHandler.InvalidTags` | func/postVideoTags/index.ts:27-31 | the tag bodies without ':': no longer than the input, empty exactly when every body has ':', holding every body without one and only tag bodies of the input that lack one; one request gives its body or nothing |
| `PostVideoTagsHandler.InvalidTagsAppend` | func/postVideoTags/index.ts:28-30 | the invalid bodies of two concatenated batches are those of the first followed by those of the second, so with the one-request case they follow input order, duplicates kept |
| `PostVideoTagsHandler.ValidateReqParams` | func/postVideoTags/index.ts:15-38 | passes exactly when the body is present, tags are a non-empty list and every tag body contains ':'; a missing body, then missing, '' or empty tags, then bad bodies are reported in that order; a non-empty list with a body lacking ':' always gives `ProvidedTagsAreInvalid` with the invalid bodies comma-joined; a non-empty string `tags` throws |
| `PostVideoTagsHandler.MakeErrorResponse` | func/postVideoTags/index.ts:40-90 | the two body codes are 400s; `ProvidedVideoIdIsNotFound` and `ProvidedTagsAreInvalid` are both 404s carrying the area; any other code is a 500 |
| `PostVideoTagsHandler.NotFoundIds` | func/postVideoTags/index.ts:93-95 | the ids of failing requests: empty exactly when every referenced video exists; it holds every failing request's id and only ids that do not exist |
| `PostVideoTagsHandler.NotFoundIdsKeepRequestOrder` | func/postVideoTags/index.ts:93-95 | the not-found list follows request order, one entry per failing request, with duplicates kept |
| `PostVideoTagsHandler.TagRecords` | func/postVideoTags/index.ts:103 | one tag row per request, in request order |
| `PostVideoTagsHandler.PostVideoTags` | func/postVideoTags/index.ts:92-117 | any missing video gives a 404 listing the missing ids, with the table and the put log unchanged; otherwise exactly one put per request, in order, and a 200 with `Video: 'ok'` |
| `PostVideoTagsHandler.LambdaHandler` | func/postVideoTags/index.ts:119-128 | a request that fails validation is answered with its error response (or throws) without touching the table; a valid one answers a 404 listing the missing ids with the table and put log unchanged, or a 200 after exactly one put per request, in order |
| `PostVideoTagsHandler.PostedTagsAreStored` | func/postVideoTags/index.ts:103-104 | after a successful request, each request's tag row is in the table unless a later request of the batch wrote the same key |

## Findings

| source | as written | input that shows it | evidently intended | confidence | as-written member | corrected member |
|---|---|---|---|---|---|---|
| func/getVideos/index.ts:80-98 | `Promise.all(...) as Video[]` keeps `undefined` for each listed id whose `Video.init` is absent. The projection then reads `v.id` of it and throws. | channel `UC1` whose lookup lists a row of video `v1`, while the query for `v1` fails | leave videos that are not found out of the list and answer 200 | medium, not executed | `GetVideosHandler.ChannelListingFailsOnMissingVideo` | `GetVideosHandler.GetVideosByChannelId` |

`GetVideosHandler.LambdaHandler` uses the corrected lookup.
`GetVideosHandler.GetVideosAsWritten` proves that the two versions differ only on
such inputs.

## Left out

- The pagination codec, `getRecordsByDataValue`, `Video.isExistVideoId`, `Video.makeVideoResponse`, the `Tag` class and the extraction of `Video.tags` are not defined in any of the files modelled. They are function parameters: nothing is assumed about the base64/JSON token codec or about `Tag:` prefix handling.
- The `tags` member of a stored row (`DDBRecord.tags`) holds `Tag` objects of that class, so it is not part of `Record`.
- The `Actors` and `mainActor` fields of `Video` are declared but never assigned, so they are always undefined. They are not modelled.
- `AwsInfra.DataTable.PutItem`: a put that fails in the store is swallowed by a try/catch and completes as if nothing happened. The model does not capture this: every put takes effect.
- `AwsInfra.DataTable.GetItem`: a read that throws in the store is caught and answered as undefined. The model does not capture this: the point lookup always reads the table.
- Failed reads are modelled as `None` from `query`/`byChannel`. The DynamoDB client construction, credentials, SDK commands and the store's own result paging are not modelled.
- `Promise.all` concurrency is modelled as a sequential map and a sequential loop of puts. Two requests of one batch that write the same key are ordered by request order in the model; under `Promise.all` their order is not fixed, so `PostVideoTagsHandler.PostedTagsAreStored` makes no claim for such keys.
- Event parsing and response text are not modelled: `JSON.parse` of the body (and its exception on malformed JSON), `JSON.stringify`, message wording and `console.log`. The model keeps status codes, error codes, the detail a message names, and headers.
- A `tags` member that is neither missing, a string nor a list is not modelled, for example `null`, a number, or items without a `tag`.
- `isRunOnLocal` and the local-run blocks depend on the environment and are left out. The `getEnv` handler, which only echoes a variable, is left out too.
- The unused `axios` import and the `VideoThumbnails` type are left out.
