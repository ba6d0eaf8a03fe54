/**
 * lib/youtube: a video is stored as several rows sharing one id, one row per
 * attribute, told apart by `dataType`. `Assemble` is the `Video` constructor,
 * which takes each attribute from the first row of its type; `Init` is the
 * lookup that turns a failed or empty query into "not found".
 */
module Youtube {
  import opened Wrappers
  import opened AwsInfra

  const VideoTitle := "VideoTitle"
  const ChannelID := "ChannelID"
  const PublishedAt := "PublishedAt"
  const ActualStartTime := "ActualStartTime"
  const ActualEndTime := "ActualEndTime"
  const ScheduledStartTime := "ScheduledStartTime"
  const VideoCollectionMetaData := "VideoCollectionMetaData"

  /** The seven discriminators the constructor looks at. */
  const FixedTypes: set<string> := {
    VideoTitle, ChannelID, PublishedAt, ActualStartTime, ActualEndTime,
    ScheduledStartTime, VideoCollectionMetaData
  }

  /** An assembled video; `None` is a field left `undefined`. */
  datatype Video = Video(
    id: Option<string>,
    title: Option<string>,
    channelId: Option<string>,
    publishedAt: Option<string>,
    actualStartTime: Option<string>,
    actualEndTime: Option<string>,
    scheduledStartTime: Option<string>)

  /** Position `i` holds the first row of type `t`. */
  ghost predicate IsFirstOfType(rs: seq<Record>, t: string, i: int) {
    0 <= i < |rs| && rs[i].dataType == t && forall j :: 0 <= j < i ==> rs[j].dataType != t
  }

  /** `findIndex((r) => r.dataType === t)`. */
  function FindIndex(rs: seq<Record>, t: string): (k: Option<nat>)
    ensures k.None? <==> forall i :: 0 <= i < |rs| ==> rs[i].dataType != t
    ensures k.Some? ==> IsFirstOfType(rs, t, k.value)
  {
    if rs == [] then None
    else if rs[0].dataType == t then Some(0)
    else match FindIndex(rs[1..], t)
      case None => None
      case Some(k) => Some(k + 1)
  }

  /** `find((r) => r.dataType === t)`. */
  function Find(rs: seq<Record>, t: string): Option<Record> {
    match FindIndex(rs, t)
    case None => None
    case Some(k) => Some(rs[k])
  }

  /** `find(...)?.dataValue`: absent when there is no such row or it has no value. */
  function DataValueOf(rs: seq<Record>, t: string): Option<string> {
    match Find(rs, t)
    case None => None
    case Some(r) => r.dataValue
  }

  /**
   * `f` is the value of the first row of type `t`, and absent when `rs` has
   * no row of that type.
   */
  ghost predicate TakesFirstValue(rs: seq<Record>, t: string, f: Option<string>) {
    && (forall i :: IsFirstOfType(rs, t, i) ==> f == rs[i].dataValue)
    && ((forall i :: 0 <= i < |rs| ==> rs[i].dataType != t) ==> f.None?)
  }

  /** The `Video` constructor. It never fails: missing rows give absent fields. */
  function Assemble(rs: seq<Record>): (v: Video)
    ensures forall i :: IsFirstOfType(rs, VideoCollectionMetaData, i) ==> v.id == Some(rs[i].id)
    ensures (forall i :: 0 <= i < |rs| ==> rs[i].dataType != VideoCollectionMetaData) ==> v.id.None?
    ensures TakesFirstValue(rs, VideoTitle, v.title)
    ensures TakesFirstValue(rs, ChannelID, v.channelId)
    ensures TakesFirstValue(rs, PublishedAt, v.publishedAt)
    ensures TakesFirstValue(rs, ActualStartTime, v.actualStartTime)
    ensures TakesFirstValue(rs, ActualEndTime, v.actualEndTime)
    ensures TakesFirstValue(rs, ScheduledStartTime, v.scheduledStartTime)
  {
    Video(
      id := match Find(rs, VideoCollectionMetaData)
        case None => None
        case Some(r) => Some(r.id),
      title := DataValueOf(rs, VideoTitle),
      channelId := DataValueOf(rs, ChannelID),
      publishedAt := DataValueOf(rs, PublishedAt),
      actualStartTime := DataValueOf(rs, ActualStartTime),
      actualEndTime := DataValueOf(rs, ActualEndTime),
      scheduledStartTime := DataValueOf(rs, ScheduledStartTime))
  }

  /**
   * `Video.init`: absent when the query failed or found nothing, otherwise
   * the video built from exactly the rows it returned.
   */
  function Init(queried: Option<seq<Record>>): (v: Option<Video>)
    ensures v.None? <==> queried.None? || queried.value == []
    ensures v.Some? ==> v.value == Assemble(queried.value)
  {
    match queried
    case None => None
    case Some(rs) => if |rs| == 0 then None else Some(Assemble(rs))
  }

  // ----- Which rows matter -----

  /** The rows whose type is one of the seven the constructor reads. */
  function OnlyFixed(rs: seq<Record>): (fs: seq<Record>)
    ensures forall r :: r in fs ==> r in rs && r.dataType in FixedTypes
  {
    if rs == [] then []
    else (if rs[0].dataType in FixedTypes then [rs[0]] else []) + OnlyFixed(rs[1..])
  }

  lemma {:induction false} FindIgnoresOtherTypes(rs: seq<Record>, t: string)
    requires t in FixedTypes
    ensures Find(OnlyFixed(rs), t) == Find(rs, t)
  {
    if rs != [] {
      FindIgnoresOtherTypes(rs[1..], t);
      var rest := OnlyFixed(rs[1..]);
      if rs[0].dataType in FixedTypes {
        assert OnlyFixed(rs) == [rs[0]] + rest;
        assert ([rs[0]] + rest)[1..] == rest;
      } else {
        assert OnlyFixed(rs) == rest;
      }
    }
  }

  /** Rows of any other type, `Tag:...` rows among them, have no effect on the video. */
  lemma OtherTypesAreIgnored(rs: seq<Record>)
    ensures Assemble(OnlyFixed(rs)) == Assemble(rs)
  {
    forall t | t in FixedTypes
      ensures Find(OnlyFixed(rs), t) == Find(rs, t)
    {
      FindIgnoresOtherTypes(rs, t);
    }
  }

  lemma {:induction false} FindAppend(rs: seq<Record>, ss: seq<Record>, t: string)
    ensures Find(rs + ss, t) == if Find(rs, t).Some? then Find(rs, t) else Find(ss, t)
  {
    if rs == [] {
      assert rs + ss == ss;
    } else {
      assert (rs + ss)[1..] == rs[1..] + ss;
      FindAppend(rs[1..], ss, t);
    }
  }

  /** A row whose type already occurs is shadowed by the earlier one. */
  lemma EarlierRowWins(rs: seq<Record>, r: Record)
    requires exists i :: 0 <= i < |rs| && rs[i].dataType == r.dataType
    ensures Assemble(rs + [r]) == Assemble(rs)
  {
    forall t | t in FixedTypes
      ensures Find(rs + [r], t) == Find(rs, t)
    {
      FindAppend(rs, [r], t);
      if Find(rs, t).None? {
        assert [r][0] == r;
      }
    }
  }

  /** No fixed discriminator occurs twice. */
  ghost predicate UniqueFixedTypes(rs: seq<Record>) {
    forall i, j :: 0 <= i < j < |rs| && rs[i].dataType in FixedTypes ==> rs[i].dataType != rs[j].dataType
  }

  lemma FindTheOnlyRow(rs: seq<Record>, t: string, r: Record)
    requires UniqueFixedTypes(rs) && t in FixedTypes
    requires r in rs && r.dataType == t
    ensures Find(rs, t) == Some(r)
  {
  }

  /**
   * When each discriminator occurs at most once, the video does not depend
   * on the order of the rows.
   */
  lemma OrderIsIrrelevantForUniqueTypes(rs: seq<Record>, ss: seq<Record>)
    requires UniqueFixedTypes(rs) && UniqueFixedTypes(ss)
    requires forall r :: r in rs <==> r in ss
    ensures Assemble(rs) == Assemble(ss)
  {
    forall t | t in FixedTypes
      ensures Find(rs, t) == Find(ss, t)
    {
      match FindIndex(rs, t)
      case Some(k) =>
        FindTheOnlyRow(rs, t, rs[k]);
        FindTheOnlyRow(ss, t, rs[k]);
      case None =>
        forall j | 0 <= j < |ss|
          ensures ss[j].dataType != t
        {
          assert ss[j] in rs;
        }
    }
  }

  // ----- The lookup against the table -----

  /** The table's composite key makes every type occur at most once under one id. */
  lemma QueryResultHasUniqueTypes(rows: Rows, id: string, rs: seq<Record>)
    requires IsQueryResult(rows, id, rs)
    ensures UniqueFixedTypes(rs)
  {
  }

  /** Any two answers to the same query give the same video. */
  lemma InitIsIndependentOfQueryOrder(rows: Rows, id: string, rs: seq<Record>, ss: seq<Record>)
    requires IsQueryResult(rows, id, rs) && IsQueryResult(rows, id, ss)
    ensures Init(Some(rs)) == Init(Some(ss))
  {
    QueryResultHasUniqueTypes(rows, id, rs);
    QueryResultHasUniqueTypes(rows, id, ss);
    forall r | r in rs
      ensures r in ss
    {
      assert rows[KeyOf(r)] == r;
    }
    forall r | r in ss
      ensures r in rs
    {
      assert rows[KeyOf(r)] == r;
    }
    if rs != [] {
      assert rs[0] in ss;
    }
    if ss != [] {
      assert ss[0] in rs;
    }
    OrderIsIrrelevantForUniqueTypes(rs, ss);
  }

  /** A successful query finds a video exactly when the table holds a row under that id. */
  lemma InitFindsStoredVideo(rows: Rows, id: string, rs: seq<Record>)
    requires IsQueryResult(rows, id, rs)
    ensures Init(Some(rs)).Some? <==> exists k :: k in rows && k.0 == id
  {
  }

  /**
   * The video's id is the id of its `VideoCollectionMetaData` row: it equals
   * the looked-up id when the table has that row and is absent otherwise.
   */
  lemma InitIdComesFromMetaDataRow(rows: Rows, id: string, rs: seq<Record>)
    requires WellKeyed(rows) && IsQueryResult(rows, id, rs)
    requires rs != []
    ensures Init(Some(rs)).value.id.Some? <==> (id, VideoCollectionMetaData) in rows
    ensures Init(Some(rs)).value.id.Some? ==> Init(Some(rs)).value.id.value == id
  {
  }
}
