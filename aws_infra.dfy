/**
 * lib/aws-infra: the shape of one stored row and the table it lives in.
 *
 * The table is keyed by the pair (id, dataType); a put overwrites the row
 * with the same key. The SDK calls themselves are not modelled: reads reach
 * the handlers as function parameters whose results are tied to the rows by
 * `IsQueryResult`, and writes go through `DataTable.PutItem`.
 */
module AwsInfra {
  import opened Wrappers

  /** The audit block carried by some rows (`by` is spelled `actor`); never interpreted. */
  datatype Collection = Collection(operationType: string, at: string, actor: string)

  /** `DDBRecord`: partition key, sort key (the discriminator) and optional payload. */
  datatype Record = Record(
    id: string,
    dataType: string,
    dataValue: Option<string>,
    collection: Option<Collection>)

  /** The composite primary key (id, dataType). */
  type Key = (string, string)

  function KeyOf(r: Record): Key {
    (r.id, r.dataType)
  }

  /** The contents of the table: at most one row per key. */
  type Rows = map<Key, Record>

  /** Every row sits under its own key. */
  ghost predicate WellKeyed(rows: Rows) {
    forall k :: k in rows ==> KeyOf(rows[k]) == k
  }

  /**
   * `rs` is a possible answer of the query on partition key `id`: it lists
   * every row stored under `id`, each exactly once, in some order.
   */
  ghost predicate IsQueryResult(rows: Rows, id: string, rs: seq<Record>) {
    && (forall i :: 0 <= i < |rs| ==> rs[i].id == id && KeyOf(rs[i]) in rows && rows[KeyOf(rs[i])] == rs[i])
    && (forall k :: k in rows && k.0 == id ==> rows[k] in rs)
    && (forall i, j :: 0 <= i < j < |rs| ==> rs[i] != rs[j])
  }

  /**
   * The query key: `${videoId}` turns an absent id into the text "undefined".
   */
  function KeyText(id: Option<string>): (s: string)
    ensures id.Some? ==> s == id.value
    ensures id.None? ==> s == "undefined"
  {
    match id
    case Some(v) => v
    case None => "undefined"
  }

  /** The rows after putting each record of `rs` in turn. */
  function PutAll(rows: Rows, rs: seq<Record>): Rows {
    if rs == [] then rows
    else
      var last := rs[|rs| - 1];
      PutAll(rows, rs[..|rs| - 1])[KeyOf(last) := last]
  }

  /** The position of the last record of `rs` under key `k`, if any. */
  function LastIndexWithKey(rs: seq<Record>, k: Key): (n: Option<nat>)
    ensures n.None? <==> forall i :: 0 <= i < |rs| ==> KeyOf(rs[i]) != k
    ensures n.Some? ==> n.value < |rs| && KeyOf(rs[n.value]) == k
    ensures n.Some? ==> forall j :: n.value < j < |rs| ==> KeyOf(rs[j]) != k
  {
    if rs == [] then None
    else if KeyOf(rs[|rs| - 1]) == k then Some(|rs| - 1)
    else LastIndexWithKey(rs[..|rs| - 1], k)
  }

  /**
   * What a sequence of puts leaves under a key: the last record written
   * under it, or the earlier row when none was.
   */
  lemma {:induction false} PutAllAt(rows: Rows, rs: seq<Record>, k: Key)
    ensures k in PutAll(rows, rs) <==> k in rows || LastIndexWithKey(rs, k).Some?
    ensures LastIndexWithKey(rs, k).Some? ==> PutAll(rows, rs)[k] == rs[LastIndexWithKey(rs, k).value]
    ensures LastIndexWithKey(rs, k).None? && k in rows ==> PutAll(rows, rs)[k] == rows[k]
  {
    if rs != [] {
      var init := rs[..|rs| - 1];
      PutAllAt(rows, init, k);
      if KeyOf(rs[|rs| - 1]) != k {
        assert LastIndexWithKey(rs, k) == LastIndexWithKey(init, k);
        if LastIndexWithKey(init, k).Some? {
          assert rs[LastIndexWithKey(init, k).value] == init[LastIndexWithKey(init, k).value];
        }
      }
    }
  }

  /** Puts keep every row under its own key. */
  lemma {:induction false} PutAllWellKeyed(rows: Rows, rs: seq<Record>)
    requires WellKeyed(rows)
    ensures WellKeyed(PutAll(rows, rs))
  {
    if rs != [] {
      PutAllWellKeyed(rows, rs[..|rs| - 1]);
    }
  }

  /** Writing the same batch twice leaves the table as writing it once. */
  lemma RepeatedPutAllIsIdempotent(rows: Rows, rs: seq<Record>)
    ensures PutAll(PutAll(rows, rs), rs) == PutAll(rows, rs)
  {
    var once := PutAll(rows, rs);
    var twice := PutAll(once, rs);
    forall k | k in twice || k in once
      ensures k in twice && k in once && twice[k] == once[k]
    {
      PutAllAt(rows, rs, k);
      PutAllAt(once, rs, k);
    }
  }

  /**
   * The table whose rows the tag handler writes. `puts` is the log of put
   * calls made so far, in the order they were issued.
   */
  class DataTable {
    var rows: Rows
    ghost var puts: seq<Record>

    ghost predicate Valid()
      reads this
    {
      WellKeyed(rows)
    }

    constructor (initial: Rows)
      requires WellKeyed(initial)
      ensures Valid() && rows == initial && puts == []
    {
      rows := initial;
      puts := [];
    }

    /** `putItem`: upsert by the composite key. */
    method PutItem(r: Record)
      requires Valid()
      modifies this
      ensures Valid()
      ensures rows == old(rows)[KeyOf(r) := r]
      ensures puts == old(puts) + [r]
      ensures GetItem(r.id, r.dataType) == Some(r)
      ensures forall id, dataType :: (id, dataType) != KeyOf(r) ==> GetItem(id, dataType) == old(GetItem(id, dataType))
    {
      rows := rows[KeyOf(r) := r];
      puts := puts + [r];
    }

    /** `getItemByTable`: point lookup by (id, dataType). */
    function GetItem(id: string, dataType: string): (r: Option<Record>)
      reads this
      requires Valid()
      ensures r.Some? <==> (id, dataType) in rows
      ensures r.Some? ==> r.value.id == id && r.value.dataType == dataType
      ensures r.Some? ==> r.value == rows[(id, dataType)]
    {
      if (id, dataType) in rows then Some(rows[(id, dataType)]) else None
    }
  }
}
