/** `AsyncMemoryCache`: a dict from session id to a dict of named fields. Its
    lock makes every operation atomic, so the model is a sequence of pure
    state transitions. Python dicts remember insertion order, which
    `get_all` exposes; the model keeps that order explicitly. */
module SessionCache {
  import opened Common
  import opened Json

  /** A query result, known only by identity and row count. */
  datatype DataFrame = DataFrame(handle: nat, rows: nat)

  /** The values the handlers store in a session. `Null` is Python's `None`,
      which `get` also returns for an absent id or field. */
  datatype Value =
    | Null
    | Text(s: string)
    | Frame(df: DataFrame)
    | Records(items: seq<JsonValue>)
    | Questions(questions: seq<string>)
    | Answers(pairs: seq<(string, string)>)

  /** `order` lists the session ids in insertion order. */
  datatype Cache = Cache(order: seq<string>, entries: map<string, map<string, Value>>)

  const EmptyCache: Cache := Cache([], map[])

  predicate Distinct(s: seq<string>) {
    forall i, j :: 0 <= i < j < |s| ==> s[i] != s[j]
  }

  /** The order lists every stored id exactly once. */
  predicate Valid(c: Cache) {
    && Distinct(c.order)
    && (forall id :: id in c.entries ==> id in c.order)
    && (forall i :: 0 <= i < |c.order| ==> c.order[i] in c.entries)
  }

  lemma EmptyCacheValid()
    ensures Valid(EmptyCache)
  {
  }

  /** `generate_id`: the fresh id comes from the UUID source; the cache is not
      touched. */
  function GenerateId(c: Cache, uuid: string): (r: (string, Cache))
    ensures r.1 == c
    ensures r.0 == uuid
  {
    (uuid, c)
  }

  /** `get`: `None` for an unknown id and for a known id lacking the field. */
  function Get(c: Cache, id: string, field: string): (r: Value)
    ensures id !in c.entries ==> r == Null
    ensures id in c.entries && field !in c.entries[id] ==> r == Null
  {
    if id !in c.entries then Null
    else if field in c.entries[id] then c.entries[id][field]
    else Null
  }

  /** `set`: creates the session on first use, at the end of the order. */
  function Set(c: Cache, id: string, field: string, v: Value): (r: Cache)
    ensures Valid(c) ==> Valid(r)
    ensures r.entries.Keys == c.entries.Keys + {id}
    ensures id in c.entries ==> r.order == c.order
    ensures id !in c.entries ==> r.order == c.order + [id]
  {
    if id in c.entries then Cache(c.order, c.entries[id := c.entries[id][field := v]])
    else Cache(c.order + [id], c.entries[id := map[field := v]])
  }

  /** After `set`, `get` of the same pair returns the value stored. */
  lemma GetAfterSet(c: Cache, id: string, field: string, v: Value)
    ensures Get(Set(c, id, field, v), id, field) == v
  {
  }

  /** `set` changes no other pair: other sessions, and the session's other fields. */
  lemma SetLeavesOthers(c: Cache, id: string, field: string, v: Value, id': string, field': string)
    requires id' != id || field' != field
    ensures Get(Set(c, id, field, v), id', field') == Get(c, id', field')
  {
  }

  /** The fields a session already had are kept, with their values. */
  lemma SetKeepsFields(c: Cache, id: string, field: string, v: Value)
    requires id in c.entries
    ensures var r := Set(c, id, field, v);
            && r.entries[id].Keys == c.entries[id].Keys + {field}
            && forall f :: f in c.entries[id] && f != field ==> r.entries[id][f] == c.entries[id][f]
  {
  }

  function Remove(order: seq<string>, id: string): (r: seq<string>)
    ensures forall x :: x in r <==> x in order && x != id
    ensures |r| <= |order|
  {
    if |order| == 0 then []
    else if order[0] == id then Remove(order[1..], id)
    else [order[0]] + Remove(order[1..], id)
  }

  lemma {:induction false} RemoveKeepsDistinct(order: seq<string>, id: string)
    requires Distinct(order)
    ensures Distinct(Remove(order, id))
    decreases |order|
  {
    if |order| > 0 {
      var tail := order[1..];
      var rest := Remove(tail, id);
      RemoveKeepsDistinct(tail, id);
      if order[0] != id {
        var r := [order[0]] + rest;
        forall i, j | 0 <= i < j < |r| ensures r[i] != r[j] {
          assert r[j] == rest[j - 1];
          assert r[j] in tail;
          var k :| 0 <= k < |tail| && tail[k] == r[j];
          assert tail[k] == order[k + 1];
          if i > 0 {
            assert r[i] == rest[i - 1];
          }
        }
      }
    }
  }

  /** `delete`: drops the whole session; an unknown id is a no-op. */
  function Delete(c: Cache, id: string): (r: Cache)
    ensures r.entries.Keys == c.entries.Keys - {id}
    ensures id in c.entries ==> forall x :: x in r.order <==> x in c.order && x != id
    ensures id !in c.entries ==> r == c
  {
    if id in c.entries then Cache(Remove(c.order, id), c.entries - {id})
    else c
  }

  lemma DeleteKeepsValid(c: Cache, id: string)
    requires Valid(c)
    ensures Valid(Delete(c, id))
  {
    if id in c.entries {
      RemoveKeepsDistinct(c.order, id);
      var order := Remove(c.order, id);
      assert Delete(c, id).order == order;
      assert forall i :: 0 <= i < |order| ==> order[i] in order;
    }
  }

  /** After `delete`, every field of the session reads as `None`; every
      other session reads as before. */
  lemma DeleteSemantics(c: Cache, id: string, id': string, field: string)
    ensures Get(Delete(c, id), id, field) == Null
    ensures id' != id ==> Get(Delete(c, id), id', field) == Get(c, id', field)
  {
  }

  /** One `get_all` record: "id", then each requested field in turn, a later
      assignment overwriting an earlier one under the same key. */
  function Record(c: Cache, id: string, fields: seq<string>): map<string, Value>
    decreases |fields|
  {
    if |fields| == 0 then map["id" := Text(id)]
    else Record(c, id, fields[..|fields| - 1])[fields[|fields| - 1] := Get(c, id, fields[|fields| - 1])]
  }

  lemma {:induction false} RecordContents(c: Cache, id: string, fields: seq<string>)
    ensures var r := Record(c, id, fields);
            && "id" in r
            && (forall k :: k in r ==> k == "id" || k in fields)
            && (forall f :: f in fields ==> f in r && r[f] == Get(c, id, f))
            && ("id" !in fields ==> r["id"] == Text(id))
    decreases |fields|
  {
    if |fields| > 0 {
      var init := fields[..|fields| - 1];
      RecordContents(c, id, init);
      assert fields == init + [fields[|fields| - 1]];
      assert forall f :: f in fields <==> f in init || f == fields[|fields| - 1];
    }
  }

  /** `get_all`: one record per stored session, in insertion order. */
  function GetAll(c: Cache, fields: seq<string>): (r: seq<map<string, Value>>)
    ensures |r| == |c.order|
    ensures forall i :: 0 <= i < |r| ==> r[i] == Record(c, c.order[i], fields)
  {
    seq(|c.order|, i requires 0 <= i < |c.order| => Record(c, c.order[i], fields))
  }

  /** Each record holds "id" and the requested fields, with `None` for the
      fields the session lacks; "id" is the session id unless it was itself
      requested as a field. */
  lemma GetAllRecords(c: Cache, fields: seq<string>, i: nat)
    requires Valid(c) && i < |c.order|
    ensures var r := GetAll(c, fields)[i];
            && "id" in r
            && (forall k :: k in r ==> k == "id" || k in fields)
            && (forall f :: f in fields ==> f in r && r[f] == Get(c, c.order[i], f))
            && (forall f :: f in fields && f !in c.entries[c.order[i]] ==> r[f] == Null)
            && ("id" !in fields ==> r["id"] == Text(c.order[i]))
  {
    RecordContents(c, c.order[i], fields);
  }

  /** A new session's record comes last, after the records of the older
      sessions, which are unchanged. */
  lemma GetAllAfterNewSession(c: Cache, id: string, field: string, v: Value, fields: seq<string>)
    requires Valid(c) && id !in c.entries
    ensures var before := GetAll(c, fields);
            var after := GetAll(Set(c, id, field, v), fields);
            && |after| == |before| + 1
            && after[|before|] == Record(Set(c, id, field, v), id, fields)
            && after[..|before|] == before
  {
    var c' := Set(c, id, field, v);
    forall i | 0 <= i < |c.order|
      ensures Record(c', c.order[i], fields) == Record(c, c.order[i], fields)
    {
      forall f ensures Get(c, c.order[i], f) == Get(c', c.order[i], f) {
        SetLeavesOthers(c, id, field, v, c.order[i], f);
      }
      RecordUnchanged(c, c', c.order[i], fields);
    }
  }

  lemma {:induction false} RecordUnchanged(c: Cache, c': Cache, id: string, fields: seq<string>)
    requires forall f :: Get(c, id, f) == Get(c', id, f)
    ensures Record(c, id, fields) == Record(c', id, fields)
    decreases |fields|
  {
    if |fields| > 0 {
      RecordUnchanged(c, c', id, fields[..|fields| - 1]);
    }
  }
}
