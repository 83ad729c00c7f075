/** The three training-data collections of the ChromaDB vector store (question/SQL
    pairs, DDL statements, documentation), their identifiers, removal, the
    exact-question fast path and the training-data listing. Embeddings and
    nearest-neighbour search are not modelled: they only feed `Retrieval`. */
module VectorStore {
  import opened Common
  import opened Text
  import opened Json

  datatype Kind = SqlKind | DdlKind | DocKind

  /** The suffix that tags an identifier with the collection it belongs to. */
  function Suffix(k: Kind): string {
    match k
    case SqlKind => "-sql"
    case DdlKind => "-ddl"
    case DocKind => "-doc"
  }

  /** A stored record: its identifier and its document text. */
  datatype Entry = Entry(id: string, document: string)

  /** The three collections, each in the order its records were added. */
  datatype Store = Store(sql: seq<Entry>, ddl: seq<Entry>, documentation: seq<Entry>)

  const EmptyStore: Store := Store([], [], [])

  /** `deterministic_uuid(content) + suffix`; the hash is a parameter because
      its code is not part of this model. */
  function MakeId(uuid: string -> string, content: string, k: Kind): (id: string)
    ensures EndsWith(id, Suffix(k))
  {
    EndsWithAppend(uuid(content), Suffix(k));
    uuid(content) + Suffix(k)
  }

  predicate HasId(col: seq<Entry>, id: string) {
    exists i :: 0 <= i < |col| && col[i].id == id
  }

  /** `collection.add(ids=id, documents=doc)`: an identifier already present is
      left as it is, so adding the same content twice stores it once. */
  function AddEntry(col: seq<Entry>, e: Entry): (r: seq<Entry>)
    ensures HasId(r, e.id)
    ensures HasId(col, e.id) ==> r == col
    ensures !HasId(col, e.id) ==> r == col + [e]
  {
    if HasId(col, e.id) then col
    else
      assert (col + [e])[|col|].id == e.id;
      col + [e]
  }

  /** `collection.delete(ids=id)`: every record with that identifier goes, the
      others stay in order. */
  function DeleteId(col: seq<Entry>, id: string): (r: seq<Entry>)
    ensures |r| <= |col|
  {
    if |col| == 0 then []
    else if col[0].id == id then DeleteId(col[1..], id)
    else [col[0]] + DeleteId(col[1..], id)
  }

  /** What `DeleteId` keeps: exactly the records with another identifier. */
  lemma {:induction false} DeleteIdMembers(col: seq<Entry>, id: string)
    ensures !HasId(DeleteId(col, id), id)
    ensures forall e :: e in DeleteId(col, id) <==> e in col && e.id != id
    decreases |col|
  {
    if |col| > 0 {
      var tail := col[1..];
      DeleteIdMembers(tail, id);
      assert col == [col[0]] + tail;
      var r := DeleteId(col, id);
      if col[0].id != id {
        assert r == [col[0]] + DeleteId(tail, id);
        forall i | 0 <= i < |r| ensures r[i].id != id {
          if i > 0 { assert r[i] == DeleteId(tail, id)[i - 1]; }
        }
      }
    }
  }

  lemma {:induction false} DeleteAbsent(col: seq<Entry>, id: string)
    requires !HasId(col, id)
    ensures DeleteId(col, id) == col
    decreases |col|
  {
    if |col| > 0 {
      var tail := col[1..];
      assert col[0].id != id;
      assert !HasId(tail, id) by {
        forall i | 0 <= i < |tail| ensures tail[i].id != id {
          assert tail[i] == col[i + 1];
        }
      }
      DeleteAbsent(tail, id);
      assert DeleteId(col, id) == [col[0]] + DeleteId(tail, id);
      assert [col[0]] + tail == col;
    }
  }

  lemma {:induction false} DeleteAppended(col: seq<Entry>, e: Entry)
    requires !HasId(col, e.id)
    ensures DeleteId(col + [e], e.id) == col
    decreases |col|
  {
    if |col| == 0 {
      assert col + [e] == [e];
    } else {
      assert (col + [e])[1..] == col[1..] + [e];
      forall i | 0 <= i < |col[1..]| ensures col[1..][i].id != e.id {
        assert col[1..][i] == col[i + 1];
      }
      assert col[0].id != e.id;
      DeleteAppended(col[1..], e);
      assert [col[0]] + col[1..] == col;
    }
  }

  /** The outcome of an `add_*` call: the new store and the identifier returned. */
  datatype Added = Added(store: Store, id: string)

  /** `add_question_sql`: the JSON of `{question, sql}` is stored in the SQL
      collection under the hash of that JSON tagged "-sql". */
  function AddQuestionSql(s: Store, uuid: string -> string, question: string, sql: string): (r: Added)
    ensures r.id == MakeId(uuid, EncodeQuestionSql(question, sql), SqlKind)
    ensures r.store.sql == AddEntry(s.sql, Entry(r.id, EncodeQuestionSql(question, sql)))
    ensures r.store.ddl == s.ddl && r.store.documentation == s.documentation
  {
    var doc := EncodeQuestionSql(question, sql);
    var id := MakeId(uuid, doc, SqlKind);
    Added(s.(sql := AddEntry(s.sql, Entry(id, doc))), id)
  }

  /** `add_ddl`: the statement is stored under its hash tagged "-ddl". */
  function AddDdl(s: Store, uuid: string -> string, ddl: string): (r: Added)
    ensures r.id == MakeId(uuid, ddl, DdlKind)
    ensures r.store.ddl == AddEntry(s.ddl, Entry(r.id, ddl))
    ensures r.store.sql == s.sql && r.store.documentation == s.documentation
  {
    var id := MakeId(uuid, ddl, DdlKind);
    Added(s.(ddl := AddEntry(s.ddl, Entry(id, ddl))), id)
  }

  /** `add_documentation`: the text is stored under its hash tagged "-doc". */
  function AddDocumentation(s: Store, uuid: string -> string, documentation: string): (r: Added)
    ensures r.id == MakeId(uuid, documentation, DocKind)
    ensures r.store.documentation == AddEntry(s.documentation, Entry(r.id, documentation))
    ensures r.store.sql == s.sql && r.store.ddl == s.ddl
  {
    var id := MakeId(uuid, documentation, DocKind);
    Added(s.(documentation := AddEntry(s.documentation, Entry(id, documentation))), id)
  }

  /** The suffixes tell the kinds apart: an identifier of one kind can never be
      produced for another kind, whatever the hash does. */
  lemma IdsOfDifferentKindsDiffer(uuid: string -> string, c1: string, k1: Kind, c2: string, k2: Kind)
    requires k1 != k2
    ensures MakeId(uuid, c1, k1) != MakeId(uuid, c2, k2)
  {
    var a, b := MakeId(uuid, c1, k1), MakeId(uuid, c2, k2);
    assert a[|a| - 4..] == Suffix(k1) && b[|b| - 4..] == Suffix(k2);
    assert Suffix(k1)[1] != Suffix(k2)[1] || Suffix(k1)[3] != Suffix(k2)[3];
  }

  /** Adding the same training item twice stores it once and returns the same id. */
  lemma AddTwiceIsAddOnce(s: Store, uuid: string -> string, question: string, sql: string, ddl: string, doc: string)
    ensures var a := AddQuestionSql(s, uuid, question, sql);
            AddQuestionSql(a.store, uuid, question, sql) == a
    ensures var a := AddDdl(s, uuid, ddl); AddDdl(a.store, uuid, ddl) == a
    ensures var a := AddDocumentation(s, uuid, doc); AddDocumentation(a.store, uuid, doc) == a
  {
  }

  /** `remove_training_data`: the suffix of the id picks the collection the
      record is deleted from; any other id is refused and nothing changes. */
  function RemoveTrainingData(s: Store, id: string): (r: (Store, bool))
    ensures r.1 <==> EndsWith(id, "-sql") || EndsWith(id, "-ddl") || EndsWith(id, "-doc")
    ensures !r.1 ==> r.0 == s
    ensures EndsWith(id, "-sql") ==> r.0 == s.(sql := DeleteId(s.sql, id))
    ensures EndsWith(id, "-ddl") ==> r.0 == s.(ddl := DeleteId(s.ddl, id))
    ensures EndsWith(id, "-doc") ==> r.0 == s.(documentation := DeleteId(s.documentation, id))
  {
    if EndsWith(id, "-sql") then
      (s.(sql := DeleteId(s.sql, id)), true)
    else if EndsWith(id, "-ddl") then
      (s.(ddl := DeleteId(s.ddl, id)), true)
    else if EndsWith(id, "-doc") then
      (s.(documentation := DeleteId(s.documentation, id)), true)
    else
      (s, false)
  }

  /** Every record sits in the collection its identifier's suffix names. */
  predicate Tagged(s: Store) {
    && (forall i :: 0 <= i < |s.sql| ==> EndsWith(s.sql[i].id, "-sql"))
    && (forall i :: 0 <= i < |s.ddl| ==> EndsWith(s.ddl[i].id, "-ddl"))
    && (forall i :: 0 <= i < |s.documentation| ==> EndsWith(s.documentation[i].id, "-doc"))
  }

  predicate AllTagged(col: seq<Entry>, suffix: string) {
    forall i :: 0 <= i < |col| ==> EndsWith(col[i].id, suffix)
  }

  lemma AddEntryKeepsTag(col: seq<Entry>, e: Entry, suffix: string)
    requires AllTagged(col, suffix) && EndsWith(e.id, suffix)
    ensures AllTagged(AddEntry(col, e), suffix)
  {
  }

  lemma AddKeepsTagged(s: Store, uuid: string -> string, question: string, sql: string, ddl: string, doc: string)
    requires Tagged(s)
    ensures Tagged(AddQuestionSql(s, uuid, question, sql).store)
    ensures Tagged(AddDdl(s, uuid, ddl).store)
    ensures Tagged(AddDocumentation(s, uuid, doc).store)
  {
    var a1 := AddQuestionSql(s, uuid, question, sql);
    AddEntryKeepsTag(s.sql, Entry(a1.id, EncodeQuestionSql(question, sql)), "-sql");
    var a2 := AddDdl(s, uuid, ddl);
    AddEntryKeepsTag(s.ddl, Entry(a2.id, ddl), "-ddl");
    var a3 := AddDocumentation(s, uuid, doc);
    AddEntryKeepsTag(s.documentation, Entry(a3.id, doc), "-doc");
  }

  lemma TaggedNotInOtherCollections(s: Store, id: string)
    requires Tagged(s)
    ensures !EndsWith(id, "-sql") ==> !HasId(s.sql, id)
    ensures !EndsWith(id, "-ddl") ==> !HasId(s.ddl, id)
    ensures !EndsWith(id, "-doc") ==> !HasId(s.documentation, id)
  {
  }

  /** On a tagged store, removing an id leaves no record with that id anywhere,
      keeps every other record, and is refused exactly when no collection could
      hold the id. */
  lemma RemoveTrainingDataRemovesExactly(s: Store, id: string)
    requires Tagged(s)
    ensures var (t, ok) := RemoveTrainingData(s, id);
            && Tagged(t)
            && !HasId(t.sql, id) && !HasId(t.ddl, id) && !HasId(t.documentation, id)
            && (forall e :: e in t.sql <==> e in s.sql && e.id != id)
            && (forall e :: e in t.ddl <==> e in s.ddl && e.id != id)
            && (forall e :: e in t.documentation <==> e in s.documentation && e.id != id)
            && (!ok ==> !HasId(s.sql, id) && !HasId(s.ddl, id) && !HasId(s.documentation, id))
  {
    TaggedNotInOtherCollections(s, id);
    DeleteIdMembers(s.sql, id);
    DeleteIdMembers(s.ddl, id);
    DeleteIdMembers(s.documentation, id);
    var t := RemoveTrainingData(s, id).0;
    if !EndsWith(id, "-sql") { DeleteAbsent(s.sql, id); }
    if !EndsWith(id, "-ddl") { DeleteAbsent(s.ddl, id); }
    if !EndsWith(id, "-doc") { DeleteAbsent(s.documentation, id); }
    forall i | 0 <= i < |t.sql| ensures EndsWith(t.sql[i].id, "-sql") {
      assert t.sql[i] in s.sql;
    }
    forall i | 0 <= i < |t.ddl| ensures EndsWith(t.ddl[i].id, "-ddl") {
      assert t.ddl[i] in s.ddl;
    }
    forall i | 0 <= i < |t.documentation| ensures EndsWith(t.documentation[i].id, "-doc") {
      assert t.documentation[i] in s.documentation;
    }
  }

  /** Removing the id that adding a new item returned gives back the store as it was. */
  lemma RemoveUndoesAdd(s: Store, uuid: string -> string, question: string, sql: string, ddl: string, doc: string)
    ensures var a := AddQuestionSql(s, uuid, question, sql);
            !HasId(s.sql, a.id) ==> RemoveTrainingData(a.store, a.id) == (s, true)
    ensures var a := AddDdl(s, uuid, ddl);
            !HasId(s.ddl, a.id) ==> RemoveTrainingData(a.store, a.id) == (s, true)
    ensures var a := AddDocumentation(s, uuid, doc);
            !HasId(s.documentation, a.id) ==> RemoveTrainingData(a.store, a.id) == (s, true)
  {
    var a1 := AddQuestionSql(s, uuid, question, sql);
    if !HasId(s.sql, a1.id) {
      DeleteAppended(s.sql, Entry(a1.id, EncodeQuestionSql(question, sql)));
      assert !EndsWith(a1.id, "-ddl") && !EndsWith(a1.id, "-doc") by {
        IdsOfDifferentKindsDiffer(uuid, EncodeQuestionSql(question, sql), SqlKind, "", DdlKind);
      }
    }
    var a2 := AddDdl(s, uuid, ddl);
    if !HasId(s.ddl, a2.id) {
      DeleteAppended(s.ddl, Entry(a2.id, ddl));
      assert a2.id[|a2.id| - 4..] == "-ddl";
    }
    var a3 := AddDocumentation(s, uuid, doc);
    if !HasId(s.documentation, a3.id) {
      DeleteAppended(s.documentation, Entry(a3.id, doc));
      assert a3.id[|a3.id| - 4..] == "-doc";
    }
  }

  /** `remove_collection`: "sql", "ddl" and "documentation" empty that
      collection and leave the other two alone; any other name is refused. */
  function RemoveCollection(s: Store, name: string): (r: (Store, bool))
    ensures r.1 <==> name in {"sql", "ddl", "documentation"}
    ensures !r.1 ==> r.0 == s
    ensures name == "sql" ==> r.0 == s.(sql := [])
    ensures name == "ddl" ==> r.0 == s.(ddl := [])
    ensures name == "documentation" ==> r.0 == s.(documentation := [])
  {
    if name == "sql" then (s.(sql := []), true)
    else if name == "ddl" then (s.(ddl := []), true)
    else if name == "documentation" then (s.(documentation := []), true)
    else (s, false)
  }

  /** The removal id suffix for documentation is "-doc", but the collection
      reset wants the full name: "doc" is refused. */
  lemma RemoveCollectionRefusesDoc(s: Store)
    ensures RemoveCollection(s, "doc") == (s, false)
  {
  }

  /** The normal form both sides of the exact-match comparison are put in. */
  function NormalizeQuestion(q: string): string {
    Lower(Strip(q))
  }

  /** `get_exact_question_sql` over the SQL collection's documents, in order:
      undecodable documents are skipped; a decoded value that is not a dict, or
      whose "question" is not a string, raises (only `JSONDecodeError` is caught). */
  function ExactFrom(docs: seq<string>, question: string, loads: string -> Option<JsonValue>): (r: Result<Option<JsonValue>>)
    decreases |docs|
  {
    if |docs| == 0 then Ok(None)
    else
      match loads(docs[0])
      case None => ExactFrom(docs[1..], question, loads)
      case Some(JObject(fields)) =>
        var q := GetField(fields, "question", JString(""));
        if !q.JString? then Err("AttributeError: 'question' is not a string")
        else if NormalizeQuestion(q.s) == NormalizeQuestion(question) then
          Ok(Some(GetField(fields, "sql", JString(""))))
        else ExactFrom(docs[1..], question, loads)
      case Some(_) => Err("AttributeError: decoded document is not a dict")
  }

  /** A document that decodes to a dict whose string "question" matches `question`. */
  predicate MatchesQuestion(doc: string, question: string, loads: string -> Option<JsonValue>) {
    && loads(doc).Some? && loads(doc).value.JObject?
    && GetField(loads(doc).value.fields, "question", JString("")).JString?
    && NormalizeQuestion(GetField(loads(doc).value.fields, "question", JString("")).s) == NormalizeQuestion(question)
  }

  /** A document the scan passes over without stopping: undecodable, or a dict
      with a string question that does not match. */
  predicate PassedOver(doc: string, question: string, loads: string -> Option<JsonValue>) {
    || loads(doc).None?
    || (&& loads(doc).value.JObject?
        && GetField(loads(doc).value.fields, "question", JString("")).JString?
        && !MatchesQuestion(doc, question, loads))
  }

  function Documents(col: seq<Entry>): (docs: seq<string>)
    ensures |docs| == |col| && forall i :: 0 <= i < |col| ==> docs[i] == col[i].document
  {
    if |col| == 0 then [] else [col[0].document] + Documents(col[1..])
  }

  /** `get_exact_question_sql`. */
  function GetExactQuestionSql(s: Store, question: string, loads: string -> Option<JsonValue>): Result<Option<JsonValue>> {
    ExactFrom(Documents(s.sql), question, loads)
  }

  /** Where the scan stops: the first document that is not passed over, or the
      end of the list. */
  function FirstStop(docs: seq<string>, question: string, loads: string -> Option<JsonValue>): (k: nat)
    ensures k <= |docs|
    ensures forall i :: 0 <= i < k ==> PassedOver(docs[i], question, loads)
    ensures k < |docs| ==> !PassedOver(docs[k], question, loads)
    decreases |docs|
  {
    if |docs| == 0 then 0
    else if PassedOver(docs[0], question, loads) then
      var k := 1 + FirstStop(docs[1..], question, loads);
      assert forall i :: 1 <= i < k ==> docs[i] == docs[1..][i - 1];
      k
    else 0
  }

  /** The stopping point is the least index that is not passed over. */
  lemma FirstStopIsLeast(docs: seq<string>, question: string, loads: string -> Option<JsonValue>, k: nat)
    requires k <= |docs|
    requires forall i :: 0 <= i < k ==> PassedOver(docs[i], question, loads)
    requires k < |docs| ==> !PassedOver(docs[k], question, loads)
    ensures FirstStop(docs, question, loads) == k
  {
  }

  /** The scan answers at the first document it cannot pass over: with that
      document's SQL when its question matches, with an exception when it is
      not a dict with a string question, and with nothing when every document
      is passed over. */
  lemma {:induction false} ExactFromFirstMatch(docs: seq<string>, question: string, loads: string -> Option<JsonValue>)
    ensures var k := FirstStop(docs, question, loads);
            var r := ExactFrom(docs, question, loads);
            && (k == |docs| ==> r == Ok(None))
            && (k < |docs| && MatchesQuestion(docs[k], question, loads) ==>
                  r == Ok(Some(GetField(loads(docs[k]).value.fields, "sql", JString("")))))
            && (k < |docs| && !MatchesQuestion(docs[k], question, loads) ==> r.Err?)
    decreases |docs|
  {
    if |docs| > 0 {
      if PassedOver(docs[0], question, loads) {
        ExactFromFirstMatch(docs[1..], question, loads);
        PassedOverSkipped(docs, question, loads);
        var k := FirstStop(docs, question, loads);
        assert k == 1 + FirstStop(docs[1..], question, loads);
        if k < |docs| {
          assert docs[k] == docs[1..][k - 1];
        }
      } else {
        StopAnswers(docs, question, loads);
      }
    }
  }

  /** A document passed over does not change the answer. */
  lemma PassedOverSkipped(docs: seq<string>, question: string, loads: string -> Option<JsonValue>)
    requires |docs| > 0 && PassedOver(docs[0], question, loads)
    ensures ExactFrom(docs, question, loads) == ExactFrom(docs[1..], question, loads)
  {
  }

  /** At a document it cannot pass over, the scan answers. */
  lemma StopAnswers(docs: seq<string>, question: string, loads: string -> Option<JsonValue>)
    requires |docs| > 0 && !PassedOver(docs[0], question, loads)
    ensures MatchesQuestion(docs[0], question, loads) ==>
              ExactFrom(docs, question, loads) == Ok(Some(GetField(loads(docs[0]).value.fields, "sql", JString(""))))
    ensures !MatchesQuestion(docs[0], question, loads) ==> ExactFrom(docs, question, loads).Err?
  {
  }

  /** After a scan that found nothing, one more document decides the answer alone. */
  lemma {:induction false} ExactFromAppend(docs: seq<string>, doc: string, question: string, loads: string -> Option<JsonValue>)
    requires ExactFrom(docs, question, loads) == Ok(None)
    ensures ExactFrom(docs + [doc], question, loads) == ExactFrom([doc], question, loads)
    decreases |docs|
  {
    if |docs| > 0 {
      assert (docs + [doc])[0] == docs[0];
      assert (docs + [doc])[1..] == docs[1..] + [doc];
      ExactFromAppend(docs[1..], doc, question, loads);
    } else {
      assert docs + [doc] == [doc];
    }
  }

  /** The comparison ignores case and surrounding whitespace: two questions with
      the same normal form get the same answer. */
  lemma {:induction false} ExactMatchIgnoresCaseAndSpace(docs: seq<string>, q1: string, q2: string, loads: string -> Option<JsonValue>)
    requires NormalizeQuestion(q1) == NormalizeQuestion(q2)
    ensures ExactFrom(docs, q1, loads) == ExactFrom(docs, q2, loads)
    decreases |docs|
  {
    if |docs| > 0 {
      ExactMatchIgnoresCaseAndSpace(docs[1..], q1, q2, loads);
    }
  }

  /** Adding a question/SQL pair makes the exact-match path find that SQL for
      any spelling of the question with the same normal form, when no earlier
      document matched and `json.loads` reads the stored JSON back (which
      `Json.LoadQuestionSql` shows it does). */
  lemma AddThenExactMatch(s: Store, uuid: string -> string, question: string, sql: string, asked: string,
                          loads: string -> Option<JsonValue>)
    requires NormalizeQuestion(asked) == NormalizeQuestion(question)
    requires GetExactQuestionSql(s, asked, loads) == Ok(None)
    requires loads(EncodeQuestionSql(question, sql)) == Some(QuestionSqlObject(question, sql))
    ensures var a := AddQuestionSql(s, uuid, question, sql);
            !HasId(s.sql, a.id) ==> GetExactQuestionSql(a.store, asked, loads) == Ok(Some(JString(sql)))
  {
    var a := AddQuestionSql(s, uuid, question, sql);
    if !HasId(s.sql, a.id) {
      var doc := EncodeQuestionSql(question, sql);
      DocumentsAppend(s.sql, Entry(a.id, doc));
      ExactFromAppend(Documents(s.sql), doc, asked, loads);
      ExactSingle(doc, asked, question, sql, loads);
    }
  }

  lemma DocumentsAppend(col: seq<Entry>, e: Entry)
    ensures Documents(col + [e]) == Documents(col) + [e.document]
  {
  }

  /** A lone document holding the pair answers with its SQL. */
  lemma ExactSingle(doc: string, asked: string, question: string, sql: string, loads: string -> Option<JsonValue>)
    requires NormalizeQuestion(asked) == NormalizeQuestion(question)
    requires loads(doc) == Some(QuestionSqlObject(question, sql))
    ensures ExactFrom([doc], asked, loads) == Ok(Some(JString(sql)))
  {
    var fields := QuestionSqlObject(question, sql).fields;
    QuestionSqlFields(question, sql);
    assert MatchesQuestion(doc, asked, loads);
    StopAnswers([doc], asked, loads);
  }

  /** One row of `get_training_data`. */
  datatype TrainingRow = TrainingRow(id: string, question: Option<JsonValue>, content: JsonValue, trainingDataType: string)

  function DecodeAll(docs: seq<string>, loads: string -> Option<JsonValue>): (r: Result<seq<JsonValue>>)
    ensures r.Ok? <==> forall i :: 0 <= i < |docs| ==> loads(docs[i]).Some?
    ensures r.Ok? ==> |r.value| == |docs| && forall i :: 0 <= i < |docs| ==> r.value[i] == loads(docs[i]).value
  {
    if |docs| == 0 then Ok([])
    else
      match loads(docs[0])
      case None => Err("JSONDecodeError")
      case Some(v) =>
        match DecodeAll(docs[1..], loads)
        case Err(e) =>
          assert !(forall i :: 0 <= i < |docs| ==> loads(docs[i]).Some?) by {
            var j :| 0 <= j < |docs[1..]| && loads(docs[1..][j]).None?;
            assert docs[j + 1] == docs[1..][j];
          }
          Err(e)
        case Ok(vs) => Ok([v] + vs)
  }

  /** `doc[key]` on a decoded document. */
  function Subscript(v: JsonValue, key: string): Result<JsonValue> {
    match v
    case JObject(fields) => if key in fields then Ok(fields[key]) else Err("KeyError")
    case _ => Err("TypeError")
  }

  function SubscriptAll(vs: seq<JsonValue>, key: string): (r: Result<seq<JsonValue>>)
    ensures r.Ok? <==> forall i :: 0 <= i < |vs| ==> Subscript(vs[i], key).Ok?
    ensures r.Ok? ==> |r.value| == |vs| && forall i :: 0 <= i < |vs| ==> r.value[i] == Subscript(vs[i], key).value
  {
    if |vs| == 0 then Ok([])
    else
      match Subscript(vs[0], key)
      case Err(e) => Err(e)
      case Ok(v) =>
        match SubscriptAll(vs[1..], key)
        case Err(e) =>
          assert !(forall i :: 0 <= i < |vs| ==> Subscript(vs[i], key).Ok?) by {
            var j :| 0 <= j < |vs[1..]| && Subscript(vs[1..][j], key).Err?;
            assert vs[j + 1] == vs[1..][j];
          }
          Err(e)
        case Ok(rest) => Ok([v] + rest)
  }

  /** The rows of the SQL collection: every document is decoded first, then
      every "question" read, then every "sql"; the first failure raises. */
  function SqlRows(col: seq<Entry>, loads: string -> Option<JsonValue>): (r: Result<seq<TrainingRow>>)
    ensures r.Ok? ==> |r.value| == |col|
    ensures r.Ok? ==> forall i :: 0 <= i < |col| ==>
              && loads(col[i].document).Some?
              && Subscript(loads(col[i].document).value, "question").Ok?
              && Subscript(loads(col[i].document).value, "sql").Ok?
              && r.value[i] == TrainingRow(col[i].id, Some(Subscript(loads(col[i].document).value, "question").value),
                                           Subscript(loads(col[i].document).value, "sql").value, "sql")
    ensures r.Ok? <==> forall i :: 0 <= i < |col| ==>
              && loads(col[i].document).Some?
              && Subscript(loads(col[i].document).value, "question").Ok?
              && Subscript(loads(col[i].document).value, "sql").Ok?
  {
    var docs := Documents(col);
    match DecodeAll(docs, loads)
    case Err(e) => Err(e)
    case Ok(values) =>
      match SubscriptAll(values, "question")
      case Err(e) => Err(e)
      case Ok(questions) =>
        match SubscriptAll(values, "sql")
        case Err(e) => Err(e)
        case Ok(sqls) =>
          Ok(seq(|col|, i requires 0 <= i < |col| => TrainingRow(col[i].id, Some(questions[i]), sqls[i], "sql")))
  }

  /** The rows of the DDL or documentation collection: the question is null and
      the content is the stored text. */
  function TextRows(col: seq<Entry>, typeName: string): (r: seq<TrainingRow>)
    ensures |r| == |col|
    ensures forall i :: 0 <= i < |col| ==> r[i] == TrainingRow(col[i].id, None, JString(col[i].document), typeName)
  {
    seq(|col|, i requires 0 <= i < |col| => TrainingRow(col[i].id, None, JString(col[i].document), typeName))
  }

  /** `get_training_data`: the SQL rows, then the DDL rows, then the documentation rows. */
  function GetTrainingData(s: Store, loads: string -> Option<JsonValue>): (r: Result<seq<TrainingRow>>)
    ensures r.Ok? <==> SqlRows(s.sql, loads).Ok?
    ensures r.Ok? ==> && |r.value| == |s.sql| + |s.ddl| + |s.documentation|
                      && (forall i :: 0 <= i < |s.sql| ==> r.value[i].id == s.sql[i].id && r.value[i].trainingDataType == "sql")
                      && (forall i :: 0 <= i < |s.ddl| ==>
                            r.value[|s.sql| + i] == TrainingRow(s.ddl[i].id, None, JString(s.ddl[i].document), "ddl"))
                      && (forall i :: 0 <= i < |s.documentation| ==>
                            r.value[|s.sql| + |s.ddl| + i] ==
                              TrainingRow(s.documentation[i].id, None, JString(s.documentation[i].document), "documentation"))
  {
    match SqlRows(s.sql, loads)
    case Err(e) => Err(e)
    case Ok(sqlRows) => Ok(sqlRows + TextRows(s.ddl, "ddl") + TextRows(s.documentation, "documentation"))
  }

  /** Every document of the SQL collection is one `add_question_sql` wrote. */
  predicate SqlDocumentsCanonical(s: Store) {
    forall i :: 0 <= i < |s.sql| ==> ParseQuestionSql(s.sql[i].document).Some?
  }

  lemma AddKeepsCanonical(s: Store, uuid: string -> string, question: string, sql: string, ddl: string, doc: string)
    requires SqlDocumentsCanonical(s)
    ensures SqlDocumentsCanonical(AddQuestionSql(s, uuid, question, sql).store)
    ensures SqlDocumentsCanonical(AddDdl(s, uuid, ddl).store)
    ensures SqlDocumentsCanonical(AddDocumentation(s, uuid, doc).store)
  {
    QuestionSqlRoundTrip(question, sql);
  }

  /** Listing a store whose SQL documents were all written by `add_question_sql`
      succeeds, and each SQL row shows the question and the SQL that were added. */
  lemma TrainingDataOfCanonicalStore(s: Store)
    requires SqlDocumentsCanonical(s)
    ensures var r := GetTrainingData(s, LoadQuestionSql);
            && r.Ok?
            && forall i :: 0 <= i < |s.sql| ==>
                 var (q, sql) := ParseQuestionSql(s.sql[i].document).value;
                 r.value[i] == TrainingRow(s.sql[i].id, Some(JString(q)), JString(sql), "sql")
  {
    forall i | 0 <= i < |s.sql|
      ensures var v := LoadQuestionSql(s.sql[i].document);
              v.Some? && Subscript(v.value, "question").Ok? && Subscript(v.value, "sql").Ok?
    {
    }
    var rows := SqlRows(s.sql, LoadQuestionSql);
    assert rows.Ok?;
  }

  /** How many neighbours each collection's query asks for: its own key, else
      "n_results", else 10; a missing config counts as empty. */
  datatype ResultCounts = ResultCounts(sql: int, documentation: int, ddl: int)

  function CountFor(config: map<string, int>, key: string): int {
    if key in config then config[key]
    else if "n_results" in config then config["n_results"]
    else 10
  }

  function ResultCountsOf(config: Option<map<string, int>>): (r: ResultCounts)
    ensures config.None? ==> r == ResultCounts(10, 10, 10)
    ensures config.Some? && "n_results_sql" in config.value ==> r.sql == config.value["n_results_sql"]
    ensures config.Some? && "n_results_documentation" in config.value ==> r.documentation == config.value["n_results_documentation"]
    ensures config.Some? && "n_results_ddl" in config.value ==> r.ddl == config.value["n_results_ddl"]
    ensures config.Some? && "n_results_sql" !in config.value ==>
              r.sql == (if "n_results" in config.value then config.value["n_results"] else 10)
    ensures config.Some? && "n_results_documentation" !in config.value ==>
              r.documentation == (if "n_results" in config.value then config.value["n_results"] else 10)
    ensures config.Some? && "n_results_ddl" !in config.value ==>
              r.ddl == (if "n_results" in config.value then config.value["n_results"] else 10)
  {
    var c := config.GetOr(map[]);
    ResultCounts(CountFor(c, "n_results_sql"), CountFor(c, "n_results_documentation"), CountFor(c, "n_results_ddl"))
  }

  /** Each count falls back on its own: a collection without its specific key
      gets "n_results", or 10 without it, whatever keys the other collections
      have. */
  lemma ResultCountsFallBack(config: map<string, int>, n: int)
    requires "n_results" in config ==> config["n_results"] == n
    requires "n_results" !in config ==> n == 10
    ensures "n_results_sql" !in config ==> ResultCountsOf(Some(config)).sql == n
    ensures "n_results_documentation" !in config ==> ResultCountsOf(Some(config)).documentation == n
    ensures "n_results_ddl" !in config ==> ResultCountsOf(Some(config)).ddl == n
  {
  }

  /** Only the four count keys are read: configs that agree on them give the
      same counts. */
  lemma ResultCountsReadOnlyCountKeys(a: map<string, int>, b: map<string, int>)
    requires forall k | k in {"n_results", "n_results_sql", "n_results_documentation", "n_results_ddl"} ::
               (k in a <==> k in b) && (k in a ==> a[k] == b[k])
    ensures ResultCountsOf(Some(a)) == ResultCountsOf(Some(b))
  {
  }
}
