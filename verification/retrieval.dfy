/** How a nearest-neighbour query result becomes the list of retrieved documents:
    flattening of the nested document list with all-or-nothing JSON decoding,
    and, for the SQL collection, the relevance filter (distance at most 0.9,
    stable ascending sort by distance, at most five). */
module Retrieval {
  import opened Common
  import opened Json

  /** The dict a query returns, reduced to what is read from it. `documents` is
      `None` when the key is absent. A missing, `None` or empty "distances"
      entry all read as the empty list, since only its truth value and its
      first element are used. */
  datatype QueryResult = QueryResult(documents: Option<seq<JsonValue>>, distances: seq<seq<real>>)

  const Cutoff: real := 0.9
  const MaxRelevant: nat := 5

  /** `[json.loads(doc) for doc in items]`, or `None` when any item raises
      (a non-string item raises as well). */
  function DecodeEvery(items: seq<JsonValue>, loads: string -> Option<JsonValue>): (r: Option<seq<JsonValue>>)
    ensures r.Some? <==> forall i :: 0 <= i < |items| ==> items[i].JString? && loads(items[i].s).Some?
    ensures r.Some? ==> |r.value| == |items| && forall i :: 0 <= i < |items| ==> r.value[i] == loads(items[i].s).value
  {
    if |items| == 0 then Some([])
    else if !items[0].JString? || loads(items[0].s).None? then None
    else
      match DecodeEvery(items[1..], loads)
      case None =>
        assert !(forall i :: 0 <= i < |items[1..]| ==> items[1..][i].JString? && loads(items[1..][i].s).Some?);
        assert forall i :: 0 <= i < |items[1..]| ==> items[1..][i] == items[i + 1];
        None
      case Some(vs) => Some([loads(items[0].s).value] + vs)
  }

  /** A single nested list is flattened, decoded as a whole or else kept raw;
      any other document list is returned as it is. */
  predicate NestedOnce(documents: seq<JsonValue>) {
    |documents| == 1 && documents[0].JArray?
  }

  function Flatten(documents: seq<JsonValue>, loads: string -> Option<JsonValue>): (r: seq<JsonValue>)
    ensures !NestedOnce(documents) ==> r == documents
    ensures NestedOnce(documents) ==> |r| == |documents[0].items|
    ensures NestedOnce(documents) && DecodeEvery(documents[0].items, loads).Some? ==>
              forall i :: 0 <= i < |r| ==> r[i] == loads(documents[0].items[i].s).value
    ensures NestedOnce(documents) && DecodeEvery(documents[0].items, loads).None? ==> r == documents[0].items
  {
    if NestedOnce(documents) then
      match DecodeEvery(documents[0].items, loads)
      case Some(decoded) => decoded
      case None => documents[0].items
    else documents
  }

  /** A document paired with its distance. */
  datatype Scored<T> = Scored(doc: T, distance: real)

  /** `zip(docs, dists)`: pairs up to the shorter length. */
  function Zip<T>(docs: seq<T>, dists: seq<real>): (r: seq<Scored<T>>)
    ensures |r| == if |docs| < |dists| then |docs| else |dists|
    ensures forall i :: 0 <= i < |r| ==> r[i] == Scored(docs[i], dists[i])
  {
    if |docs| == 0 || |dists| == 0 then [] else [Scored(docs[0], dists[0])] + Zip(docs[1..], dists[1..])
  }

  /** The pairs within the cutoff, in their original order. */
  function KeepClose<T>(ps: seq<Scored<T>>): (r: seq<Scored<T>>)
    ensures |r| <= |ps|
  {
    if |ps| == 0 then []
    else if ps[0].distance <= Cutoff then [ps[0]] + KeepClose(ps[1..])
    else KeepClose(ps[1..])
  }

  lemma KeepCloseCons<T>(p: Scored<T>, rest: seq<Scored<T>>)
    ensures KeepClose([p] + rest) == if p.distance <= Cutoff then [p] + KeepClose(rest) else KeepClose(rest)
  {
    assert ([p] + rest)[1..] == rest;
  }

  /** Pairing agrees with any sequence that pairs the same elements. */
  lemma ZipIndexed<T>(xs: seq<T>, ds: seq<real>, ps: seq<Scored<T>>)
    requires |xs| == |ds| == |ps|
    requires forall i :: 0 <= i < |ps| ==> ps[i] == Scored(xs[i], ds[i])
    ensures Zip(xs, ds) == ps
  {
  }

  /** The kept pairs are exactly the input's pairs within the cutoff. */
  lemma {:induction false} KeepCloseKeepsExactlyTheClose<T>(ps: seq<Scored<T>>)
    ensures forall i :: 0 <= i < |KeepClose(ps)| ==> KeepClose(ps)[i].distance <= Cutoff
    ensures forall p :: p in KeepClose(ps) ==> p.distance <= Cutoff
    ensures multiset(KeepClose(ps)) <= multiset(ps)
    ensures forall p :: p in ps && p.distance <= Cutoff ==> p in KeepClose(ps)
    ensures forall p :: multiset(KeepClose(ps))[p] == if p.distance <= Cutoff then multiset(ps)[p] else 0
    decreases |ps|
  {
    if |ps| > 0 {
      KeepCloseKeepsExactlyTheClose(ps[1..]);
      assert ps == [ps[0]] + ps[1..];
      assert multiset(ps) == multiset{ps[0]} + multiset(ps[1..]);
    }
  }

  predicate SortedByDistance<T>(s: seq<Scored<T>>) {
    forall i, j :: 0 <= i < j < |s| ==> s[i].distance <= s[j].distance
  }

  /** The pairs of `s` at distance `d`, in order. */
  function AtDistance<T>(s: seq<Scored<T>>, d: real): seq<Scored<T>> {
    if |s| == 0 then []
    else (if s[0].distance == d then [s[0]] else []) + AtDistance(s[1..], d)
  }

  lemma {:induction false} AtDistanceAppend<T>(a: seq<Scored<T>>, b: seq<Scored<T>>, d: real)
    ensures AtDistance(a + b, d) == AtDistance(a, d) + AtDistance(b, d)
    decreases |a|
  {
    if |a| > 0 {
      assert (a + b)[1..] == a[1..] + b;
      AtDistanceAppend(a[1..], b, d);
    } else {
      assert a + b == b;
    }
  }

  /** Places `p` after every element whose distance is not greater than its own. */
  function InsertByDistance<T>(t: seq<Scored<T>>, p: Scored<T>): (r: seq<Scored<T>>)
    ensures |r| == |t| + 1
    decreases |t|
  {
    if |t| == 0 then [p]
    else if t[|t| - 1].distance <= p.distance then t + [p]
    else InsertByDistance(t[..|t| - 1], p) + [t[|t| - 1]]
  }

  /** Into a sorted list, `p` goes right after the last pair not farther than it. */
  lemma {:induction false} InsertPosition<T>(t: seq<Scored<T>>, p: Scored<T>, k: nat)
    requires k <= |t|
    requires forall i :: 0 <= i < k ==> t[i].distance <= p.distance
    requires forall i :: k <= i < |t| ==> t[i].distance > p.distance
    ensures InsertByDistance(t, p) == t[..k] + [p] + t[k..]
    decreases |t|
  {
    if |t| > 0 && k < |t| {
      var t' := t[..|t| - 1];
      InsertPosition(t', p, k);
      assert t[..k] == t'[..k];
      assert t[k..] == t'[k..] + [t[|t| - 1]];
    } else if |t| > 0 {
      assert t[..k] == t;
    }
  }

  /** `list.sort(key=distance)`: an insertion sort, stable like Python's. */
  function SortByDistance<T>(s: seq<Scored<T>>): (r: seq<Scored<T>>)
    ensures |r| == |s|
    decreases |s|
  {
    if |s| == 0 then []
    else
      InsertByDistance(SortByDistance(s[..|s| - 1]), s[|s| - 1])
  }

  lemma {:induction false} InsertIsPermutation<T>(t: seq<Scored<T>>, p: Scored<T>)
    ensures multiset(InsertByDistance(t, p)) == multiset(t) + multiset{p}
    decreases |t|
  {
    if |t| > 0 && t[|t| - 1].distance > p.distance {
      InsertIsPermutation(t[..|t| - 1], p);
      assert t == t[..|t| - 1] + [t[|t| - 1]];
    }
  }

  /** The sort rearranges its input and adds or drops nothing. */
  lemma {:induction false} SortIsPermutation<T>(s: seq<Scored<T>>)
    ensures multiset(SortByDistance(s)) == multiset(s)
    decreases |s|
  {
    if |s| > 0 {
      var s', last := s[..|s| - 1], s[|s| - 1];
      SortIsPermutation(s');
      InsertIsPermutation(SortByDistance(s'), last);
      assert SortByDistance(s) == InsertByDistance(SortByDistance(s'), last);
      assert s == s' + [last];
      assert multiset(s) == multiset(s') + multiset{last};
    }
  }

  /** Insertion adds `p` and nothing else. */
  lemma {:induction false} InsertMembers<T>(t: seq<Scored<T>>, p: Scored<T>)
    ensures forall x :: x in InsertByDistance(t, p) <==> x in t || x == p
    decreases |t|
  {
    if |t| > 0 && t[|t| - 1].distance > p.distance {
      var t' := t[..|t| - 1];
      InsertMembers(t', p);
      assert t == t' + [t[|t| - 1]];
    }
  }

  lemma InsertedFrom<T>(t: seq<Scored<T>>, p: Scored<T>, x: Scored<T>)
    requires x in InsertByDistance(t, p)
    ensures x in t || x == p
  {
    InsertMembers(t, p);
  }

  lemma {:induction false} InsertKeepsSorted<T>(t: seq<Scored<T>>, p: Scored<T>)
    requires SortedByDistance(t)
    ensures SortedByDistance(InsertByDistance(t, p))
    decreases |t|
  {
    if |t| > 0 && t[|t| - 1].distance > p.distance {
      var t', last := t[..|t| - 1], t[|t| - 1];
      InsertKeepsSorted(t', p);
      var r' := InsertByDistance(t', p);
      assert InsertByDistance(t, p) == r' + [last];
      forall x | x in r' ensures x.distance <= last.distance {
        InsertedFrom(t', p, x);
        if x in t' {
          var i :| 0 <= i < |t'| && t'[i] == x;
          assert t[i] == x && i < |t| - 1;
        }
      }
      assert forall i :: 0 <= i < |r'| ==> r'[i] in r';
    }
  }

  /** Inserting `p` adds it after the pairs of equal distance already there. */
  lemma {:induction false} InsertIsStable<T>(t: seq<Scored<T>>, p: Scored<T>, d: real)
    ensures AtDistance(InsertByDistance(t, p), d) == AtDistance(t, d) + AtDistance([p], d)
    decreases |t|
  {
    if |t| == 0 {
    } else if t[|t| - 1].distance <= p.distance {
      AtDistanceAppend(t, [p], d);
    } else {
      var t', last := t[..|t| - 1], t[|t| - 1];
      InsertIsStable(t', p, d);
      AtDistanceAppend(InsertByDistance(t', p), [last], d);
      assert t == t' + [last];
      AtDistanceAppend(t', [last], d);
      assert AtDistance([p], d) == [] || AtDistance([last], d) == [];
    }
  }

  lemma {:induction false} SortIsSorted<T>(s: seq<Scored<T>>)
    ensures SortedByDistance(SortByDistance(s))
    decreases |s|
  {
    if |s| > 0 {
      SortIsSorted(s[..|s| - 1]);
      InsertKeepsSorted(SortByDistance(s[..|s| - 1]), s[|s| - 1]);
    }
  }

  /** The sort keeps pairs of equal distance in their original order
      (stability): together with sortedness and the multiset equality of its
      contract this pins the result down completely. */
  lemma {:induction false} SortIsStable<T>(s: seq<Scored<T>>, d: real)
    ensures AtDistance(SortByDistance(s), d) == AtDistance(s, d)
    decreases |s|
  {
    if |s| > 0 {
      var s', last := s[..|s| - 1], s[|s| - 1];
      SortIsStable(s', d);
      InsertIsStable(SortByDistance(s'), last, d);
      assert s == s' + [last];
      AtDistanceAppend(s', [last], d);
    }
  }

  function MapDocs<A, B>(f: A -> B, s: seq<Scored<A>>): (r: seq<Scored<B>>)
    ensures |r| == |s|
    ensures forall i :: 0 <= i < |s| ==> r[i] == Scored(f(s[i].doc), s[i].distance)
  {
    if |s| == 0 then [] else [Scored(f(s[0].doc), s[0].distance)] + MapDocs(f, s[1..])
  }

  lemma MapDocsAppend<A, B>(f: A -> B, a: seq<Scored<A>>, b: seq<Scored<A>>)
    ensures MapDocs(f, a + b) == MapDocs(f, a) + MapDocs(f, b)
  {
    assert forall i :: 0 <= i < |a + b| ==> MapDocs(f, a + b)[i] == (MapDocs(f, a) + MapDocs(f, b))[i];
  }

  lemma MapDocsPrefix<A, B>(f: A -> B, s: seq<Scored<A>>, k: nat)
    requires k <= |s|
    ensures MapDocs(f, s)[..k] == MapDocs(f, s[..k])
  {
  }

  lemma {:induction false} InsertCommutesWithMap<A, B>(f: A -> B, t: seq<Scored<A>>, p: Scored<A>)
    ensures InsertByDistance(MapDocs(f, t), Scored(f(p.doc), p.distance)) == MapDocs(f, InsertByDistance(t, p))
    decreases |t|
  {
    if |t| == 0 {
    } else if t[|t| - 1].distance <= p.distance {
      MapDocsAppend(f, t, [p]);
    } else {
      var t' := t[..|t| - 1];
      MapDocsPrefix(f, t, |t| - 1);
      InsertCommutesWithMap(f, t', p);
      MapDocsAppend(f, InsertByDistance(t', p), [t[|t| - 1]]);
    }
  }

  /** Sorting looks only at distances: renaming the documents commutes with it. */
  lemma {:induction false} SortCommutesWithMap<A, B>(f: A -> B, s: seq<Scored<A>>)
    ensures SortByDistance(MapDocs(f, s)) == MapDocs(f, SortByDistance(s))
    decreases |s|
  {
    if |s| > 0 {
      var s' := s[..|s| - 1];
      MapDocsPrefix(f, s, |s| - 1);
      SortCommutesWithMap(f, s');
      InsertCommutesWithMap(f, SortByDistance(s'), s[|s| - 1]);
    }
  }

  lemma {:induction false} KeepCloseCommutesWithMap<A, B>(f: A -> B, s: seq<Scored<A>>)
    ensures KeepClose(MapDocs(f, s)) == MapDocs(f, KeepClose(s))
    decreases |s|
  {
    if |s| > 0 {
      assert MapDocs(f, s)[1..] == MapDocs(f, s[1..]);
      KeepCloseCommutesWithMap(f, s[1..]);
      if s[0].distance <= Cutoff {
        MapDocsAppend(f, [s[0]], KeepClose(s[1..]));
      }
    }
  }

  function Docs<T>(s: seq<Scored<T>>): (r: seq<T>)
    ensures |r| == |s| && forall i :: 0 <= i < |s| ==> r[i] == s[i].doc
  {
    if |s| == 0 then [] else [s[0].doc] + Docs(s[1..])
  }

  lemma DocsIndexed<T>(s: seq<Scored<T>>, r: seq<T>)
    requires |s| == |r| && forall i :: 0 <= i < |s| ==> r[i] == s[i].doc
    ensures Docs(s) == r
  {
  }

  /** The close pairs in stable distance order, cut to at most five. */
  function RelevantPairs<T>(docs: seq<T>, dists: seq<real>): seq<Scored<T>> {
    var sorted := SortByDistance(KeepClose(Zip(docs, dists)));
    sorted[..if |sorted| < MaxRelevant then |sorted| else MaxRelevant]
  }

  /** What the relevance filter keeps: the first five (or all, when fewer) of
      the close pairs in distance order, so all within the cutoff, nearest
      first, each one taken from the input. */
  lemma RelevantPairsProperties<T>(docs: seq<T>, dists: seq<real>)
    ensures var r := RelevantPairs(docs, dists);
            var n := |KeepClose(Zip(docs, dists))|;
            && |r| == (if n < MaxRelevant then n else MaxRelevant)
            && r <= SortByDistance(KeepClose(Zip(docs, dists)))
            && |r| <= MaxRelevant
            && (forall i :: 0 <= i < |r| ==> r[i].distance <= Cutoff)
            && SortedByDistance(r)
            && multiset(r) <= multiset(Zip(docs, dists))
  {
    var close := KeepClose(Zip(docs, dists));
    var sorted := SortByDistance(close);
    var r := RelevantPairs(docs, dists);
    assert SortedByDistance(r) by {
      SortIsSorted(close);
      assert r == sorted[..|r|];
    }
    assert multiset(r) <= multiset(close) by {
      SortIsPermutation(close);
      assert sorted == r + sorted[|r|..];
    }
    KeepCloseKeepsExactlyTheClose(Zip(docs, dists));
    forall i | 0 <= i < |r| ensures r[i].distance <= Cutoff {
      assert r[i] in multiset(r);
    }
  }

  /** None of the close pairs the filter cuts off is nearer than a pair it keeps. */
  lemma RelevantPairsAreNearest<T>(docs: seq<T>, dists: seq<real>)
    ensures var r := RelevantPairs(docs, dists);
            var sorted := SortByDistance(KeepClose(Zip(docs, dists)));
            forall i, j :: 0 <= i < |r| <= j < |sorted| ==> r[i].distance <= sorted[j].distance
  {
    SortIsSorted(KeepClose(Zip(docs, dists)));
  }

  /** The documents the relevance filter keeps. */
  function Relevant<T>(docs: seq<T>, dists: seq<real>): seq<T> {
    Docs(RelevantPairs(docs, dists))
  }

  /** `[f(x) for x in xs]`. */
  function Apply<A, B>(f: A -> B, xs: seq<A>): (r: seq<B>)
    ensures |r| == |xs| && forall i :: 0 <= i < |xs| ==> r[i] == f(xs[i])
  {
    if |xs| == 0 then [] else [f(xs[0])] + Apply(f, xs[1..])
  }

  lemma ApplyIndexed<A, B>(f: A -> B, xs: seq<A>, r: seq<B>)
    requires |xs| == |r| && forall i :: 0 <= i < |xs| ==> r[i] == f(xs[i])
    ensures Apply(f, xs) == r
  {
  }

  lemma ZipCommutesWithMap<A, B>(f: A -> B, xs: seq<A>, dists: seq<real>)
    ensures Zip(Apply(f, xs), dists) == MapDocs(f, Zip(xs, dists))
  {
  }

  lemma RelevantPairsCommuteWithMap<A, B>(f: A -> B, xs: seq<A>, dists: seq<real>)
    ensures RelevantPairs(Apply(f, xs), dists) == MapDocs(f, RelevantPairs(xs, dists))
  {
    ZipCommutesWithMap(f, xs, dists);
    KeepCloseCommutesWithMap(f, Zip(xs, dists));
    SortCommutesWithMap(f, KeepClose(Zip(xs, dists)));
    MapDocsPrefix(f, SortByDistance(KeepClose(Zip(xs, dists))), |RelevantPairs(xs, dists)|);
  }

  /** The filter never looks at the documents themselves: filtering positions
      and then reading the documents there gives the same list. */
  lemma RelevantCommutesWithMap<A, B>(f: A -> B, xs: seq<A>, dists: seq<real>)
    ensures Relevant(Apply(f, xs), dists) == Apply(f, Relevant(xs, dists))
  {
    RelevantPairsCommuteWithMap(f, xs, dists);
  }

  /** What the filter keeps of the positions 0, 1, 2, ... it keeps of any
      documents with the same distances: the documents at those positions. */
  lemma RelevantReindexed<T>(docs: seq<T>, xs: seq<nat>, dists: seq<real>, picks: seq<nat>)
    requires |docs| > 0 && |xs| == |docs| && forall i :: 0 <= i < |xs| ==> xs[i] == i
    requires Relevant(xs, dists) == picks
    requires forall k :: 0 <= k < |picks| ==> picks[k] < |docs|
    ensures |Relevant(docs, dists)| == |picks|
    ensures forall k :: 0 <= k < |picks| ==> Relevant(docs, dists)[k] == docs[picks[k]]
  {
    var f := (i: nat) => if i < |docs| then docs[i] else docs[0];
    ApplyIndexed(f, xs, docs);
    RelevantCommutesWithMap(f, xs, dists);
  }

  /** The filter block of `_extract_documents`: applied only when `mcj` is
      "yes" and the distances are non-empty, pairing the documents with the
      first distance list. */
  function ApplyFilter(documents: seq<JsonValue>, distances: seq<seq<real>>, mcj: string): (r: seq<JsonValue>)
    ensures !(mcj == "yes" && |distances| > 0) ==> r == documents
    ensures mcj == "yes" && |distances| > 0 ==> r == Relevant(documents, distances[0]) && |r| <= MaxRelevant
  {
    if mcj == "yes" && |distances| > 0 then Relevant(documents, distances[0]) else documents
  }

  /** `ChromaDB_VectorStore._extract_documents`: `None` gives the empty list, a
      result without "documents" falls off the end of the function (Python
      `None`), anything else is flattened and, when asked, filtered. */
  function ExtractDocuments(qr: Option<QueryResult>, mcj: string, loads: string -> Option<JsonValue>): (r: Option<seq<JsonValue>>)
    ensures qr.None? ==> r == Some([])
    ensures qr.Some? && qr.value.documents.None? ==> r.None?
    ensures qr.Some? && qr.value.documents.Some? ==>
              r == Some(ApplyFilter(Flatten(qr.value.documents.value, loads), qr.value.distances, mcj))
  {
    match qr
    case None => Some([])
    case Some(QueryResult(documents, distances)) =>
      match documents
      case None => None
      case Some(docs) => Some(ApplyFilter(Flatten(docs, loads), distances, mcj))
  }

  /** `process_query_results` of the standalone filter script: the same steps,
      except that a result without "documents" gives the empty list. */
  function ProcessQueryResults(qr: QueryResult, mcj: string, loads: string -> Option<JsonValue>): (r: seq<JsonValue>)
    ensures qr.documents.None? ==> r == []
  {
    match qr.documents
    case None => []
    case Some(docs) => ApplyFilter(Flatten(docs, loads), qr.distances, mcj)
  }

  /** The script's copy agrees with the store's method on every result that has documents. */
  lemma ProcessQueryResultsAgrees(qr: QueryResult, mcj: string, loads: string -> Option<JsonValue>)
    requires qr.documents.Some?
    ensures ExtractDocuments(Some(qr), mcj, loads) == Some(ProcessQueryResults(qr, mcj, loads))
  {
  }

  /** The unfiltered `_extract_documents` of the prompt-packing script: it returns
      the raw inner list straight away when decoding fails. */
  function ExtractDocumentsUnfiltered(qr: Option<QueryResult>, loads: string -> Option<JsonValue>): Option<seq<JsonValue>> {
    match qr
    case None => Some([])
    case Some(QueryResult(documents, _)) =>
      match documents
      case None => None
      case Some(docs) =>
        if NestedOnce(docs) then
          match DecodeEvery(docs[0].items, loads)
          case None => Some(docs[0].items)
          case Some(decoded) => Some(decoded)
        else Some(docs)
  }

  /** That early return changes nothing: the unfiltered copy is the store's
      method with the filter off. */
  lemma UnfilteredIsExtractWithoutFilter(qr: Option<QueryResult>, mcj: string, loads: string -> Option<JsonValue>)
    requires mcj != "yes"
    ensures ExtractDocumentsUnfiltered(qr, loads) == ExtractDocuments(qr, mcj, loads)
  {
  }

  /** `get_similar_question_sql`: the SQL collection is queried with the filter on. */
  function SimilarQuestionSql(qr: Option<QueryResult>, loads: string -> Option<JsonValue>): (r: Option<seq<JsonValue>>)
    ensures qr.Some? && qr.value.documents.Some? && |qr.value.distances| > 0 ==>
              r.Some? && |r.value| <= MaxRelevant
    ensures qr.Some? && qr.value.documents.Some? && |qr.value.distances| > 0 ==>
              r == Some(Relevant(Flatten(qr.value.documents.value, loads), qr.value.distances[0]))
    ensures qr.Some? && qr.value.documents.Some? && |qr.value.distances| == 0 ==>
              r == Some(Flatten(qr.value.documents.value, loads))
    ensures qr.None? ==> r == Some([])
    ensures qr.Some? && qr.value.documents.None? ==> r.None?
  {
    ExtractDocuments(qr, "yes", loads)
  }

  /** `get_related_ddl` and `get_related_documentation` leave the filter off:
      whatever the distances, the flattened documents come back in full. */
  function RelatedDocuments(qr: Option<QueryResult>, loads: string -> Option<JsonValue>): (r: Option<seq<JsonValue>>)
    ensures qr.Some? && qr.value.documents.Some? ==> r == Some(Flatten(qr.value.documents.value, loads))
  {
    ExtractDocuments(qr, "qsql", loads)
  }
}
