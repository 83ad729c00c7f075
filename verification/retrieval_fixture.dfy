/** The worked example of the standalone filter script: ten question/SQL
    documents with their distances, of which seven are within the cutoff and
    the five nearest are kept. */
module RetrievalFixture {
  import opened Common
  import opened Json
  import opened Retrieval

  const FixtureDistances: seq<real> :=
    [0.824, 0.886, 1.072, 0.350, 0.920, 0.410, 0.870, 0.760, 0.945, 0.510]

  const FixtureDocuments: seq<string> := [
    "{\"question\": \"Find all people who were awarded in the year 2020.\", \"sql\": \"SELECT name, rank, award FROM discipline_data WHERE year = 2020;\"}",
    "{\"question\": \"List all distinct categories of offences.\", \"sql\": \"SELECT DISTINCT cat FROM discipline_data;\"}",
    "{\"question\": \"Get the names and ranks of people from unit 'Alpha Unit'.\", \"sql\": \"SELECT name, rank FROM discipline_data WHERE unit = 'Alpha Unit';\"}",
    "{\"question\": \"Show all records where punishment was awarded.\", \"sql\": \"SELECT * FROM discipline_data WHERE punishment IS NOT NULL;\"}",
    "{\"question\": \"Find all cases initiated in 2021.\", \"sql\": \"SELECT * FROM discipline_data WHERE YEAR(date) = 2021;\"}",
    "{\"question\": \"List all unique ranks.\", \"sql\": \"SELECT DISTINCT rank FROM discipline_data;\"}",
    "{\"question\": \"Get the earliest offence recorded.\", \"sql\": \"SELECT * FROM discipline_data ORDER BY date ASC LIMIT 1;\"}",
    "{\"question\": \"Count the number of cases per category.\", \"sql\": \"SELECT cat, COUNT(*) FROM discipline_data GROUP BY cat;\"}",
    "{\"question\": \"Show people with more than 2 offences.\", \"sql\": \"SELECT name, COUNT(*) FROM discipline_data GROUP BY name HAVING COUNT(*) > 2;\"}",
    "{\"question\": \"Find people belonging to unit 'Bravo Unit'.\", \"sql\": \"SELECT name, rank FROM discipline_data WHERE unit = 'Bravo Unit';\"}"
  ]

  const FixtureResult: QueryResult :=
    QueryResult(Some([JArray(seq(10, i requires 0 <= i < 10 => JString(FixtureDocuments[i])))]), [FixtureDistances])

  const Positions: seq<nat> := [0, 1, 2, 3, 4, 5, 6, 7, 8, 9]

  /** The seven pairs within the cutoff, in input order. */
  const Close: seq<Scored<nat>> := [Scored(0, 0.824), Scored(1, 0.886), Scored(3, 0.350), Scored(5, 0.410),
                                    Scored(6, 0.870), Scored(7, 0.760), Scored(9, 0.510)]

  /** The positions paired with their distances. */
  const Paired: seq<Scored<nat>> := [Scored(0, 0.824), Scored(1, 0.886), Scored(2, 1.072), Scored(3, 0.350), Scored(4, 0.920), Scored(5, 0.410), Scored(6, 0.870), Scored(7, 0.760), Scored(8, 0.945), Scored(9, 0.510)]

  lemma FixtureZip()
    ensures Zip(Positions, FixtureDistances) == Paired
  {
    PairedIndexed();
    ZipIndexed(Positions, FixtureDistances, Paired);
  }

  lemma PairedIndexed()
    ensures |Paired| == |Positions| == |FixtureDistances| == 10
    ensures forall i :: 0 <= i < 10 ==> Positions[i] == i && Paired[i] == Scored(Positions[i], FixtureDistances[i])
  {
  }

  lemma FixtureClose9()
    ensures KeepClose(Paired[9..]) == [Scored(9, 0.510)]
  {
    assert Paired[9..] == [Paired[9]] + Paired[10..];
  }

  lemma FixtureClose8()
    ensures KeepClose(Paired[8..]) == [Scored(9, 0.510)]
  {
    FixtureClose9();
    assert Paired[8..] == [Paired[8]] + Paired[9..];
  }

  lemma FixtureClose7()
    ensures KeepClose(Paired[7..]) == [Scored(7, 0.760), Scored(9, 0.510)]
  {
    FixtureClose8();
    assert Paired[7..] == [Paired[7]] + Paired[8..];
  }

  lemma FixtureClose6()
    ensures KeepClose(Paired[6..]) == [Scored(6, 0.870), Scored(7, 0.760), Scored(9, 0.510)]
  {
    FixtureClose7();
    assert Paired[6..] == [Paired[6]] + Paired[7..];
  }

  lemma FixtureClose5()
    ensures KeepClose(Paired[5..]) == [Scored(5, 0.410), Scored(6, 0.870), Scored(7, 0.760), Scored(9, 0.510)]
  {
    FixtureClose6();
    assert Paired[5..] == [Paired[5]] + Paired[6..];
  }

  lemma FixtureClose4()
    ensures KeepClose(Paired[4..]) == [Scored(5, 0.410), Scored(6, 0.870), Scored(7, 0.760), Scored(9, 0.510)]
  {
    FixtureClose5();
    assert Paired[4..] == [Paired[4]] + Paired[5..];
  }

  lemma FixtureClose3()
    ensures KeepClose(Paired[3..]) == [Scored(3, 0.350), Scored(5, 0.410), Scored(6, 0.870), Scored(7, 0.760), Scored(9, 0.510)]
  {
    FixtureClose4();
    assert Paired[3..] == [Paired[3]] + Paired[4..];
  }

  lemma FixtureClose2()
    ensures KeepClose(Paired[2..]) == [Scored(3, 0.350), Scored(5, 0.410), Scored(6, 0.870), Scored(7, 0.760), Scored(9, 0.510)]
  {
    FixtureClose3();
    assert Paired[2..] == [Paired[2]] + Paired[3..];
  }

  lemma FixtureClose1()
    ensures KeepClose(Paired[1..]) == [Scored(1, 0.886), Scored(3, 0.350), Scored(5, 0.410), Scored(6, 0.870), Scored(7, 0.760), Scored(9, 0.510)]
  {
    FixtureClose2();
    assert Paired[1..] == [Paired[1]] + Paired[2..];
  }

  lemma CloseSplit()
    ensures Close == [Paired[0]] + [Scored(1, 0.886), Scored(3, 0.350), Scored(5, 0.410), Scored(6, 0.870), Scored(7, 0.760), Scored(9, 0.510)]
  {
  }

  lemma ConsKept<T>(ps: seq<Scored<T>>, tail: seq<Scored<T>>, r: seq<Scored<T>>)
    requires |ps| > 0 && ps[0].distance <= Cutoff && KeepClose(ps[1..]) == tail && r == [ps[0]] + tail
    ensures KeepClose(ps) == r
  {
  }

  lemma FixtureClose0()
    ensures KeepClose(Paired) == Close
  {
    FixtureClose1();
    CloseSplit();
    ConsKept(Paired, [Scored(1, 0.886), Scored(3, 0.350), Scored(5, 0.410), Scored(6, 0.870), Scored(7, 0.760), Scored(9, 0.510)], Close);
  }

  lemma FixtureClose()
    ensures KeepClose(Zip(Positions, FixtureDistances)) == Close
  {
    FixtureZip();
    FixtureClose0();
  }

  lemma FixtureSort1()
    ensures SortByDistance(Close[..1]) == [Scored(0, 0.824)]
  {
    assert Close[..1][..0] == [];
  }

  lemma FixtureSort2()
    ensures SortByDistance(Close[..2]) == [Scored(0, 0.824), Scored(1, 0.886)]
  {
    FixtureSort1();
    assert Close[..2][..1] == Close[..1];
    assert Close[..2][1] == Scored(1, 0.886);
    assert SortByDistance(Close[..2]) == InsertByDistance(SortByDistance(Close[..1]), Scored(1, 0.886));
    var t: seq<Scored<nat>> := [Scored(0, 0.824)];
    InsertPosition(t, Scored(1, 0.886), 1);
    assert t[..1] == [Scored(0, 0.824)];
    assert t[1..] == [];
    assert t[..1] + [Scored(1, 0.886)] + t[1..] == [Scored(0, 0.824), Scored(1, 0.886)];
    assert SortByDistance(Close[..1]) == t;
    assert InsertByDistance(t, Scored(1, 0.886)) == [Scored(0, 0.824), Scored(1, 0.886)];
  }

  lemma FixtureSort3()
    ensures SortByDistance(Close[..3]) == [Scored(3, 0.350), Scored(0, 0.824), Scored(1, 0.886)]
  {
    FixtureSort2();
    assert Close[..3][..2] == Close[..2];
    assert Close[..3][2] == Scored(3, 0.350);
    assert SortByDistance(Close[..3]) == InsertByDistance(SortByDistance(Close[..2]), Scored(3, 0.350));
    var t: seq<Scored<nat>> := [Scored(0, 0.824), Scored(1, 0.886)];
    InsertPosition(t, Scored(3, 0.350), 0);
    assert t[..0] == [];
    assert t[0..] == [Scored(0, 0.824), Scored(1, 0.886)];
    assert t[..0] + [Scored(3, 0.350)] + t[0..] == [Scored(3, 0.350), Scored(0, 0.824), Scored(1, 0.886)];
    assert SortByDistance(Close[..2]) == t;
    assert InsertByDistance(t, Scored(3, 0.350)) == [Scored(3, 0.350), Scored(0, 0.824), Scored(1, 0.886)];
  }

  lemma FixtureSort4()
    ensures SortByDistance(Close[..4]) == [Scored(3, 0.350), Scored(5, 0.410), Scored(0, 0.824), Scored(1, 0.886)]
  {
    FixtureSort3();
    assert Close[..4][..3] == Close[..3];
    assert Close[..4][3] == Scored(5, 0.410);
    assert SortByDistance(Close[..4]) == InsertByDistance(SortByDistance(Close[..3]), Scored(5, 0.410));
    var t: seq<Scored<nat>> := [Scored(3, 0.350), Scored(0, 0.824), Scored(1, 0.886)];
    InsertPosition(t, Scored(5, 0.410), 1);
    assert t[..1] == [Scored(3, 0.350)];
    assert t[1..] == [Scored(0, 0.824), Scored(1, 0.886)];
    assert t[..1] + [Scored(5, 0.410)] + t[1..] == [Scored(3, 0.350), Scored(5, 0.410), Scored(0, 0.824), Scored(1, 0.886)];
    assert SortByDistance(Close[..3]) == t;
    assert InsertByDistance(t, Scored(5, 0.410)) == [Scored(3, 0.350), Scored(5, 0.410), Scored(0, 0.824), Scored(1, 0.886)];
  }

  lemma FixtureSort5()
    ensures SortByDistance(Close[..5]) == [Scored(3, 0.350), Scored(5, 0.410), Scored(0, 0.824), Scored(6, 0.870), Scored(1, 0.886)]
  {
    FixtureSort4();
    assert Close[..5][..4] == Close[..4];
    assert Close[..5][4] == Scored(6, 0.870);
    assert SortByDistance(Close[..5]) == InsertByDistance(SortByDistance(Close[..4]), Scored(6, 0.870));
    var t: seq<Scored<nat>> := [Scored(3, 0.350), Scored(5, 0.410), Scored(0, 0.824), Scored(1, 0.886)];
    InsertPosition(t, Scored(6, 0.870), 3);
    assert t[..3] == [Scored(3, 0.350), Scored(5, 0.410), Scored(0, 0.824)];
    assert t[3..] == [Scored(1, 0.886)];
    assert t[..3] + [Scored(6, 0.870)] + t[3..] == [Scored(3, 0.350), Scored(5, 0.410), Scored(0, 0.824), Scored(6, 0.870), Scored(1, 0.886)];
    assert SortByDistance(Close[..4]) == t;
    assert InsertByDistance(t, Scored(6, 0.870)) == [Scored(3, 0.350), Scored(5, 0.410), Scored(0, 0.824), Scored(6, 0.870), Scored(1, 0.886)];
  }

  lemma FixtureSort6()
    ensures SortByDistance(Close[..6]) == [Scored(3, 0.350), Scored(5, 0.410), Scored(7, 0.760), Scored(0, 0.824), Scored(6, 0.870), Scored(1, 0.886)]
  {
    FixtureSort5();
    assert Close[..6][..5] == Close[..5];
    assert Close[..6][5] == Scored(7, 0.760);
    assert SortByDistance(Close[..6]) == InsertByDistance(SortByDistance(Close[..5]), Scored(7, 0.760));
    var t: seq<Scored<nat>> := [Scored(3, 0.350), Scored(5, 0.410), Scored(0, 0.824), Scored(6, 0.870), Scored(1, 0.886)];
    InsertPosition(t, Scored(7, 0.760), 2);
    assert t[..2] == [Scored(3, 0.350), Scored(5, 0.410)];
    assert t[2..] == [Scored(0, 0.824), Scored(6, 0.870), Scored(1, 0.886)];
    assert t[..2] + [Scored(7, 0.760)] + t[2..] == [Scored(3, 0.350), Scored(5, 0.410), Scored(7, 0.760), Scored(0, 0.824), Scored(6, 0.870), Scored(1, 0.886)];
    assert SortByDistance(Close[..5]) == t;
    assert InsertByDistance(t, Scored(7, 0.760)) == [Scored(3, 0.350), Scored(5, 0.410), Scored(7, 0.760), Scored(0, 0.824), Scored(6, 0.870), Scored(1, 0.886)];
  }

  lemma FixtureSort7()
    ensures SortByDistance(Close[..7]) == [Scored(3, 0.350), Scored(5, 0.410), Scored(9, 0.510), Scored(7, 0.760), Scored(0, 0.824), Scored(6, 0.870), Scored(1, 0.886)]
  {
    FixtureSort6();
    assert Close[..7][..6] == Close[..6];
    assert Close[..7][6] == Scored(9, 0.510);
    assert SortByDistance(Close[..7]) == InsertByDistance(SortByDistance(Close[..6]), Scored(9, 0.510));
    var t: seq<Scored<nat>> := [Scored(3, 0.350), Scored(5, 0.410), Scored(7, 0.760), Scored(0, 0.824), Scored(6, 0.870), Scored(1, 0.886)];
    InsertPosition(t, Scored(9, 0.510), 2);
    assert t[..2] == [Scored(3, 0.350), Scored(5, 0.410)];
    assert t[2..] == [Scored(7, 0.760), Scored(0, 0.824), Scored(6, 0.870), Scored(1, 0.886)];
    assert t[..2] + [Scored(9, 0.510)] + t[2..] == [Scored(3, 0.350), Scored(5, 0.410), Scored(9, 0.510), Scored(7, 0.760), Scored(0, 0.824), Scored(6, 0.870), Scored(1, 0.886)];
    assert SortByDistance(Close[..6]) == t;
    assert InsertByDistance(t, Scored(9, 0.510)) == [Scored(3, 0.350), Scored(5, 0.410), Scored(9, 0.510), Scored(7, 0.760), Scored(0, 0.824), Scored(6, 0.870), Scored(1, 0.886)];
  }

  /** The stable sort of those seven. */
  lemma FixtureSort()
    ensures SortByDistance(Close) == [Scored(3, 0.350), Scored(5, 0.410), Scored(9, 0.510), Scored(7, 0.760), Scored(0, 0.824), Scored(6, 0.870), Scored(1, 0.886)]
  {
    FixtureSort7();
    assert Close[..7] == Close;
  }

  /** The five pairs kept: 1.072, 0.920 and 0.945 fall out, and of the seven
      left the five nearest are 0.350, 0.410, 0.510, 0.760 and 0.824. */
  const Kept: seq<Scored<nat>> := [Scored(3, 0.350), Scored(5, 0.410), Scored(9, 0.510), Scored(7, 0.760), Scored(0, 0.824)]

  lemma FixtureRelevantPairs()
    ensures RelevantPairs(Positions, FixtureDistances) == Kept
  {
    FixtureClose();
    FixtureSort();
  }

  lemma FixturePositions()
    ensures Relevant(Positions, FixtureDistances) == [3, 5, 9, 7, 0]
  {
    FixtureRelevantPairs();
    KeptIndexed();
    DocsIndexed(Kept, [3, 5, 9, 7, 0]);
  }

  lemma KeptIndexed()
    ensures |Kept| == |[3, 5, 9, 7, 0]| && forall i :: 0 <= i < |Kept| ==> Kept[i].doc == [3, 5, 9, 7, 0][i]
  {
  }

  lemma PositionsIndexed()
    ensures |Positions| == 10 && forall i :: 0 <= i < 10 ==> Positions[i] == i
  {
  }

  /** Distances under which the filter keeps positions 3, 5, 9, 7 and 0 keep
      the same positions of any ten documents. */
  lemma KeepsFiveOfTen<T>(docs: seq<T>, dists: seq<real>)
    requires |docs| == 10 && Relevant(Positions, dists) == [3, 5, 9, 7, 0]
    ensures Relevant(docs, dists) == [docs[3], docs[5], docs[9], docs[7], docs[0]]
  {
    PositionsIndexed();
    RelevantReindexed(docs, Positions, dists, [3, 5, 9, 7, 0]);
    var r := Relevant(docs, dists);
    assert r[0] == docs[3] && r[1] == docs[5] && r[2] == docs[9] && r[3] == docs[7] && r[4] == docs[0];
  }

  /** The filter depends on the distances only, so on any ten documents it
      keeps the same five positions. */
  lemma FixtureOnAnyTen<T>(docs: seq<T>)
    requires |docs| == 10
    ensures Relevant(docs, FixtureDistances) == [docs[3], docs[5], docs[9], docs[7], docs[0]]
  {
    FixturePositions();
    KeepsFiveOfTen(docs, FixtureDistances);
  }

  /** Whatever the decoder makes of the ten documents, the filter keeps the
      fourth, sixth, tenth, eighth and first of them, in that order. */
  lemma FixtureResultKeepsFiveNearest(loads: string -> Option<JsonValue>)
    ensures var docs := Flatten(FixtureResult.documents.value, loads);
            && |docs| == 10
            && ProcessQueryResults(FixtureResult, "yes", loads) == [docs[3], docs[5], docs[9], docs[7], docs[0]]
  {
    var docs := Flatten(FixtureResult.documents.value, loads);
    assert |docs| == 10 by {
      assert NestedOnce(FixtureResult.documents.value);
    }
    assert ProcessQueryResults(FixtureResult, "yes", loads) == Relevant(docs, FixtureDistances);
    FixtureOnAnyTen(docs);
  }

  /** The store's own extraction agrees on this result. */
  lemma FixtureExtractDocuments(loads: string -> Option<JsonValue>)
    ensures var docs := Flatten(FixtureResult.documents.value, loads);
            ExtractDocuments(Some(FixtureResult), "yes", loads) == Some([docs[3], docs[5], docs[9], docs[7], docs[0]])
  {
    FixtureResultKeepsFiveNearest(loads);
    ProcessQueryResultsAgrees(FixtureResult, "yes", loads);
  }
}
