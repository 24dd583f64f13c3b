/** The final ordering of the provider table (index.js:180-187): rows are
    sorted with a comparator that sends every "N/A" row towards the end and
    orders the others by their median as printed with four decimals. The
    comparator answers 1 for two "N/A" rows in either order, so it is not a
    consistent comparison and the order it leaves among "N/A" rows is not
    determined by it. The sort is modelled as an insertion sort driven by the
    comparator; what is proved of it is what the comparator forces: a
    permutation, numeric rows first, numeric rows in non-decreasing order. */
module Ranking {
  import opened Stats
  import opened Progress
  import opened Evaluator
  import opened Seqs

  /** `parseFloat(row["median ms"])` of a numeric row: its median written out
      by `toFixed(4)` and read back. */
  function Key(s: Summary): real
    requires s.median.Ms?
  {
    ToFixed(s.median.value, 4)
  }

  /** The comparator handed to `results.sort` (index.js:182-186). Its sign says
      where `a` goes relative to `b`: positive puts `a` after `b`. */
  function Compare(a: Summary, b: Summary): (c: real)
    ensures a.median.NA? ==> c > 0.0
    ensures a.median.Ms? && b.median.NA? ==> c < 0.0
    ensures a.median.Ms? && b.median.Ms? ==> (c <= 0.0 <==> Key(a) <= Key(b)) && (c >= 0.0 <==> Key(b) <= Key(a))
  {
    if a.median.NA? then 1.0
    else if b.median.NA? then -1.0
    else Key(a) - Key(b)
  }

  /** Two "N/A" rows each claim to go after the other: the comparator is not
      antisymmetric, which is why no order among them is promised. */
  lemma CompareNotAntisymmetric(a: Summary, b: Summary)
    requires a.median.NA? && b.median.NA?
    ensures Compare(a, b) > 0.0 && Compare(b, a) > 0.0
  {
  }

  /** On numeric rows the comparator is a consistent comparison: swapping the
      rows flips the sign. */
  lemma CompareAntisymmetricOnNumbers(a: Summary, b: Summary)
    requires a.median.Ms? && b.median.Ms?
    ensures Compare(a, b) == -Compare(b, a)
  {
  }

  /** The printed medians of the numeric rows, in table order. */
  function NumericKeys(rows: seq<Summary>): (ks: seq<real>)
    ensures |ks| <= |rows|
    decreases |rows|
  {
    if |rows| == 0 then []
    else KeyList(rows[0]) + NumericKeys(rows[1..])
  }

  /** The printed median of one row as a list: empty for an "N/A" row. */
  function KeyList(x: Summary): seq<real> {
    if x.median.Ms? then [Key(x)] else []
  }

  lemma NumericKeysCons(h: Summary, t: seq<Summary>)
    ensures NumericKeys([h] + t) == KeyList(h) + NumericKeys(t)
  {
    assert ([h] + t)[1..] == t;
  }

  predicate AllNA(rows: seq<Summary>) {
    forall i :: 0 <= i < |rows| ==> rows[i].median.NA?
  }

  /** A table of "N/A" rows has no printed medians. */
  lemma {:induction false} AllNAKeys(rows: seq<Summary>)
    requires AllNA(rows)
    ensures NumericKeys(rows) == []
    decreases |rows|
  {
    if |rows| > 0 {
      AllNAKeys(rows[1..]);
    }
  }

  /** No numeric row comes after an "N/A" row. */
  predicate NumericFirst(rows: seq<Summary>) {
    forall i, j :: 0 <= i < j < |rows| && rows[i].median.NA? ==> rows[j].median.NA?
  }

  /** The rows are in an order the comparator accepts: every numeric row before
      every "N/A" row, and the numeric rows in non-decreasing order of their
      printed median. */
  predicate Ranked(rows: seq<Summary>) {
    NumericFirst(rows) && Sorted(NumericKeys(rows))
  }

  lemma NumericFirstCons(h: Summary, t: seq<Summary>)
    requires NumericFirst(t) && (h.median.NA? ==> AllNA(t))
    ensures NumericFirst([h] + t)
  {
    var r := [h] + t;
    assert forall k :: 1 <= k < |r| ==> r[k] == t[k - 1];
  }

  lemma NumericFirstParts(rows: seq<Summary>)
    requires |rows| > 0 && NumericFirst(rows)
    ensures NumericFirst(rows[1..]) && (rows[0].median.NA? ==> AllNA(rows[1..]))
  {
    assert forall k :: 0 <= k < |rows[1..]| ==> rows[1..][k] == rows[k + 1];
  }

  /** A ranked table with a numeric first row: that row's printed median is at
      most every printed median after it. */
  lemma RankedHead(rows: seq<Summary>)
    requires |rows| > 0 && Ranked(rows) && rows[0].median.Ms?
    ensures Ranked(rows[1..])
    ensures forall v :: v in NumericKeys(rows[1..]) ==> Key(rows[0]) <= v
  {
    HeadTail(rows);
    NumericKeysCons(rows[0], rows[1..]);
    SortedConsParts(Key(rows[0]), NumericKeys(rows[1..]));
    NumericFirstParts(rows);
  }

  /** One insertion step of the sort: `x`, the next row, goes before the first
      row of the sorted prefix that the comparator puts after it. */
  function InsertRow(x: Summary, rows: seq<Summary>): (r: seq<Summary>)
    ensures multiset(r) == multiset(rows) + multiset{x}
    decreases |rows|
  {
    if |rows| == 0 then [x]
    else if Compare(x, rows[0]) < 0.0 then [x] + rows
    else
      HeadTail(rows);
      [rows[0]] + InsertRow(x, rows[1..])
  }

  /** `results.sort(comparator)`: the rows inserted one at a time, first row first. */
  function Rank(rows: seq<Summary>): (r: seq<Summary>)
    ensures multiset(r) == multiset(rows)
    decreases |rows|
  {
    if |rows| == 0 then []
    else
      var n := |rows| - 1;
      FrontLast(rows);
      InsertRow(rows[n], Rank(rows[..n]))
  }

  /** Inserting a row adds its printed median, if it has one, to the table's. */
  lemma {:induction false} InsertRowKeys(x: Summary, rows: seq<Summary>)
    ensures multiset(NumericKeys(InsertRow(x, rows))) == multiset(NumericKeys(rows)) + multiset(KeyList(x))
    decreases |rows|
  {
    if |rows| == 0 {
      NumericKeysCons(x, []);
    } else if Compare(x, rows[0]) < 0.0 {
      NumericKeysCons(x, rows);
    } else {
      InsertRowKeys(x, rows[1..]);
      NumericKeysCons(rows[0], InsertRow(x, rows[1..]));
      NumericKeysCons(rows[0], rows[1..]);
      HeadTail(rows);
    }
  }

  /** Inserting into a table whose rows are all "N/A" an "N/A" row. */
  lemma InsertRowAllNA(x: Summary, rows: seq<Summary>)
    requires x.median.NA? && AllNA(rows)
    ensures AllNA(InsertRow(x, rows))
  {
    var r := InsertRow(x, rows);
    forall k | 0 <= k < |r|
      ensures r[k].median.NA?
    {
      assert r[k] in multiset(rows) + multiset{x};
      if r[k] != x {
        assert r[k] in rows;
      }
    }
  }

  lemma AllNARanked(rows: seq<Summary>)
    requires AllNA(rows)
    ensures Ranked(rows)
  {
    AllNAKeys(rows);
  }

  /** Inserting into a ranked table keeps it ranked. */
  lemma {:induction false} InsertRowRanked(x: Summary, rows: seq<Summary>)
    requires Ranked(rows)
    ensures Ranked(InsertRow(x, rows))
    decreases |rows|
  {
    if |rows| == 0 {
      NumericKeysCons(x, []);
      assert [x] + [] == [x];
    } else if Compare(x, rows[0]) < 0.0 {
      InsertBeforeRanked(x, rows);
    } else if rows[0].median.NA? {
      NAHeadAllNA(rows);
      InsertRowAllNA(x, rows);
      AllNARanked(InsertRow(x, rows));
    } else {
      InsertAfterRanked(x, rows);
    }
  }

  /** `x` goes first: it is numeric and sorts before the old first row. */
  lemma InsertBeforeRanked(x: Summary, rows: seq<Summary>)
    requires Ranked(rows) && |rows| > 0 && Compare(x, rows[0]) < 0.0
    ensures Ranked([x] + rows)
  {
    NumericFirstCons(x, rows);
    NumericKeysCons(x, rows);
    assert KeyList(x) == [Key(x)];
    forall v | v in NumericKeys(rows)
      ensures Key(x) <= v
    {
      KeysAbove(x, rows, v);
    }
    SortedCons(Key(x), NumericKeys(rows));
  }

  /** A row that sorts before the first row of a ranked table has a printed
      median at most every printed median of the table. */
  lemma KeysAbove(x: Summary, rows: seq<Summary>, v: real)
    requires Ranked(rows) && |rows| > 0 && Compare(x, rows[0]) < 0.0
    requires v in NumericKeys(rows)
    ensures Key(x) <= v
  {
    if rows[0].median.NA? {
      NAHeadAllNA(rows);
      AllNAKeys(rows);
    } else {
      RankedHead(rows);
      HeadTail(rows);
      NumericKeysCons(rows[0], rows[1..]);
      assert NumericKeys(rows) == [Key(rows[0])] + NumericKeys(rows[1..]);
    }
  }

  /** Once the first row is "N/A", every row is. */
  lemma NAHeadAllNA(rows: seq<Summary>)
    requires |rows| > 0 && NumericFirst(rows) && rows[0].median.NA?
    ensures AllNA(rows)
  {
    forall i | 0 <= i < |rows|
      ensures rows[i].median.NA?
    {
      if i > 0 {
        assert rows[0].median.NA?;
      }
    }
  }

  /** `x` goes after the numeric first row, into the rest of the table. */
  lemma {:induction false} InsertAfterRanked(x: Summary, rows: seq<Summary>)
    requires Ranked(rows) && |rows| > 0 && rows[0].median.Ms? && Compare(x, rows[0]) >= 0.0
    ensures Ranked([rows[0]] + InsertRow(x, rows[1..]))
    decreases |rows|, 0
  {
    var head, tail := rows[0], rows[1..];
    RankedHead(rows);
    InsertRowRanked(x, tail);
    var t := InsertRow(x, tail);
    InsertRowKeys(x, tail);
    forall v | v in NumericKeys(t)
      ensures Key(head) <= v
    {
      assert v in multiset(NumericKeys(tail)) + multiset(KeyList(x));
      if v in multiset(NumericKeys(tail)) {
        assert v in NumericKeys(tail);
      } else {
        assert v in KeyList(x);
      }
    }
    NumericKeysCons(head, t);
    SortedCons(Key(head), NumericKeys(t));
    NumericFirstCons(head, t);
  }

  /** The ranked table is a permutation of the rows (see `Rank`) in an order the
      comparator accepts: every numeric row before every "N/A" row, numeric
      rows in non-decreasing order of their printed median. */
  lemma {:induction false} RankRanked(rows: seq<Summary>)
    ensures Ranked(Rank(rows))
    decreases |rows|
  {
    if |rows| == 0 {
      AllNARanked([]);
    } else {
      var n := |rows| - 1;
      RankRanked(rows[..n]);
      InsertRowRanked(rows[n], Rank(rows[..n]));
    }
  }

  lemma {:induction false} NumericKeysConcat(a: seq<Summary>, b: seq<Summary>)
    ensures NumericKeys(a + b) == NumericKeys(a) + NumericKeys(b)
    decreases |a|
  {
    if |a| == 0 {
      assert a + b == b;
    } else {
      var h, t := a[0], a[1..];
      assert a + b == [h] + (t + b);
      assert a == [h] + t;
      NumericKeysCons(h, t + b);
      NumericKeysConcat(t, b);
      NumericKeysCons(h, t);
      AppendAssoc(KeyList(h), NumericKeys(t), NumericKeys(b));
    }
  }

  /** Ranking keeps the multiset of printed medians. */
  lemma {:induction false} RankKeys(rows: seq<Summary>)
    ensures multiset(NumericKeys(Rank(rows))) == multiset(NumericKeys(rows))
    decreases |rows|
  {
    if |rows| > 0 {
      var n := |rows| - 1;
      var front, last := rows[..n], rows[n];
      RankKeys(front);
      InsertRowKeys(last, Rank(front));
      FrontLast(rows);
      NumericKeysSnoc(front, last);
    }
  }

  lemma NumericKeysSnoc(front: seq<Summary>, last: Summary)
    ensures NumericKeys(front + [last]) == NumericKeys(front) + KeyList(last)
  {
    NumericKeysConcat(front, [last]);
    NumericKeysCons(last, []);
    assert [last] + [] == [last];
  }

  /** The numeric part of the ranked table is in exactly the order an ascending
      sort of the printed medians gives. */
  lemma RankMatchesAscendingSort(rows: seq<Summary>)
    ensures NumericKeys(Rank(rows)) == SortAscending(NumericKeys(rows))
  {
    RankRanked(rows);
    RankKeys(rows);
    SortedUnique(NumericKeys(Rank(rows)), SortAscending(NumericKeys(rows)));
  }

  /** Four rows of an example table: medians 5, "N/A", 2, "N/A". */
  const RowA := Summary("a", Ms(5.0), Ms(5.0), Ms(5.0), 1)
  const RowB := Summary("b", NA, NA, NA, 0)
  const RowC := Summary("c", Ms(2.0), Ms(2.0), Ms(2.0), 1)
  const RowD := Summary("d", NA, NA, NA, 0)

  lemma ExampleKeys()
    ensures Key(RowA) == 5.0 && Key(RowC) == 2.0
  {
    assert Pow10(4) == 10000;
    assert (5.0 * 10000.0 + 0.5).Floor == 50000;
    assert (2.0 * 10000.0 + 0.5).Floor == 20000;
  }

  /** The insertion steps of the example: an "N/A" row goes to the end, a
      smaller median to the front. */
  lemma ExampleInserts()
    ensures InsertRow(RowB, [RowA]) == [RowA, RowB]
    ensures InsertRow(RowC, [RowA, RowB]) == [RowC, RowA, RowB]
    ensures InsertRow(RowD, [RowC, RowA, RowB]) == [RowC, RowA, RowB, RowD]
  {
    ExampleKeys();
    InsertAtEnd(RowB, [RowA]);
    InsertAtEnd(RowD, [RowC, RowA, RowB]);
  }

  /** An "N/A" row goes after every row. */
  lemma {:induction false} InsertAtEnd(x: Summary, rows: seq<Summary>)
    requires x.median.NA?
    ensures InsertRow(x, rows) == rows + [x]
    decreases |rows|
  {
    if |rows| > 0 {
      InsertAtEnd(x, rows[1..]);
      HeadTail(rows);
      AppendAssoc([rows[0]], rows[1..], [x]);
    }
  }

  /** Sorting one more row inserts it into the sorted rows before it. */
  lemma RankSnoc(rows: seq<Summary>, x: Summary)
    ensures Rank(rows + [x]) == InsertRow(x, Rank(rows))
  {
    var s := rows + [x];
    assert s[..|s| - 1] == rows;
  }

  /** Medians 5, "N/A", 2, "N/A" rank as 2, 5 and then the two "N/A" rows. */
  lemma RankExample()
    ensures Rank([RowA, RowB, RowC, RowD]) == [RowC, RowA, RowB, RowD]
  {
    ExampleInserts();
    RankSnoc([], RowA);
    RankSnoc([RowA], RowB);
    RankSnoc([RowA, RowB], RowC);
    RankSnoc([RowA, RowB, RowC], RowD);
    Appends(RowA, RowB, RowC, RowD);
  }

  lemma Appends<T>(a: T, b: T, c: T, d: T)
    ensures [] + [a] == [a] && [a] + [b] == [a, b] && [a, b] + [c] == [a, b, c] && [a, b, c] + [d] == [a, b, c, d]
  {
  }
}
