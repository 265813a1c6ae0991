/** What the customs rows promise, whatever the lines and their order. */
module CustomsRowsLaws {
  import opened Basics
  import opened Ordering
  import opened CustomsRows

  // ---------------------------------------------------------------- one row for each line

  lemma RowsOfKeys(lines: seq<Line>, row: Row)
    ensures row in RowsOf(lines, Keys(lines)) <==> row.key in Keys(lines) && row == RowOf(lines, row.key)
  {
    var keys := Keys(lines);
    if row.key in keys {
      var i :| 0 <= i < |keys| && keys[i] == row.key;
      assert RowsOf(lines, keys)[i] == RowOf(lines, row.key);
    }
  }

  lemma FoldedRows(lines: seq<Line>, row: Row)
    ensures row in Folded(lines) <==> Mentioned(lines, row.key) && row == RowOf(lines, row.key)
  {
    SortKeepsMembers(FirstMoment, RowsOf(lines, Keys(lines)), row);
    RowsOfKeys(lines, row);
    KeysAreTheMentioned(lines, row.key);
  }

  lemma RowsOfDoNotRepeat(lines: seq<Line>)
    ensures NoRepeats(RowsOf(lines, Keys(lines)))
    ensures NoRepeats(Folded(lines))
  {
    KeysAreDistinct(lines);
    SortPermutes(FirstMoment, RowsOf(lines, Keys(lines)));
    PermutationKeepsDistinct(RowsOf(lines, Keys(lines)), Folded(lines));
  }

  /** Rows have different keys, and a line with something left over has its row. */
  lemma EveryLineHasExactlyOneRow(lines: seq<Line>)
    ensures forall i, j :: 0 <= i < j < |Folded(lines)| ==> Folded(lines)[i].key != Folded(lines)[j].key
    ensures forall line :: line in lines && line.quantity > 0 ==> exists row :: row in Folded(lines) && row.key == KeyOf(line)
    ensures forall row :: row in Folded(lines) ==> Mentioned(lines, row.key)
  {
    var rows := Folded(lines);
    forall i, j | 0 <= i < j < |rows| ensures rows[i].key != rows[j].key {
      FoldedRows(lines, rows[i]);
      FoldedRows(lines, rows[j]);
      RowsOfDoNotRepeat(lines);
      assert rows[i] in rows && rows[j] in rows;
    }
    forall line | line in lines && line.quantity > 0 ensures exists row :: row in rows && row.key == KeyOf(line) {
      var k :| 0 <= k < |lines| && lines[k] == line;
      assert Feeds(lines[k], KeyOf(line));
      FoldedRows(lines, RowOf(lines, KeyOf(line)));
    }
    forall row | row in rows ensures Mentioned(lines, row.key) {
      FoldedRows(lines, row);
    }
  }

  // ---------------------------------------------------------------- conservation

  function LinesQuantity(lines: seq<Line>): int {
    if lines == [] then 0
    else LinesQuantity(lines[..|lines| - 1]) + Max(lines[|lines| - 1].quantity, 0)
  }

  function RowsQuantity(rows: seq<Row>): int {
    if rows == [] then 0 else RowsQuantity(rows[..|rows| - 1]) + rows[|rows| - 1].quantity
  }

  lemma {:induction false} PlacedQuantity(rows: seq<Row>, row: Row)
    ensures RowsQuantity(Place(FirstMoment, rows, row)) == RowsQuantity(rows) + row.quantity
  {
    if rows != [] && Before(row.first, rows[|rows| - 1].first) {
      PlacedQuantity(rows[..|rows| - 1], row);
      assert (Place(FirstMoment, rows[..|rows| - 1], row) + [rows[|rows| - 1]])[..|Place(FirstMoment, rows[..|rows| - 1], row)|]
          == Place(FirstMoment, rows[..|rows| - 1], row);
    } else {
      assert (rows + [row])[..|rows|] == rows;
    }
  }

  lemma {:induction false} SortedQuantity(rows: seq<Row>)
    ensures RowsQuantity(Sort(FirstMoment, rows)) == RowsQuantity(rows)
  {
    if rows != [] {
      SortedQuantity(rows[..|rows| - 1]);
      PlacedQuantity(Sort(FirstMoment, rows[..|rows| - 1]), rows[|rows| - 1]);
    }
  }

  lemma {:induction false} AnotherLineAddsOnce(lines: seq<Line>, line: Line, keys: seq<RowKey>)
    requires NoRepeats(keys)
    ensures RowsQuantity(RowsOf(lines + [line], keys))
      == RowsQuantity(RowsOf(lines, keys)) + (if KeyOf(line) in keys then Max(line.quantity, 0) else 0)
  {
    if keys != [] {
      var before, key := keys[..|keys| - 1], keys[|keys| - 1];
      AnotherLineAddsOnce(lines, line, before);
      assert (lines + [line])[..|lines|] == lines;
      assert RowsOf(lines, keys)[..|before|] == RowsOf(lines, before);
      assert RowsOf(lines + [line], keys)[..|before|] == RowsOf(lines + [line], before);
    }
  }

  lemma {:induction false} UnsortedConserves(lines: seq<Line>)
    ensures RowsQuantity(RowsOf(lines, Keys(lines))) == LinesQuantity(lines)
  {
    if lines != [] {
      var before, line := lines[..|lines| - 1], lines[|lines| - 1];
      assert lines == before + [line];
      UnsortedConserves(before);
      KeysAreDistinct(lines);
      KeysAreDistinct(before);
      AnotherLineAddsOnce(before, line, Keys(before));
      if Keys(lines) != Keys(before) {
        UnmentionedTotal(before, KeyOf(line));
        assert RowsOf(lines, Keys(lines))[..|Keys(before)|] == RowsOf(lines, Keys(before));
      } else if line.quantity <= 0 {
        assert Max(line.quantity, 0) == 0;
      }
    }
  }

  /** Folding neither loses nor doubles anything. */
  lemma QuantityIsConserved(lines: seq<Line>)
    ensures RowsQuantity(Folded(lines)) == LinesQuantity(lines)
  {
    SortedQuantity(RowsOf(lines, Keys(lines)));
    UnsortedConserves(lines);
  }

  // ---------------------------------------------------------------- chronological order

  lemma {:induction false} EarliestIsTheMinimum(lines: seq<Line>, key: RowKey)
    requires Mentioned(lines, key)
    ensures Earliest(lines, key).Some?
    ensures forall k :: 0 <= k < |lines| && Feeds(lines[k], key) ==> !Before(Moment(lines[k]), Earliest(lines, key).value)
    ensures exists k :: 0 <= k < |lines| && Feeds(lines[k], key) && Moment(lines[k]) == Earliest(lines, key).value
  {
    var before, last := lines[..|lines| - 1], lines[|lines| - 1];
    if Mentioned(before, key) {
      EarliestIsTheMinimum(before, key);
      var k :| 0 <= k < |before| && Feeds(before[k], key) && Moment(before[k]) == Earliest(before, key).value;
      assert lines[k] == before[k];
    } else {
      KeysAreTheMentioned(before, key);
      assert forall k :: 0 <= k < |before| ==> lines[k] == before[k] && !Feeds(before[k], key);
      assert Feeds(lines[|lines| - 1], key);
    }
  }

  /** A row stands where its earliest line stands. */
  lemma RowCarriesItsEarliestMoment(lines: seq<Line>, row: Row)
    requires row in Folded(lines)
    ensures forall k :: 0 <= k < |lines| && Feeds(lines[k], row.key) ==> !Before(Moment(lines[k]), row.first)
    ensures exists k :: 0 <= k < |lines| && Feeds(lines[k], row.key) && Moment(lines[k]) == row.first
  {
    FoldedRows(lines, row);
    EarliestIsTheMinimum(lines, row.key);
  }

  /** Document lines are told apart by their kind and number. */
  ghost predicate Identified(lines: seq<Line>) {
    forall i, j :: 0 <= i < j < |lines| ==> (lines[i].kind, lines[i].id) != (lines[j].kind, lines[j].id)
  }

  lemma OneMomentOneRow(lines: seq<Line>, a: Row, b: Row)
    requires Identified(lines) && a in Folded(lines) && b in Folded(lines) && a.first == b.first
    ensures a == b
  {
    RowCarriesItsEarliestMoment(lines, a);
    RowCarriesItsEarliestMoment(lines, b);
    FoldedRows(lines, a);
    FoldedRows(lines, b);
    var i :| 0 <= i < |lines| && Feeds(lines[i], a.key) && Moment(lines[i]) == a.first;
    var j :| 0 <= j < |lines| && Feeds(lines[j], b.key) && Moment(lines[j]) == b.first;
    assert (lines[i].kind, lines[i].id) == (lines[j].kind, lines[j].id);
    assert !(i < j) && !(j < i);
  }

  lemma MomentsTellRowsApart(lines: seq<Line>)
    requires Identified(lines)
    ensures Distinguishes(FirstMoment, RowsOf(lines, Keys(lines)))
  {
    var rows := RowsOf(lines, Keys(lines));
    forall a, b | a in rows && b in rows && FirstMoment(a) == FirstMoment(b) ensures a == b {
      SortKeepsMembers(FirstMoment, rows, a);
      SortKeepsMembers(FirstMoment, rows, b);
      OneMomentOneRow(lines, a, b);
    }
  }

  lemma RowsStandInStrictOrder(lines: seq<Line>)
    requires Identified(lines)
    ensures StrictlyOrdered(FirstMoment, Folded(lines))
  {
    MomentsTellRowsApart(lines);
    RowsOfDoNotRepeat(lines);
    DistinctKeysAreStrict(FirstMoment, RowsOf(lines, Keys(lines)));
  }

  // ---------------------------------------------------------------- the order of the lines does not matter

  lemma {:induction false} TotalOfTwoParts(a: seq<Line>, b: seq<Line>, key: RowKey)
    ensures Total(a + b, key) == Total(a, key) + Total(b, key)
  {
    if b == [] {
      assert a + b == a;
    } else {
      TotalOfTwoParts(a, b[..|b| - 1], key);
      assert (a + b)[..|a + b| - 1] == a + b[..|b| - 1];
    }
  }

  lemma TotalWithout(lines: seq<Line>, i: nat, key: RowKey)
    requires i < |lines|
    ensures Total(lines, key) == Total(lines[..i] + lines[i + 1..], key) + Contribution(lines[i], key)
  {
    var before, x, after := lines[..i], lines[i], lines[i + 1..];
    TotalOfTwoParts(before, after, key);
    TotalOfTwoParts(before + [x], after, key);
    assert lines == (before + [x]) + after;
    assert (before + [x])[..i] == before;
  }

  lemma CountWithout(lines: seq<Line>, i: nat)
    requires i < |lines|
    ensures multiset(lines[..i] + lines[i + 1..]) == multiset(lines) - multiset{lines[i]}
  {
    assert lines == lines[..i] + [lines[i]] + lines[i + 1..];
  }

  lemma {:induction false} PermutedTotal(a: seq<Line>, b: seq<Line>, key: RowKey)
    requires multiset(a) == multiset(b)
    ensures Total(a, key) == Total(b, key)
    decreases |a|
  {
    if a == [] {
      assert |multiset(b)| == 0;
    } else {
      var x := a[|a| - 1];
      assert x in multiset(b);
      var i :| 0 <= i < |b| && b[i] == x;
      CountWithout(b, i);
      WithoutTheLast(a);
      PermutedTotal(a[..|a| - 1], b[..i] + b[i + 1..], key);
      TotalWithout(b, i, key);
    }
  }

  lemma PermutedMention(a: seq<Line>, b: seq<Line>, key: RowKey)
    requires multiset(a) == multiset(b) && Mentioned(a, key)
    ensures Mentioned(b, key)
  {
    var k :| 0 <= k < |a| && Feeds(a[k], key);
    PermutationKeepsMembers(a, b, a[k]);
  }

  lemma EarliestComesNoLater(a: seq<Line>, b: seq<Line>, key: RowKey)
    requires multiset(a) == multiset(b) && Mentioned(a, key) && Mentioned(b, key)
    ensures Earliest(a, key).Some? && Earliest(b, key).Some?
    ensures !Before(Earliest(b, key).value, Earliest(a, key).value)
  {
    EarliestIsTheMinimum(a, key);
    EarliestIsTheMinimum(b, key);
    var j :| 0 <= j < |b| && Feeds(b[j], key) && Moment(b[j]) == Earliest(b, key).value;
    PermutationKeepsMembers(a, b, b[j]);
    var i :| 0 <= i < |a| && a[i] == b[j];
  }

  lemma PermutedEarliest(a: seq<Line>, b: seq<Line>, key: RowKey)
    requires multiset(a) == multiset(b) && Mentioned(a, key)
    ensures Earliest(a, key) == Earliest(b, key)
  {
    PermutedMention(a, b, key);
    EarliestComesNoLater(a, b, key);
    EarliestComesNoLater(b, a, key);
  }

  lemma PermutedRows(a: seq<Line>, b: seq<Line>, row: Row)
    requires multiset(a) == multiset(b) && row in RowsOf(a, Keys(a))
    ensures row in RowsOf(b, Keys(b))
  {
    RowsOfKeys(a, row);
    RowsOfKeys(b, row);
    KeysAreTheMentioned(a, row.key);
    PermutedMention(a, b, row.key);
    KeysAreTheMentioned(b, row.key);
    PermutedTotal(a, b, row.key);
    PermutedEarliest(a, b, row.key);
  }

  /** The rows are the same whatever the order in which the lines are read. */
  lemma RowsIgnoreTheOrderOfLines(a: seq<Line>, b: seq<Line>)
    requires Identified(a) && multiset(a) == multiset(b)
    ensures Folded(a) == Folded(b)
  {
    var first, second := RowsOf(a, Keys(a)), RowsOf(b, Keys(b));
    forall row ensures row in first <==> row in second {
      if row in first { PermutedRows(a, b, row); }
      if row in second { PermutedRows(b, a, row); }
    }
    RowsOfDoNotRepeat(a);
    RowsOfDoNotRepeat(b);
    SameMembersSameCounts(first, second);
    MomentsTellRowsApart(a);
    PermutedSortsAgree(FirstMoment, first, second);
  }
}
