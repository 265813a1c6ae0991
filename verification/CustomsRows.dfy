/**
 Folding document lines into the rows of the customs export, their chronological order, the
 reconciliation of lines with rows, and the split of rows into the original and the analog group.

 Moments are microseconds since the earliest representable one, which also stands for a missing date.
 Quantities are thousandths. A version is identified within its part by its number.
 */
module CustomsRows {
  import opened Basics
  import opened Ordering
  import CustomsVersions

  // ---------------------------------------------------------------- canonical lines

  datatype Kind = OrderedPart | Repair | Sale

  /** The place of the three kind names in alphabetical order. */
  function Rank(kind: Kind): int {
    match kind
    case OrderedPart => 0
    case Repair => 1
    case Sale => 2
  }

  datatype DocumentLine = DocumentLine(id: int, part: int, issued: int, at: Option<nat>, number: string)

  datatype Line = Line(
    kind: Kind, id: int, at: Option<nat>, part: int, version: Option<nat>, number: string, quantity: int)

  function Moment(line: Line): Key {
    Key(if line.at.None? then 0 else line.at.value, Rank(line.kind), line.id)
  }

  function VersionOf(versions: map<int, seq<CustomsVersions.Version>>, part: int, at: Option<nat>): Option<nat> {
    if part !in versions then None
    else
      match CustomsVersions.VersionAt(versions[part], at)
      case None => None
      case Some(version) => Some(version.number)
  }

  /** What is left of a line after its completed returns, under the card data in force at its moment. */
  function Canonical(
    kind: Kind, line: DocumentLine, returned: map<int, int>, versions: map<int, seq<CustomsVersions.Version>>): Line
  {
    var back := if line.id in returned then returned[line.id] else 0;
    Line(kind, line.id, line.at, line.part, VersionOf(versions, line.part, line.at), line.number,
         Max(line.issued - back, 0))
  }

  datatype Documents = Documents(
    sales: seq<DocumentLine>, repairs: seq<DocumentLine>,
    saleReturns: map<int, int>, repairReturns: map<int, int>,
    versions: map<int, seq<CustomsVersions.Version>>)

  function SaleLines(d: Documents): seq<Line> {
    seq(|d.sales|, i requires 0 <= i < |d.sales| => Canonical(Sale, d.sales[i], d.saleReturns, d.versions))
  }

  function RepairLines(d: Documents): seq<Line> {
    seq(|d.repairs|, i requires 0 <= i < |d.repairs| => Canonical(Repair, d.repairs[i], d.repairReturns, d.versions))
  }

  function CanonicalLines(d: Documents): seq<Line> {
    Sort(Moment, SaleLines(d) + RepairLines(d))
  }

  method CollectLines(d: Documents) returns (records: seq<Line>)
    ensures records == CanonicalLines(d)
  {
    records := [];
    for i := 0 to |d.sales|
      invariant records == SaleLines(d)[..i]
    {
      records := records + [Canonical(Sale, d.sales[i], d.saleReturns, d.versions)];
    }
    for i := 0 to |d.repairs|
      invariant records == SaleLines(d) + RepairLines(d)[..i]
    {
      records := records + [Canonical(Repair, d.repairs[i], d.repairReturns, d.versions)];
    }
    assert RepairLines(d)[..|d.repairs|] == RepairLines(d);
    records := Sort(Moment, records);
  }

  // ---------------------------------------------------------------- folding lines into rows

  datatype RowKey = RowKey(part: int, version: Option<nat>, number: string)

  datatype Row = Row(key: RowKey, quantity: int, first: Key)

  function KeyOf(line: Line): RowKey {
    RowKey(line.part, line.version, line.number)
  }

  function FirstMoment(row: Row): Key {
    row.first
  }

  /** The line counts towards the row of this key. */
  predicate Feeds(line: Line, key: RowKey) {
    line.quantity > 0 && KeyOf(line) == key
  }

  function Contribution(line: Line, key: RowKey): int {
    if Feeds(line, key) then line.quantity else 0
  }

  function Total(lines: seq<Line>, key: RowKey): int {
    if lines == [] then 0 else Total(lines[..|lines| - 1], key) + Contribution(lines[|lines| - 1], key)
  }

  function Earlier(previous: Option<Key>, moment: Key): Key {
    if previous.None? || Before(moment, previous.value) then moment else previous.value
  }

  function Earliest(lines: seq<Line>, key: RowKey): Option<Key> {
    if lines == [] then None
    else if Feeds(lines[|lines| - 1], key) then
      Some(Earlier(Earliest(lines[..|lines| - 1], key), Moment(lines[|lines| - 1])))
    else Earliest(lines[..|lines| - 1], key)
  }

  /** Keys in the order in which the lines first mention them. */
  function Keys(lines: seq<Line>): seq<RowKey> {
    if lines == [] then []
    else
      var before, line := Keys(lines[..|lines| - 1]), lines[|lines| - 1];
      if line.quantity > 0 && KeyOf(line) !in before then before + [KeyOf(line)] else before
  }

  predicate Mentioned(lines: seq<Line>, key: RowKey) {
    exists k :: 0 <= k < |lines| && Feeds(lines[k], key)
  }

  lemma {:induction false} KeysAreTheMentioned(lines: seq<Line>, key: RowKey)
    ensures key in Keys(lines) <==> Mentioned(lines, key)
    ensures Earliest(lines, key).Some? <==> Mentioned(lines, key)
  {
    if lines != [] {
      var before := lines[..|lines| - 1];
      KeysAreTheMentioned(before, key);
      if Mentioned(before, key) {
        var k :| 0 <= k < |before| && Feeds(before[k], key);
        assert Feeds(lines[k], key);
      }
      if Mentioned(lines, key) && !Feeds(lines[|lines| - 1], key) {
        var k :| 0 <= k < |lines| && Feeds(lines[k], key);
        assert Feeds(before[k], key);
      }
    }
  }

  lemma {:induction false} KeysAreDistinct(lines: seq<Line>)
    ensures forall i, j :: 0 <= i < j < |Keys(lines)| ==> Keys(lines)[i] != Keys(lines)[j]
  {
    if lines != [] {
      KeysAreDistinct(lines[..|lines| - 1]);
    }
  }

  function RowOf(lines: seq<Line>, key: RowKey): Row {
    var first := Earliest(lines, key);
    Row(key, Total(lines, key), if first.Some? then first.value else Key(0, 0, 0))
  }

  function RowsOf(lines: seq<Line>, keys: seq<RowKey>): (rows: seq<Row>)
    ensures |rows| == |keys| && forall i :: 0 <= i < |keys| ==> rows[i] == RowOf(lines, keys[i])
  {
    if keys == [] then [] else RowsOf(lines, keys[..|keys| - 1]) + [RowOf(lines, keys[|keys| - 1])]
  }

  function Folded(lines: seq<Line>): seq<Row> {
    Sort(FirstMoment, RowsOf(lines, Keys(lines)))
  }

  ghost predicate Tallies(lines: seq<Line>, keys: seq<RowKey>, totals: map<RowKey, int>, firsts: map<RowKey, Key>) {
    && keys == Keys(lines)
    && (forall key :: key in totals <==> key in keys)
    && (forall key :: key in firsts <==> key in keys)
    && (forall key :: key in totals ==> totals[key] == Total(lines, key))
    && (forall key :: key in firsts ==> Earliest(lines, key) == Some(firsts[key]))
  }

  lemma {:induction false} UnmentionedTotal(lines: seq<Line>, key: RowKey)
    requires key !in Keys(lines)
    ensures Total(lines, key) == 0 && Earliest(lines, key).None?
  {
    KeysAreTheMentioned(lines, key);
    if lines != [] {
      if Feeds(lines[|lines| - 1], key) {
        assert Mentioned(lines, key);
      }
      UnmentionedTotal(lines[..|lines| - 1], key);
    }
  }

  lemma TallyAnother(
    lines: seq<Line>, line: Line, keys: seq<RowKey>, totals: map<RowKey, int>, firsts: map<RowKey, Key>)
    requires Tallies(lines, keys, totals, firsts) && line.quantity > 0
    ensures var key := KeyOf(line);
      Tallies(
        lines + [line],
        if key in totals then keys else keys + [key],
        totals[key := (if key in totals then totals[key] else 0) + line.quantity],
        firsts[key := if key in firsts && !Before(Moment(line), firsts[key]) then firsts[key] else Moment(line)])
  {
    var key := KeyOf(line);
    assert (lines + [line])[..|lines|] == lines;
    if key !in totals {
      UnmentionedTotal(lines, key);
    }
  }

  lemma NothingToTally(lines: seq<Line>, line: Line, keys: seq<RowKey>, totals: map<RowKey, int>, firsts: map<RowKey, Key>)
    requires Tallies(lines, keys, totals, firsts) && line.quantity <= 0
    ensures Tallies(lines + [line], keys, totals, firsts)
  {
    assert (lines + [line])[..|lines|] == lines;
  }

  method TallyLine(ghost before: seq<Line>, line: Line, keys: seq<RowKey>, totals: map<RowKey, int>, firsts: map<RowKey, Key>)
    returns (keys': seq<RowKey>, totals': map<RowKey, int>, firsts': map<RowKey, Key>)
    requires Tallies(before, keys, totals, firsts)
    ensures Tallies(before + [line], keys', totals', firsts')
  {
    keys', totals', firsts' := keys, totals, firsts;
    if line.quantity <= 0 {
      NothingToTally(before, line, keys, totals, firsts);
      return;
    }
    TallyAnother(before, line, keys, totals, firsts);
    var key := KeyOf(line);
    if key !in totals {
      keys' := keys + [key];
    }
    totals' := totals[key := (if key in totals then totals[key] else 0) + line.quantity];
    var moment := Moment(line);
    firsts' := firsts[key := if key in firsts && !Before(moment, firsts[key]) then firsts[key] else moment];
  }

  method FoldLines(lines: seq<Line>) returns (rows: seq<Row>)
    ensures rows == Folded(lines)
  {
    var keys, totals, firsts := [], map[], map[];
    for i := 0 to |lines|
      invariant Tallies(lines[..i], keys, totals, firsts)
    {
      assert lines[..i + 1] == lines[..i] + [lines[i]];
      keys, totals, firsts := TallyLine(lines[..i], lines[i], keys, totals, firsts);
    }
    assert lines[..|lines|] == lines;
    rows := [];
    for i := 0 to |keys|
      invariant rows == RowsOf(lines, keys[..i])
    {
      assert keys[i] in keys && keys[i] in totals && keys[i] in firsts;
      assert keys[..i + 1] == keys[..i] + [keys[i]];
      rows := rows + [Row(keys[i], totals[keys[i]], firsts[keys[i]])];
    }
    assert keys[..|keys|] == keys;
    rows := Sort(FirstMoment, rows);
  }
}
