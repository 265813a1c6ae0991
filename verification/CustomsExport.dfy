/** The customs export as a whole: both sources merged, the two groups, and the reconciliation. */
module CustomsExport {
  import opened Basics
  import opened Ordering
  import opened CustomsRows
  import opened CustomsRowsLaws
  import CustomsVersions

  // ---------------------------------------------------------------- original or analog

  const ORIGINAL := "original"
  const ANALOG := "analog"

  /** Only the letters of the two admitted names matter, so Latin upper case is enough. */
  function Normalised(manufacturer: string): string {
    if manufacturer == "" then ""
    else
      var rest, c := Normalised(manufacturer[..|manufacturer| - 1]), manufacturer[|manufacturer| - 1];
      if IsSpace(c) || c == '-' then rest else rest + [Upper(c)]
  }

  predicate Eligible(manufacturer: string) {
    Normalised(manufacturer) in {"BRP", "PROX"}
  }

  function CustomsGroup(manufacturer: string, imported: bool): string {
    if !imported then ANALOG else if Eligible(manufacturer) then ORIGINAL else ANALOG
  }

  /** A space or a hyphen anywhere in the name never changes the group. */
  lemma {:induction false} SpellingDoesNotMatter(before: string, c: char, after: string, imported: bool)
    requires IsSpace(c) || c == '-'
    ensures Normalised(before + [c] + after) == Normalised(before + after)
    ensures CustomsGroup(before + [c] + after, imported) == CustomsGroup(before + after, imported)
  {
    var long, short := before + [c] + after, before + after;
    if after == "" {
      assert long[..|long| - 1] == before == short;
    } else {
      SpellingDoesNotMatter(before, c, after[..|after| - 1], imported);
      assert long[..|long| - 1] == before + [c] + after[..|after| - 1];
      assert short[..|short| - 1] == before + after[..|after| - 1];
    }
  }

  /** Nor does the case of any one letter of it. */
  lemma {:induction false} CaseDoesNotMatter(before: string, c: char, d: char, after: string, imported: bool)
    requires Upper(c) == Upper(d)
    ensures Normalised(before + [c] + after) == Normalised(before + [d] + after)
    ensures CustomsGroup(before + [c] + after, imported) == CustomsGroup(before + [d] + after, imported)
  {
    var one, other := before + [c] + after, before + [d] + after;
    if after == "" {
      assert one[..|one| - 1] == before == other[..|other| - 1];
    } else {
      CaseDoesNotMatter(before, c, d, after[..|after| - 1], imported);
      assert one[..|one| - 1] == before + [c] + after[..|after| - 1];
      assert other[..|other| - 1] == before + [d] + after[..|after| - 1];
    }
  }

  // ---------------------------------------------------------------- the export

  datatype Order = Order(id: int, part: int, at: nat, number: string)

  const UNIT := 1000

  function OrderLine(order: Order, versions: map<int, seq<CustomsVersions.Version>>): Line {
    Line(OrderedPart, order.id, Some(order.at), order.part, VersionOf(versions, order.part, Some(order.at)), order.number, UNIT)
  }

  function OrderLines(orders: seq<Order>, versions: map<int, seq<CustomsVersions.Version>>): (lines: seq<Line>)
    ensures |lines| == |orders| && forall i :: 0 <= i < |orders| ==> lines[i] == OrderLine(orders[i], versions)
  {
    if orders == [] then []
    else OrderLines(orders[..|orders| - 1], versions) + [OrderLine(orders[|orders| - 1], versions)]
  }

  datatype GroupedRow = GroupedRow(row: Row, group: string)

  /** What the catalogues say of a row: whether its part was imported, and the manufacturer that goes to the file. */
  datatype Catalogues = Catalogues(imported: set<int>, manufacturer: RowKey -> string)

  function Grouped(row: Row, c: Catalogues): GroupedRow {
    GroupedRow(row, CustomsGroup(c.manufacturer(row.key), row.key.part in c.imported))
  }

  function GroupAll(rows: seq<Row>, c: Catalogues): (grouped: seq<GroupedRow>)
    ensures |grouped| == |rows| && forall i :: 0 <= i < |rows| ==> grouped[i] == Grouped(rows[i], c)
  {
    if rows == [] then [] else GroupAll(rows[..|rows| - 1], c) + [Grouped(rows[|rows| - 1], c)]
  }

  function GroupedMoment(g: GroupedRow): Key {
    g.row.first
  }

  datatype Source = Source(documents: Documents, orders: seq<Order>, narrowed: bool)

  /** Orders have no cell and no warehouse action, so a filter on either leaves them out. */
  function OrderedRows(s: Source): seq<Row> {
    if s.narrowed then [] else Folded(OrderLines(s.orders, s.documents.versions))
  }

  function Unordered(s: Source): seq<Row> {
    Folded(CanonicalLines(s.documents)) + OrderedRows(s)
  }

  function Export(s: Source, c: Catalogues): seq<GroupedRow> {
    Sort(GroupedMoment, GroupAll(Unordered(s), c))
  }

  method AssignGroups(rows: seq<Row>, c: Catalogues) returns (grouped: seq<GroupedRow>)
    ensures grouped == GroupAll(rows, c)
  {
    grouped := [];
    for i := 0 to |rows|
      invariant grouped == GroupAll(rows[..i], c)
    {
      assert rows[..i + 1] == rows[..i] + [rows[i]];
      grouped := grouped + [GroupedRow(rows[i], CustomsGroup(c.manufacturer(rows[i].key), rows[i].key.part in c.imported))];
    }
    assert rows[..|rows|] == rows;
  }

  method ExportRows(s: Source, c: Catalogues) returns (listed: seq<GroupedRow>)
    ensures listed == Export(s, c)
  {
    var lines := CollectLines(s.documents);
    var rows := FoldLines(lines);
    if !s.narrowed {
      var ordered := FoldLines(OrderLines(s.orders, s.documents.versions));
      rows := rows + ordered;
    } else {
      assert rows + [] == rows;
    }
    listed := AssignGroups(rows, c);
    listed := Sort(GroupedMoment, listed);
  }

  function OfGroup(group: string, rows: seq<GroupedRow>): seq<GroupedRow> {
    if rows == [] then []
    else OfGroup(group, rows[..|rows| - 1]) + (if rows[|rows| - 1].group == group then [rows[|rows| - 1]] else [])
  }

  method SelectGroup(group: string, listed: seq<GroupedRow>) returns (chosen: seq<GroupedRow>)
    ensures chosen == OfGroup(group, listed)
  {
    chosen := [];
    for i := 0 to |listed|
      invariant chosen == OfGroup(group, listed[..i])
    {
      assert listed[..i + 1][..i] == listed[..i];
      if listed[i].group == group {
        chosen := chosen + [listed[i]];
      }
    }
    assert listed[..|listed|] == listed;
  }

  method GroupRows(group: string, s: Source, c: Catalogues) returns (rows: Result<seq<GroupedRow>, string>)
    ensures rows == if group in {ORIGINAL, ANALOG} then Ok(OfGroup(group, Export(s, c))) else Err(group)
  {
    if group != ORIGINAL && group != ANALOG {
      return Err(group);
    }
    var listed := ExportRows(s, c);
    var chosen := SelectGroup(group, listed);
    rows := Ok(chosen);
  }

  // ---------------------------------------------------------------- the documents behind it

  ghost predicate DifferentIds(lines: seq<DocumentLine>) {
    forall i, j :: 0 <= i < j < |lines| ==> lines[i].id != lines[j].id
  }

  /** Each table numbers its rows by itself. */
  ghost predicate Numbered(s: Source) {
    && DifferentIds(s.documents.sales) && DifferentIds(s.documents.repairs)
    && (forall i, j :: 0 <= i < j < |s.orders| ==> s.orders[i].id != s.orders[j].id)
  }

  function DocumentLines(d: Documents): seq<Line> {
    SaleLines(d) + RepairLines(d)
  }

  lemma DocumentLinesAreIdentified(s: Source)
    requires Numbered(s)
    ensures Identified(DocumentLines(s.documents))
    ensures Identified(OrderLines(s.orders, s.documents.versions))
  {
  }

  lemma IdentifiedLinesDoNotRepeat(lines: seq<Line>)
    requires Identified(lines)
    ensures NoRepeats(lines)
  {
    forall i, j | 0 <= i < j < |lines| ensures lines[i] != lines[j] {
      assert (lines[i].kind, lines[i].id) != (lines[j].kind, lines[j].id);
    }
  }

  /** The history is sorted before it is folded; the rows are those of the lines as they were read. */
  lemma RowsOfTheHistory(s: Source)
    requires Numbered(s)
    ensures Folded(CanonicalLines(s.documents)) == Folded(DocumentLines(s.documents))
  {
    DocumentLinesAreIdentified(s);
    SortPermutes(Moment, DocumentLines(s.documents));
    RowsIgnoreTheOrderOfLines(DocumentLines(s.documents), CanonicalLines(s.documents));
  }

  // ---------------------------------------------------------------- one chronological order

  lemma RowMomentKind(lines: seq<Line>, row: Row, ordered: bool)
    requires row in Folded(lines)
    requires forall k :: 0 <= k < |lines| ==> (lines[k].kind == OrderedPart) == ordered
    ensures (row.first.middle == 0) == ordered
  {
    RowCarriesItsEarliestMoment(lines, row);
  }

  predicate FromOrders(row: Row) {
    row.first.middle == 0
  }

  /** Rows of sales and repairs and rows of orders differ in the kind of their moment. */
  lemma RowsBySource(s: Source, row: Row)
    requires Numbered(s) && row in Unordered(s)
    ensures if FromOrders(row) then row in Folded(OrderLines(s.orders, s.documents.versions)) else row in Folded(DocumentLines(s.documents))
  {
    RowsOfTheHistory(s);
    if row in Folded(DocumentLines(s.documents)) {
      RowMomentKind(DocumentLines(s.documents), row, false);
    } else {
      assert row in OrderedRows(s);
      RowMomentKind(OrderLines(s.orders, s.documents.versions), row, true);
    }
  }

  /** A row of orders never shares its moment with a row of sales and repairs. */
  lemma MomentsTellAllRowsApart(s: Source, a: Row, b: Row)
    requires Numbered(s) && a in Unordered(s) && b in Unordered(s) && a.first == b.first
    ensures a == b
  {
    DocumentLinesAreIdentified(s);
    RowsBySource(s, a);
    RowsBySource(s, b);
    if FromOrders(a) {
      OneMomentOneRow(OrderLines(s.orders, s.documents.versions), a, b);
    } else {
      OneMomentOneRow(DocumentLines(s.documents), a, b);
    }
  }

  lemma SourcesShareNoRow(s: Source, row: Row)
    requires row in Folded(DocumentLines(s.documents))
    ensures row !in OrderedRows(s)
  {
    RowMomentKind(DocumentLines(s.documents), row, false);
    if row in OrderedRows(s) {
      RowMomentKind(OrderLines(s.orders, s.documents.versions), row, true);
    }
  }

  lemma UnorderedRowsDoNotRepeat(s: Source)
    requires Numbered(s)
    ensures NoRepeats(Unordered(s))
  {
    RowsOfTheHistory(s);
    RowsOfDoNotRepeat(DocumentLines(s.documents));
    RowsOfDoNotRepeat(OrderLines(s.orders, s.documents.versions));
    forall row | row in Folded(DocumentLines(s.documents)) ensures row !in OrderedRows(s) {
      SourcesShareNoRow(s, row);
    }
    JoinedDoNotRepeat(Folded(DocumentLines(s.documents)), OrderedRows(s));
  }

  lemma GroupedRowsAreToldApart(s: Source, c: Catalogues)
    requires Numbered(s)
    ensures Distinguishes(GroupedMoment, GroupAll(Unordered(s), c)) && NoRepeats(GroupAll(Unordered(s), c))
  {
    var rows, grouped := Unordered(s), GroupAll(Unordered(s), c);
    forall a, b | a in grouped && b in grouped && GroupedMoment(a) == GroupedMoment(b) ensures a == b {
      var i :| 0 <= i < |grouped| && grouped[i] == a;
      var j :| 0 <= j < |grouped| && grouped[j] == b;
      MomentsTellAllRowsApart(s, rows[i], rows[j]);
    }
    UnorderedRowsDoNotRepeat(s);
    assert forall i, j :: 0 <= i < j < |grouped| ==> rows[i] != rows[j] && grouped[i].row == rows[i] && grouped[j].row == rows[j];
  }

  lemma ExportStandsInStrictOrder(s: Source, c: Catalogues)
    requires Numbered(s)
    ensures StrictlyOrdered(GroupedMoment, Export(s, c))
  {
    GroupedRowsAreToldApart(s, c);
    DistinctKeysAreStrict(GroupedMoment, GroupAll(Unordered(s), c));
  }

  // ---------------------------------------------------------------- nothing lost between the sources and the file

  function ExportQuantity(rows: seq<GroupedRow>): int {
    if rows == [] then 0 else ExportQuantity(rows[..|rows| - 1]) + rows[|rows| - 1].row.quantity
  }

  lemma {:induction false} PlacedExportQuantity(rows: seq<GroupedRow>, row: GroupedRow)
    ensures ExportQuantity(Place(GroupedMoment, rows, row)) == ExportQuantity(rows) + row.row.quantity
  {
    if rows != [] && Before(row.row.first, rows[|rows| - 1].row.first) {
      PlacedExportQuantity(rows[..|rows| - 1], row);
      var placed := Place(GroupedMoment, rows[..|rows| - 1], row);
      assert (placed + [rows[|rows| - 1]])[..|placed|] == placed;
    } else {
      assert (rows + [row])[..|rows|] == rows;
    }
  }

  lemma {:induction false} SortedExportQuantity(rows: seq<GroupedRow>)
    ensures ExportQuantity(Sort(GroupedMoment, rows)) == ExportQuantity(rows)
  {
    if rows != [] {
      SortedExportQuantity(rows[..|rows| - 1]);
      PlacedExportQuantity(Sort(GroupedMoment, rows[..|rows| - 1]), rows[|rows| - 1]);
    }
  }

  lemma {:induction false} GroupedQuantity(a: seq<Row>, b: seq<Row>, c: Catalogues)
    ensures ExportQuantity(GroupAll(a + b, c)) == RowsQuantity(a) + RowsQuantity(b)
  {
    if b != [] {
      GroupedQuantity(a, b[..|b| - 1], c);
      assert (a + b)[..|a + b| - 1] == a + b[..|b| - 1];
    } else if a != [] {
      GroupedQuantity(a[..|a| - 1], [], c);
      assert a + b == a && a[..|a| - 1] + b == a[..|a| - 1];
    }
  }

  lemma {:induction false} OrdersCountOneEach(orders: seq<Order>, versions: map<int, seq<CustomsVersions.Version>>)
    ensures LinesQuantity(OrderLines(orders, versions)) == UNIT * |orders|
  {
    if orders != [] {
      OrdersCountOneEach(orders[..|orders| - 1], versions);
      var lines := OrderLines(orders, versions);
      assert lines[..|lines| - 1] == OrderLines(orders[..|orders| - 1], versions);
    }
  }

  /** Everything sold, issued and ordered is in the export once, and nothing else is. */
  lemma ExportConservesQuantity(s: Source, c: Catalogues)
    requires Numbered(s)
    ensures ExportQuantity(Export(s, c))
      == LinesQuantity(DocumentLines(s.documents)) + (if s.narrowed then 0 else UNIT * |s.orders|)
  {
    SortedExportQuantity(GroupAll(Unordered(s), c));
    GroupedQuantity(Folded(CanonicalLines(s.documents)), OrderedRows(s), c);
    RowsOfTheHistory(s);
    QuantityIsConserved(DocumentLines(s.documents));
    QuantityIsConserved(OrderLines(s.orders, s.documents.versions));
    OrdersCountOneEach(s.orders, s.documents.versions);
  }

  // ---------------------------------------------------------------- the two groups

  lemma GroupAppend(group: string, rows: seq<GroupedRow>, g: GroupedRow)
    ensures multiset(OfGroup(group, rows + [g])) == multiset(OfGroup(group, rows)) + (if g.group == group then multiset{g} else multiset{})
  {
    assert (rows + [g])[..|rows|] == rows;
  }

  function BothGroups(rows: seq<GroupedRow>): multiset<GroupedRow> {
    multiset(OfGroup(ORIGINAL, rows)) + multiset(OfGroup(ANALOG, rows))
  }

  lemma OneGroupTakesTheRow(rows: seq<GroupedRow>, g: GroupedRow)
    requires g.group in {ORIGINAL, ANALOG}
    ensures BothGroups(rows + [g]) == BothGroups(rows) + multiset{g}
  {
    GroupAppend(ORIGINAL, rows, g);
    GroupAppend(ANALOG, rows, g);
    assert ORIGINAL[0] != ANALOG[0];
  }

  lemma {:induction false} GroupsShareOut(rows: seq<GroupedRow>)
    requires forall g :: g in rows ==> g.group in {ORIGINAL, ANALOG}
    ensures BothGroups(rows) == multiset(rows)
  {
    if rows != [] {
      var before, g := rows[..|rows| - 1], rows[|rows| - 1];
      GroupsShareOut(before);
      OneGroupTakesTheRow(before, g);
      assert rows == before + [g];
    }
  }

  lemma {:induction false} GroupMembers(group: string, rows: seq<GroupedRow>, g: GroupedRow)
    ensures g in OfGroup(group, rows) <==> g in rows && g.group == group
  {
    if rows != [] {
      GroupMembers(group, rows[..|rows| - 1], g);
    }
  }

  lemma ExportMember(s: Source, c: Catalogues, g: GroupedRow)
    requires g in Export(s, c)
    ensures g == Grouped(g.row, c) && g.row in Unordered(s)
  {
    SortKeepsMembers(GroupedMoment, GroupAll(Unordered(s), c), g);
    var i :| 0 <= i < |GroupAll(Unordered(s), c)| && GroupAll(Unordered(s), c)[i] == g;
  }

  /**
   Each row is in exactly one group: the original one if and only if a catalogue supplied its part and
   the manufacturer on the row is BRP or PROX.
   */
  lemma GroupsPartitionTheExport(s: Source, c: Catalogues, g: GroupedRow)
    ensures multiset(OfGroup(ORIGINAL, Export(s, c))) + multiset(OfGroup(ANALOG, Export(s, c))) == multiset(Export(s, c))
    ensures g in OfGroup(ORIGINAL, Export(s, c))
       <==> g in Export(s, c) && g.row.key.part in c.imported && Eligible(c.manufacturer(g.row.key))
    ensures !(g in OfGroup(ORIGINAL, Export(s, c)) && g in OfGroup(ANALOG, Export(s, c)))
  {
    forall h | h in Export(s, c) ensures h == Grouped(h.row, c) {
      ExportMember(s, c, h);
    }
    GroupsShareOut(Export(s, c));
    GroupMembers(ORIGINAL, Export(s, c), g);
    GroupMembers(ANALOG, Export(s, c), g);
  }

  // ---------------------------------------------------------------- the order of reading

  /** The same rows of the same tables, read in another order. */
  ghost predicate SameTables(s: Source, t: Source) {
    && s.documents.saleReturns == t.documents.saleReturns && s.documents.repairReturns == t.documents.repairReturns
    && s.documents.versions == t.documents.versions && s.narrowed == t.narrowed
    && multiset(s.documents.sales) == multiset(t.documents.sales)
    && multiset(s.documents.repairs) == multiset(t.documents.repairs)
    && multiset(s.orders) == multiset(t.orders)
  }

  lemma OtherLine(s: Source, t: Source, line: Line)
    requires SameTables(s, t) && line in DocumentLines(s.documents)
    ensures line in DocumentLines(t.documents)
  {
    var sales, repairs := SaleLines(s.documents), RepairLines(s.documents);
    if line in sales {
      var i :| 0 <= i < |sales| && sales[i] == line;
      PermutationKeepsMembers(s.documents.sales, t.documents.sales, s.documents.sales[i]);
      var j :| 0 <= j < |t.documents.sales| && t.documents.sales[j] == s.documents.sales[i];
      assert SaleLines(t.documents)[j] == line;
    } else {
      var i :| 0 <= i < |repairs| && repairs[i] == line;
      PermutationKeepsMembers(s.documents.repairs, t.documents.repairs, s.documents.repairs[i]);
      var j :| 0 <= j < |t.documents.repairs| && t.documents.repairs[j] == s.documents.repairs[i];
      assert RepairLines(t.documents)[j] == line;
    }
  }

  lemma OtherOrder(s: Source, t: Source, line: Line)
    requires SameTables(s, t) && line in OrderLines(s.orders, s.documents.versions)
    ensures line in OrderLines(t.orders, t.documents.versions)
  {
    var lines := OrderLines(s.orders, s.documents.versions);
    var i :| 0 <= i < |lines| && lines[i] == line;
    PermutationKeepsMembers(s.orders, t.orders, s.orders[i]);
    var j :| 0 <= j < |t.orders| && t.orders[j] == s.orders[i];
    assert OrderLines(t.orders, t.documents.versions)[j] == line;
  }

  lemma SameLines(s: Source, t: Source)
    requires Numbered(s) && Numbered(t) && SameTables(s, t)
    ensures multiset(DocumentLines(s.documents)) == multiset(DocumentLines(t.documents))
    ensures multiset(OrderLines(s.orders, s.documents.versions)) == multiset(OrderLines(t.orders, t.documents.versions))
  {
    var versions := s.documents.versions;
    DocumentLinesAreIdentified(s);
    DocumentLinesAreIdentified(t);
    IdentifiedLinesDoNotRepeat(DocumentLines(s.documents));
    IdentifiedLinesDoNotRepeat(DocumentLines(t.documents));
    IdentifiedLinesDoNotRepeat(OrderLines(s.orders, versions));
    IdentifiedLinesDoNotRepeat(OrderLines(t.orders, versions));
    forall line ensures line in DocumentLines(s.documents) <==> line in DocumentLines(t.documents) {
      if line in DocumentLines(s.documents) { OtherLine(s, t, line); }
      if line in DocumentLines(t.documents) { OtherLine(t, s, line); }
    }
    forall line ensures line in OrderLines(s.orders, versions) <==> line in OrderLines(t.orders, versions) {
      if line in OrderLines(s.orders, versions) { OtherOrder(s, t, line); }
      if line in OrderLines(t.orders, versions) { OtherOrder(t, s, line); }
    }
    SameMembersSameCounts(DocumentLines(s.documents), DocumentLines(t.documents));
    SameMembersSameCounts(OrderLines(s.orders, versions), OrderLines(t.orders, versions));
  }

  /** The whole file is the same in whatever order the tables are read. */
  lemma ExportIgnoresTheOrderOfReading(s: Source, t: Source, c: Catalogues)
    requires Numbered(s) && Numbered(t) && SameTables(s, t)
    ensures Export(s, c) == Export(t, c)
  {
    SameLines(s, t);
    DocumentLinesAreIdentified(s);
    RowsOfTheHistory(s);
    RowsOfTheHistory(t);
    RowsIgnoreTheOrderOfLines(DocumentLines(s.documents), DocumentLines(t.documents));
    RowsIgnoreTheOrderOfLines(OrderLines(s.orders, s.documents.versions), OrderLines(t.orders, t.documents.versions));
  }

  // ---------------------------------------------------------------- reconciliation

  /** Lines with something left over whose key has no row. */
  function Silent(lines: seq<Line>, rows: map<RowKey, Row>): seq<Line> {
    if lines == [] then []
    else
      var line := lines[|lines| - 1];
      Silent(lines[..|lines| - 1], rows) + (if line.quantity > 0 && KeyOf(line) !in rows then [line] else [])
  }

  function Marker(line: Line): (Kind, int) {
    (line.kind, line.id)
  }

  function Markers(lines: seq<Line>): set<(Kind, int)> {
    set line | line in lines :: Marker(line)
  }

  function Repeated(lines: seq<Line>): seq<(Kind, int)> {
    if lines == [] then []
    else
      var before, marker := lines[..|lines| - 1], Marker(lines[|lines| - 1]);
      Repeated(before) + (if marker in Markers(before) then [marker] else [])
  }

  lemma {:induction false} NothingRepeatedIff(lines: seq<Line>)
    ensures Repeated(lines) == [] <==> Identified(lines)
  {
    if lines != [] {
      var before, line := lines[..|lines| - 1], lines[|lines| - 1];
      NothingRepeatedIff(before);
      assert lines == before + [line];
      if Marker(line) in Markers(before) {
        var other :| other in before && Marker(other) == Marker(line);
        var i :| 0 <= i < |before| && before[i] == other;
        assert !Identified(lines) by {
          assert (lines[i].kind, lines[i].id) == (lines[|before|].kind, lines[|before|].id);
        }
      } else if Identified(before) {
        forall i, j | 0 <= i < j < |lines| ensures (lines[i].kind, lines[i].id) != (lines[j].kind, lines[j].id) {
          if j == |before| {
            assert before[i] in before && Marker(before[i]) in Markers(before);
          }
        }
      } else {
        var i, j :| 0 <= i < j < |before| && (before[i].kind, before[i].id) == (before[j].kind, before[j].id);
        assert (lines[i].kind, lines[i].id) == (lines[j].kind, lines[j].id);
      }
    }
  }

  predicate HasRow(line: Line, rows: map<RowKey, Row>) {
    line.quantity > 0 ==> KeyOf(line) in rows
  }

  /** Nothing is reported as silent if and only if every line with something left over has a row. */
  lemma {:induction false} NothingIsSilentIff(lines: seq<Line>, rows: map<RowKey, Row>)
    ensures Silent(lines, rows) == [] <==> forall k :: 0 <= k < |lines| ==> HasRow(lines[k], rows)
  {
    if lines != [] {
      var before := lines[..|lines| - 1];
      NothingIsSilentIff(before, rows);
      assert forall k :: 0 <= k < |before| ==> before[k] == lines[k];
    }
  }

  lemma {:induction false} RowsQuantityAppend(rows: seq<Row>, row: Row)
    ensures RowsQuantity(rows + [row]) == RowsQuantity(rows) + row.quantity
  {
    assert (rows + [row])[..|rows|] == rows;
  }

  method SumRows(rows: seq<Row>) returns (quantity: int, byKey: map<RowKey, Row>)
    ensures quantity == RowsQuantity(rows)
    ensures forall row :: row in rows ==> row.key in byKey
  {
    quantity, byKey := 0, map[];
    for i := 0 to |rows|
      invariant quantity == RowsQuantity(rows[..i])
      invariant forall row :: row in rows[..i] ==> row.key in byKey
    {
      assert rows[..i + 1] == rows[..i] + [rows[i]];
      RowsQuantityAppend(rows[..i], rows[i]);
      byKey := byKey[rows[i].key := rows[i]];
      quantity := quantity + rows[i].quantity;
    }
    assert rows[..|rows|] == rows;
  }

  method CheckEffective(lines: seq<Line>, byKey: map<RowKey, Row>) returns (silent: seq<Line>, quantity: int)
    ensures silent == Silent(lines, byKey) && quantity == LinesQuantity(lines)
  {
    silent, quantity := [], 0;
    for i := 0 to |lines|
      invariant silent == Silent(lines[..i], byKey) && quantity == LinesQuantity(lines[..i])
    {
      assert lines[..i + 1][..i] == lines[..i];
      if lines[i].quantity > 0 {
        quantity := quantity + lines[i].quantity;
        if KeyOf(lines[i]) !in byKey {
          silent := silent + [lines[i]];
        }
      }
    }
    assert lines[..|lines|] == lines;
  }

  lemma NextRepeated(before: seq<Line>, line: Line)
    ensures Repeated(before + [line]) == Repeated(before) + (if Marker(line) in Markers(before) then [Marker(line)] else [])
    ensures Markers(before + [line]) == Markers(before) + {Marker(line)}
  {
    var all := before + [line];
    assert all[..|before|] == before;
    assert forall l :: l in all <==> l in before || l == line;
  }

  method FindDuplicates(lines: seq<Line>) returns (duplicates: seq<(Kind, int)>)
    ensures duplicates == Repeated(lines)
  {
    duplicates := [];
    var seen := {};
    for i := 0 to |lines|
      invariant duplicates == Repeated(lines[..i]) && seen == Markers(lines[..i])
    {
      assert lines[..i + 1] == lines[..i] + [lines[i]];
      NextRepeated(lines[..i], lines[i]);
      if Marker(lines[i]) in seen {
        duplicates := duplicates + [Marker(lines[i])];
      }
      seen := seen + {Marker(lines[i])};
    }
    assert lines[..|lines|] == lines;
  }

  /**
   The reconciliation screen: lines without a row, lines read twice, and the totals before and after.
   It never finds a silent line or a difference of totals, and it finds a duplicate if and only if one
   document line was read twice.
   */
  method Reconcile(lines: seq<Line>)
    returns (silent: seq<Line>, duplicates: seq<(Kind, int)>, quantity: int, rowQuantity: int)
    ensures silent == []
    ensures quantity == rowQuantity == LinesQuantity(lines)
    ensures duplicates == Repeated(lines)
    ensures duplicates == [] <==> Identified(lines)
  {
    var rows := FoldLines(lines);
    var byKey;
    rowQuantity, byKey := SumRows(rows);
    QuantityIsConserved(lines);
    silent, quantity := CheckEffective(lines, byKey);
    EveryLineHasExactlyOneRow(lines);
    forall k | 0 <= k < |lines| ensures HasRow(lines[k], byKey) {
      assert lines[k] in lines;
    }
    NothingIsSilentIff(lines, byKey);
    duplicates := FindDuplicates(lines);
    NothingRepeatedIff(lines);
  }
}
