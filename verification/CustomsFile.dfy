/** What stands in the customs export, said of the document tables alone. */
module CustomsFile {
  import opened Basics
  import opened Ordering
  import opened CustomsRows
  import opened CustomsRowsLaws
  import opened CustomsExport
  import CustomsVersions

  // ---------------------------------------------------------------- what is exported, from the tables

  /** What a line issued and its returns did not bring back. */
  function Remaining(line: DocumentLine, returned: map<int, int>): int {
    if line.id in returned then Max(line.issued - returned[line.id], 0) else Max(line.issued, 0)
  }

  function RemainingOf(lines: seq<DocumentLine>, returned: map<int, int>): int {
    if lines == [] then 0
    else RemainingOf(lines[..|lines| - 1], returned) + Remaining(lines[|lines| - 1], returned)
  }

  lemma {:induction false} LinesOfTwoParts(a: seq<Line>, b: seq<Line>)
    ensures LinesQuantity(a + b) == LinesQuantity(a) + LinesQuantity(b)
  {
    if b == [] {
      assert a + b == a;
    } else {
      LinesOfTwoParts(a, b[..|b| - 1]);
      assert (a + b)[..|a + b| - 1] == a + b[..|b| - 1];
    }
  }

  lemma {:induction false} LinesHoldWhatRemains(lines: seq<Line>, tables: seq<DocumentLine>, returned: map<int, int>)
    requires |lines| == |tables| && forall i :: 0 <= i < |lines| ==> lines[i].quantity == Remaining(tables[i], returned)
    ensures LinesQuantity(lines) == RemainingOf(tables, returned)
  {
    if lines != [] {
      LinesHoldWhatRemains(lines[..|lines| - 1], tables[..|lines| - 1], returned);
    }
  }

  lemma DocumentsHoldWhatRemains(d: Documents)
    ensures LinesQuantity(DocumentLines(d)) == RemainingOf(d.sales, d.saleReturns) + RemainingOf(d.repairs, d.repairReturns)
  {
    LinesOfTwoParts(SaleLines(d), RepairLines(d));
    LinesHoldWhatRemains(SaleLines(d), d.sales, d.saleReturns);
    LinesHoldWhatRemains(RepairLines(d), d.repairs, d.repairReturns);
  }

  /** The export holds what every sale and repair line issued less its returns, and a thousand for each order. */
  lemma ExportHoldsWhatRemains(s: Source, c: Catalogues)
    requires Numbered(s)
    ensures ExportQuantity(Export(s, c))
      == RemainingOf(s.documents.sales, s.documents.saleReturns) + RemainingOf(s.documents.repairs, s.documents.repairReturns)
         + (if s.narrowed then 0 else 1000 * |s.orders|)
  {
    ExportConservesQuantity(s, c);
    DocumentsHoldWhatRemains(s.documents);
  }

  // ---------------------------------------------------------------- row by row

  /** The number of the newest version begun by the moment, or of the first of all. */
  function NumberInForce(versions: map<int, seq<CustomsVersions.Version>>, part: int, at: Option<nat>): Option<nat> {
    if part in versions && versions[part] != [] then Some(CustomsVersions.VersionAt(versions[part], at).value.number) else None
  }

  function KeyOfTable(line: DocumentLine, d: Documents): RowKey {
    RowKey(line.part, NumberInForce(d.versions, line.part, line.at), line.number)
  }

  /** The line has something left and belongs under the key. */
  predicate Supplies(line: DocumentLine, returned: map<int, int>, d: Documents, key: RowKey) {
    Remaining(line, returned) > 0 && KeyOfTable(line, d) == key
  }

  /** What the lines of one table leave under a key. */
  function LeftUnder(lines: seq<DocumentLine>, returned: map<int, int>, d: Documents, key: RowKey): int {
    if lines == [] then 0
    else
      var last := lines[|lines| - 1];
      LeftUnder(lines[..|lines| - 1], returned, d, key) + (if KeyOfTable(last, d) == key then Remaining(last, returned) else 0)
  }

  function PlaceInTime(line: DocumentLine, rank: int): Key {
    Key(if line.at.Some? then line.at.value else 0, rank, line.id)
  }

  predicate IsCanonicalOf(line: Line, kind: Kind, table: DocumentLine, returned: map<int, int>, d: Documents) {
    line == Line(kind, table.id, table.at, table.part, NumberInForce(d.versions, table.part, table.at), table.number, Remaining(table, returned))
  }

  lemma SaleLineIs(d: Documents, i: nat)
    requires i < |d.sales|
    ensures IsCanonicalOf(DocumentLines(d)[i], Sale, d.sales[i], d.saleReturns, d)
  {
  }

  lemma RepairLineIs(d: Documents, i: nat)
    requires i < |d.repairs|
    ensures IsCanonicalOf(DocumentLines(d)[|d.sales| + i], Repair, d.repairs[i], d.repairReturns, d)
  {
  }

  lemma {:induction false} TotalIsLeftUnder(
    lines: seq<Line>, tables: seq<DocumentLine>, kind: Kind, returned: map<int, int>, d: Documents, key: RowKey)
    requires |lines| == |tables| && forall i :: 0 <= i < |lines| ==> IsCanonicalOf(lines[i], kind, tables[i], returned, d)
    ensures Total(lines, key) == LeftUnder(tables, returned, d, key)
  {
    if lines != [] {
      TotalIsLeftUnder(lines[..|lines| - 1], tables[..|lines| - 1], kind, returned, d, key);
      assert IsCanonicalOf(lines[|lines| - 1], kind, tables[|lines| - 1], returned, d);
    }
  }

  lemma TotalOfDocuments(d: Documents, key: RowKey)
    ensures Total(DocumentLines(d), key) == LeftUnder(d.sales, d.saleReturns, d, key) + LeftUnder(d.repairs, d.repairReturns, d, key)
  {
    forall i: nat | i < |d.sales| ensures IsCanonicalOf(SaleLines(d)[i], Sale, d.sales[i], d.saleReturns, d) {
      SaleLineIs(d, i);
    }
    forall i: nat | i < |d.repairs| ensures IsCanonicalOf(RepairLines(d)[i], Repair, d.repairs[i], d.repairReturns, d) {
      RepairLineIs(d, i);
    }
    TotalOfTwoParts(SaleLines(d), RepairLines(d), key);
    TotalIsLeftUnder(SaleLines(d), d.sales, Sale, d.saleReturns, d, key);
    TotalIsLeftUnder(RepairLines(d), d.repairs, Repair, d.repairReturns, d, key);
  }

  predicate SomethingIsLeft(d: Documents, key: RowKey) {
    || (exists i | 0 <= i < |d.sales| :: Supplies(d.sales[i], d.saleReturns, d, key))
    || (exists i | 0 <= i < |d.repairs| :: Supplies(d.repairs[i], d.repairReturns, d, key))
  }

  lemma MentionedIffLeft(d: Documents, key: RowKey)
    ensures Mentioned(DocumentLines(d), key) <==> SomethingIsLeft(d, key)
  {
    var lines := DocumentLines(d);
    forall i: nat | i < |d.sales| ensures Feeds(lines[i], key) <==> Supplies(d.sales[i], d.saleReturns, d, key) {
      SaleLineIs(d, i);
    }
    forall i: nat | i < |d.repairs| ensures Feeds(lines[|d.sales| + i], key) <==> Supplies(d.repairs[i], d.repairReturns, d, key) {
      RepairLineIs(d, i);
    }
    if Mentioned(lines, key) {
      var k :| 0 <= k < |lines| && Feeds(lines[k], key);
      assert k >= |d.sales| ==> lines[k] == lines[|d.sales| + (k - |d.sales|)];
    }
    if j :| 0 <= j < |d.repairs| && Supplies(d.repairs[j], d.repairReturns, d, key) {
      assert Feeds(lines[|d.sales| + j], key);
    }
  }

  /** The documents give a key a row if and only if some line under it has something left, and the row holds all that is left. */
  lemma RowHoldsWhatIsLeft(s: Source, key: RowKey)
    requires Numbered(s)
    ensures var d, rows := s.documents, Folded(CanonicalLines(s.documents));
      && ((exists row :: row in rows && row.key == key) <==> SomethingIsLeft(d, key))
      && (forall row :: row in rows && row.key == key ==>
            row.quantity == LeftUnder(d.sales, d.saleReturns, d, key) + LeftUnder(d.repairs, d.repairReturns, d, key))
  {
    var lines := DocumentLines(s.documents);
    RowsOfTheHistory(s);
    MentionedIffLeft(s.documents, key);
    TotalOfDocuments(s.documents, key);
    FoldedRows(lines, RowOf(lines, key));
    forall row | row in Folded(lines) && row.key == key ensures row.quantity == Total(lines, key) && Mentioned(lines, key) {
      FoldedRows(lines, row);
    }
  }

  /** A row stands no later than any line it holds: by moment, then repairs before sales, then by number of the line. */
  lemma RowStandsAtItsFirstLine(s: Source, row: Row, i: nat)
    requires Numbered(s) && row in Folded(CanonicalLines(s.documents))
    ensures var d := s.documents;
      && (i < |d.sales| && Supplies(d.sales[i], d.saleReturns, d, row.key) ==> !Before(PlaceInTime(d.sales[i], 2), row.first))
      && (i < |d.repairs| && Supplies(d.repairs[i], d.repairReturns, d, row.key) ==> !Before(PlaceInTime(d.repairs[i], 1), row.first))
  {
    var d, lines := s.documents, DocumentLines(s.documents);
    RowsOfTheHistory(s);
    RowCarriesItsEarliestMoment(lines, row);
    if i < |d.sales| {
      SaleLineIs(d, i);
      assert Moment(lines[i]) == PlaceInTime(d.sales[i], 2);
    }
    if i < |d.repairs| {
      RepairLineIs(d, i);
      assert Moment(lines[|d.sales| + i]) == PlaceInTime(d.repairs[i], 1);
    }
  }

  predicate StandsAt(lines: seq<DocumentLine>, returned: map<int, int>, d: Documents, row: Row, rank: int, i: nat) {
    i < |lines| && Supplies(lines[i], returned, d, row.key) && row.first == PlaceInTime(lines[i], rank)
  }

  lemma LineItStandsAt(d: Documents, row: Row, k: nat)
    requires k < |DocumentLines(d)| && Feeds(DocumentLines(d)[k], row.key) && Moment(DocumentLines(d)[k]) == row.first
    ensures if k < |d.sales| then StandsAt(d.sales, d.saleReturns, d, row, 2, k)
            else StandsAt(d.repairs, d.repairReturns, d, row, 1, k - |d.sales|)
  {
    if k < |d.sales| {
      SaleLineIs(d, k);
    } else {
      RepairLineIs(d, k - |d.sales|);
    }
  }

  /** And it stands at one of them. */
  lemma RowStandsAtALine(s: Source, row: Row)
    requires Numbered(s) && row in Folded(CanonicalLines(s.documents))
    ensures var d := s.documents;
      || (exists i: nat :: StandsAt(d.sales, d.saleReturns, d, row, 2, i))
      || (exists i: nat :: StandsAt(d.repairs, d.repairReturns, d, row, 1, i))
  {
    var lines := DocumentLines(s.documents);
    RowsOfTheHistory(s);
    RowCarriesItsEarliestMoment(lines, row);
    var k :| 0 <= k < |lines| && Feeds(lines[k], row.key) && Moment(lines[k]) == row.first;
    LineItStandsAt(s.documents, row, k);
  }

  // ---------------------------------------------------------------- orders

  predicate OrderedUnder(order: Order, versions: map<int, seq<CustomsVersions.Version>>, key: RowKey) {
    key == RowKey(order.part, NumberInForce(versions, order.part, Some(order.at)), order.number)
  }

  function OrdersUnder(orders: seq<Order>, versions: map<int, seq<CustomsVersions.Version>>, key: RowKey): nat {
    if orders == [] then 0
    else OrdersUnder(orders[..|orders| - 1], versions, key) + if OrderedUnder(orders[|orders| - 1], versions, key) then 1 else 0
  }

  lemma OrderFeeds(orders: seq<Order>, versions: map<int, seq<CustomsVersions.Version>>, i: nat, key: RowKey)
    requires i < |orders|
    ensures Feeds(OrderLines(orders, versions)[i], key) <==> OrderedUnder(orders[i], versions, key)
    ensures Contribution(OrderLines(orders, versions)[i], key) == if OrderedUnder(orders[i], versions, key) then 1000 else 0
    ensures Moment(OrderLines(orders, versions)[i]) == Key(orders[i].at, 0, orders[i].id)
  {
  }

  lemma {:induction false} OrdersAddUp(orders: seq<Order>, versions: map<int, seq<CustomsVersions.Version>>, key: RowKey)
    ensures Total(OrderLines(orders, versions), key) == 1000 * OrdersUnder(orders, versions, key)
    ensures Mentioned(OrderLines(orders, versions), key) <==> OrdersUnder(orders, versions, key) > 0
  {
    if orders != [] {
      var lines, before := OrderLines(orders, versions), OrderLines(orders[..|orders| - 1], versions);
      OrdersAddUp(orders[..|orders| - 1], versions, key);
      OrderFeeds(orders, versions, |orders| - 1, key);
      assert lines == before + [lines[|orders| - 1]];
      MentionedWithLast(lines, key);
    }
  }

  lemma MentionedWithLast(lines: seq<Line>, key: RowKey)
    requires lines != []
    ensures Mentioned(lines, key) <==> Mentioned(lines[..|lines| - 1], key) || Feeds(lines[|lines| - 1], key)
  {
    var before := lines[..|lines| - 1];
    if Mentioned(before, key) {
      var k :| 0 <= k < |before| && Feeds(before[k], key);
      assert Feeds(lines[k], key);
    }
    if Mentioned(lines, key) {
      var k :| 0 <= k < |lines| && Feeds(lines[k], key);
      assert k < |before| ==> Feeds(before[k], key);
    }
  }

  /** Orders give a key a row if and only if there is one under it and no filter leaves them out: a thousand for each. */
  lemma RowHoldsItsOrders(s: Source, key: RowKey)
    ensures var rows, n := OrderedRows(s), OrdersUnder(s.orders, s.documents.versions, key);
      && ((exists row :: row in rows && row.key == key) <==> !s.narrowed && n > 0)
      && (forall row :: row in rows && row.key == key ==> row.quantity == 1000 * n)
  {
    if !s.narrowed {
      var lines := OrderLines(s.orders, s.documents.versions);
      OrdersAddUp(s.orders, s.documents.versions, key);
      FoldedRows(lines, RowOf(lines, key));
      forall row | row in Folded(lines) && row.key == key ensures row.quantity == Total(lines, key) && Mentioned(lines, key) {
        FoldedRows(lines, row);
      }
    }
  }

  lemma OrderRowStandsAtItsFirst(s: Source, row: Row, i: nat)
    requires row in OrderedRows(s) && i < |s.orders| && OrderedUnder(s.orders[i], s.documents.versions, row.key)
    ensures !Before(Key(s.orders[i].at, 0, s.orders[i].id), row.first)
  {
    RowCarriesItsEarliestMoment(OrderLines(s.orders, s.documents.versions), row);
    OrderFeeds(s.orders, s.documents.versions, i, row.key);
  }

  // ---------------------------------------------------------------- the manufacturers of the original group

  function LetterOf(c: char): string {
    if IsSpace(c) || c == '-' then "" else [Upper(c)]
  }

  /** The letters of a name, from the front, without spaces and hyphens and in Latin capitals. */
  function Letters(name: string): string {
    if name == "" then "" else LetterOf(name[0]) + Letters(name[1..])
  }

  lemma {:induction false} LettersWithLast(name: string, c: char)
    ensures Letters(name + [c]) == Letters(name) + LetterOf(c)
  {
    var longer := name + [c];
    if name == "" {
      assert longer[1..] == "";
    } else {
      assert longer[1..] == name[1..] + [c];
      LettersWithLast(name[1..], c);
      assert LetterOf(name[0]) + (Letters(name[1..]) + LetterOf(c)) == LetterOf(name[0]) + Letters(name[1..]) + LetterOf(c);
    }
  }

  lemma {:induction false} LettersAreNormalised(name: string)
    ensures Normalised(name) == Letters(name)
  {
    if name != "" {
      LettersAreNormalised(name[..|name| - 1]);
      LettersWithLast(name[..|name| - 1], name[|name| - 1]);
      assert name[..|name| - 1] + [name[|name| - 1]] == name;
    }
  }

  /** A row goes to the original group if and only if its part was imported and its manufacturer reads BRP or PROX. */
  lemma OriginalGroupIff(s: Source, c: Catalogues, g: GroupedRow)
    ensures g in OfGroup("original", Export(s, c)) <==>
      && g in Export(s, c) && g.row.key.part in c.imported
      && (Letters(c.manufacturer(g.row.key)) == "BRP" || Letters(c.manufacturer(g.row.key)) == "PROX")
  {
    GroupsPartitionTheExport(s, c, g);
    LettersAreNormalised(c.manufacturer(g.row.key));
  }
}
