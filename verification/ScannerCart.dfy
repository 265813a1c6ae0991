/**
 The scanner cart: a draft document whose visible rows (a part in a cell) are rebuilt over the
 lots of the cell on every scan.

 The lots are listed oldest first, as the query orders them, and are named by their position.
 Quantities are thousandths, prices kopecks. Scanning never changes the stock.
 */
module ScannerCart {
  import opened Basics
  import opened FifoSplit

  type PartId = nat
  type LocationId = nat

  datatype Kind = Sale | Repair

  datatype Key = Key(part: PartId, location: LocationId)

  datatype Lot = Lot(part: PartId, location: LocationId, isAvailable: bool, quantity: int, reserved: int)
  {
    function Free(): int {
      quantity - reserved
    }
  }

  type Stock = seq<Lot>

  /** A document line; lines of single items carry no lot and never belong to a cart row. */
  datatype Line = Line(lot: Option<nat>, part: PartId, quantity: int, price: Option<int>)

  datatype CartError = NotDraft | OilRefused | BadQuantity | NotEnoughStock | PriceNotSet

  // ---------------------------------------------------------------- rows and lines

  predicate OnLot(stock: Stock, line: Line) {
    line.lot.Some? && line.lot.value < |stock|
  }

  function KeyOf(stock: Stock, line: Line): Key
    requires OnLot(stock, line)
  {
    Key(line.part, stock[line.lot.value].location)
  }

  predicate InRow(stock: Stock, line: Line, key: Key) {
    OnLot(stock, line) && KeyOf(stock, line) == key
  }

  /** Every line on a lot is for the part of that lot. */
  predicate LineFits(stock: Stock, line: Line) {
    line.lot.Some? ==> line.lot.value < |stock| && line.part == stock[line.lot.value].part
  }

  ghost predicate LinesFit(stock: Stock, lines: seq<Line>) {
    forall k :: 0 <= k < |lines| ==> LineFits(stock, lines[k])
  }

  function LinesAt(stock: Stock, lines: seq<Line>, key: Key): seq<Line> {
    if lines == [] then []
    else
      LinesAt(stock, lines[..|lines| - 1], key)
      + if InRow(stock, lines[|lines| - 1], key) then [lines[|lines| - 1]] else []
  }

  /** The lines that stay when a row is dropped. */
  function Drop(stock: Stock, lines: seq<Line>, key: Key): seq<Line> {
    if lines == [] then []
    else
      Drop(stock, lines[..|lines| - 1], key)
      + if InRow(stock, lines[|lines| - 1], key) then [] else [lines[|lines| - 1]]
  }

  function ItemLines(lines: seq<Line>): seq<Line> {
    if lines == [] then []
    else ItemLines(lines[..|lines| - 1]) + if lines[|lines| - 1].lot.None? then [lines[|lines| - 1]] else []
  }

  function Quantity(lines: seq<Line>): int {
    if lines == [] then 0 else Quantity(lines[..|lines| - 1]) + lines[|lines| - 1].quantity
  }

  function QuantityAt(stock: Stock, lines: seq<Line>, key: Key): int {
    Quantity(LinesAt(stock, lines, key))
  }

  function QuantityOnLot(lines: seq<Line>, lot: nat): int {
    if lines == [] then 0
    else QuantityOnLot(lines[..|lines| - 1], lot)
         + if lines[|lines| - 1].lot == Some(lot) then lines[|lines| - 1].quantity else 0
  }

  // ---------------------------------------------------------------- the lots of a cell

  /** Positions of the available lots of a part in a cell, oldest first. */
  function LotsOf(stock: Stock, key: Key, n: nat): (lots: seq<nat>)
    requires n <= |stock|
    ensures forall k :: 0 <= k < |lots| ==>
              lots[k] < n && stock[lots[k]].part == key.part && stock[lots[k]].location == key.location
              && stock[lots[k]].isAvailable
    ensures forall j, k :: 0 <= j < k < |lots| ==> lots[j] < lots[k]
  {
    if n == 0 then []
    else
      var lot := stock[n - 1];
      LotsOf(stock, key, n - 1)
      + if lot.part == key.part && lot.location == key.location && lot.isAvailable then [n - 1] else []
  }

  function FreeOf(stock: Stock, lots: seq<nat>): seq<int>
    requires forall k :: 0 <= k < |lots| ==> lots[k] < |stock|
  {
    seq(|lots|, k requires 0 <= k < |lots| => stock[lots[k]].Free())
  }

  function CellFree(stock: Stock, key: Key): seq<int> {
    FreeOf(stock, LotsOf(stock, key, |stock|))
  }

  predicate Enough(stock: Stock, key: Key, quantity: int) {
    quantity <= TotalUsable(CellFree(stock, key))
  }

  function LinesFor(lots: seq<nat>, part: PartId, portions: seq<Portion>, price: Option<int>): seq<Line>
    requires forall k :: 0 <= k < |portions| ==> portions[k].lot < |lots|
  {
    seq(|portions|, k requires 0 <= k < |portions| => Line(Some(lots[portions[k].lot]), part, portions[k].quantity, price))
  }

  /** The lines of a row that holds a quantity. */
  function RowLines(stock: Stock, key: Key, quantity: int, price: Option<int>): seq<Line> {
    var free := CellFree(stock, key);
    LinesFor(LotsOf(stock, key, |stock|), key.part, Portions(free, quantity, |free|), price)
  }

  // ---------------------------------------------------------------- the operations

  /** A part as the scan sees it: oil is refused, and `price` is the current price of its card. */
  datatype Scanned = Scanned(key: Key, isOil: bool, price: Option<int>)

  function SetRow(kind: Kind, stock: Stock, draft: bool, lines: seq<Line>, item: Scanned, quantity: int)
    : Result<seq<Line>, CartError>
  {
    if !draft then Err(NotDraft)
    else if item.isOil then Err(OilRefused)
    else if quantity < 0 then Err(BadQuantity)
    else if quantity == 0 then Ok(Drop(stock, lines, item.key))
    else if !Enough(stock, item.key, quantity) then Err(NotEnoughStock)
    else if kind.Sale? && item.price.None? then Err(PriceNotSet)
    else Ok(Drop(stock, lines, item.key) + RowLines(stock, item.key, quantity, item.price))
  }

  function AddScan(kind: Kind, stock: Stock, draft: bool, lines: seq<Line>, item: Scanned, quantity: int)
    : Result<seq<Line>, CartError>
  {
    if !draft then Err(NotDraft)
    else if quantity <= 0 then Err(BadQuantity)
    else SetRow(kind, stock, draft, lines, item, QuantityAt(stock, lines, item.key) + quantity)
  }

  function RemoveRow(stock: Stock, draft: bool, lines: seq<Line>, key: Key): Result<seq<Line>, CartError> {
    if !draft then Err(NotDraft) else Ok(Drop(stock, lines, key))
  }

  /** The document service's own check before it adds a line. */
  predicate LotCanTake(stock: Stock, lines: seq<Line>, lot: nat, quantity: int)
    requires lot < |stock|
  {
    quantity > 0 && stock[lot].isAvailable && quantity <= stock[lot].Free() - QuantityOnLot(lines, lot)
  }

  // ---------------------------------------------------------------- lines of other rows

  lemma {:induction false} DropEmptiesRow(stock: Stock, lines: seq<Line>, key: Key)
    ensures LinesAt(stock, Drop(stock, lines, key), key) == []
    ensures forall k :: 0 <= k < |Drop(stock, lines, key)| ==> !InRow(stock, Drop(stock, lines, key)[k], key)
  {
    if lines != [] {
      DropEmptiesRow(stock, lines[..|lines| - 1], key);
      var before := Drop(stock, lines[..|lines| - 1], key);
      if !InRow(stock, lines[|lines| - 1], key) {
        assert Drop(stock, lines, key)[..|before|] == before;
      } else {
        assert Drop(stock, lines, key) == before;
      }
    }
  }

  lemma {:induction false} LinesAtAppend(stock: Stock, a: seq<Line>, b: seq<Line>, key: Key)
    ensures LinesAt(stock, a + b, key) == LinesAt(stock, a, key) + LinesAt(stock, b, key)
  {
    if b == [] {
      assert a + b == a;
    } else {
      LinesAtAppend(stock, a, b[..|b| - 1], key);
      assert (a + b)[..|a + b| - 1] == a + b[..|b| - 1];
    }
  }

  lemma {:induction false} ItemLinesAppend(a: seq<Line>, b: seq<Line>)
    ensures ItemLines(a + b) == ItemLines(a) + ItemLines(b)
  {
    if b == [] {
      assert a + b == a;
    } else {
      ItemLinesAppend(a, b[..|b| - 1]);
      assert (a + b)[..|a + b| - 1] == a + b[..|b| - 1];
    }
  }

  lemma {:induction false} DropKeepsOthers(stock: Stock, lines: seq<Line>, key: Key, other: Key)
    ensures other != key ==> LinesAt(stock, Drop(stock, lines, key), other) == LinesAt(stock, lines, other)
    ensures ItemLines(Drop(stock, lines, key)) == ItemLines(lines)
  {
    if lines != [] {
      var last := lines[|lines| - 1];
      var before := Drop(stock, lines[..|lines| - 1], key);
      DropKeepsOthers(stock, lines[..|lines| - 1], key, other);
      if !InRow(stock, last, key) {
        LinesAtAppend(stock, before, [last], other);
        ItemLinesAppend(before, [last]);
        assert [last][..0] == [];
      } else {
        assert Drop(stock, lines, key) == before;
      }
    }
  }

  lemma {:induction false} DropKeepsFit(stock: Stock, lines: seq<Line>, key: Key)
    requires LinesFit(stock, lines)
    ensures LinesFit(stock, Drop(stock, lines, key))
  {
    if lines != [] {
      var shorter := lines[..|lines| - 1];
      assert forall k :: 0 <= k < |shorter| ==> LineFits(stock, lines[k]);
      DropKeepsFit(stock, shorter, key);
      assert LineFits(stock, lines[|lines| - 1]);
    }
  }

  /** New lines all belong to their row. */
  lemma {:induction false} AllInRow(stock: Stock, lines: seq<Line>, key: Key, other: Key)
    requires forall k :: 0 <= k < |lines| ==> InRow(stock, lines[k], key)
    ensures LinesAt(stock, lines, other) == if other == key then lines else []
    ensures ItemLines(lines) == []
  {
    if lines != [] {
      AllInRow(stock, lines[..|lines| - 1], key, other);
      assert lines == lines[..|lines| - 1] + [lines[|lines| - 1]];
    }
  }

  lemma RowLinesInRow(stock: Stock, key: Key, quantity: int, price: Option<int>)
    ensures forall k :: 0 <= k < |RowLines(stock, key, quantity, price)| ==>
              var line := RowLines(stock, key, quantity, price)[k];
              InRow(stock, line, key) && LineFits(stock, line) && line.quantity > 0 && line.price == price
  {
  }

  lemma {:induction false} LinesForTotal(lots: seq<nat>, part: PartId, portions: seq<Portion>, price: Option<int>)
    requires forall k :: 0 <= k < |portions| ==> portions[k].lot < |lots|
    ensures Quantity(LinesFor(lots, part, portions, price)) == SumPortions(portions)
  {
    if portions != [] {
      var shorter := portions[..|portions| - 1];
      LinesForTotal(lots, part, shorter, price);
      assert LinesFor(lots, part, portions, price)[..|shorter|] == LinesFor(lots, part, shorter, price);
    }
  }

  lemma RowLinesTotal(stock: Stock, key: Key, quantity: int, price: Option<int>)
    requires 0 <= quantity && Enough(stock, key, quantity)
    ensures Quantity(RowLines(stock, key, quantity, price)) == quantity
  {
    var free := CellFree(stock, key);
    LinesForTotal(LotsOf(stock, key, |stock|), key.part, Portions(free, quantity, |free|), price);
    PortionsTotal(free, quantity, |free|);
    assert free[..|free|] == free;
  }

  lemma {:induction false} NoLineOnLot(lines: seq<Line>, lot: nat)
    requires forall k :: 0 <= k < |lines| ==> lines[k].lot != Some(lot)
    ensures QuantityOnLot(lines, lot) == 0
  {
    if lines != [] {
      NoLineOnLot(lines[..|lines| - 1], lot);
    }
  }

  lemma RebuiltFits(stock: Stock, lines: seq<Line>, key: Key, quantity: int, price: Option<int>)
    requires LinesFit(stock, lines)
    ensures LinesFit(stock, Drop(stock, lines, key) + RowLines(stock, key, quantity, price))
  {
    DropKeepsFit(stock, lines, key);
    RowLinesInRow(stock, key, quantity, price);
  }

  /** When the lines of a row were dropped, its lots are used by nothing but the portions added so far. */
  lemma PortionLotIsUnused(stock: Stock, lines: seq<Line>, key: Key, quantity: int, price: Option<int>, i: nat, k: nat)
    requires LinesFit(stock, lines) && forall k :: 0 <= k < |lines| ==> !InRow(stock, lines[k], key)
    requires i < |RowLines(stock, key, quantity, price)| && k < |lines| + i
    ensures (lines + RowLines(stock, key, quantity, price)[..i])[k].lot != RowLines(stock, key, quantity, price)[i].lot
  {
    var added := RowLines(stock, key, quantity, price);
    RowLinesInRow(stock, key, quantity, price);
    if k < |lines| {
      assert LineFits(stock, lines[k]) && !InRow(stock, lines[k], key);
      assert InRow(stock, added[i], key) && LineFits(stock, added[i]);
    } else {
      var free, lots := CellFree(stock, key), LotsOf(stock, key, |stock|);
      var portions := Portions(free, quantity, |free|);
      LotsInOrder(free, quantity, |free|, k - |lines|, i);
      assert added[k - |lines|].lot == Some(lots[portions[k - |lines|].lot]);
    }
  }

  lemma PortionIsFree(stock: Stock, key: Key, quantity: int, price: Option<int>, i: nat)
    requires i < |RowLines(stock, key, quantity, price)|
    ensures var line := RowLines(stock, key, quantity, price)[i];
      line.lot.Some? && line.lot.value < |stock| && line.quantity <= stock[line.lot.value].Free()
  {
    var free, lots := CellFree(stock, key), LotsOf(stock, key, |stock|);
    var portions := Portions(free, quantity, |free|);
    PortionIsShare(free, quantity, |free|, i);
    assert free[portions[i].lot] == stock[lots[portions[i].lot]].Free();
  }

  lemma PortionIsTaken(stock: Stock, lines: seq<Line>, key: Key, quantity: int, price: Option<int>, i: nat)
    requires LinesFit(stock, lines) && forall k :: 0 <= k < |lines| ==> !InRow(stock, lines[k], key)
    requires i < |RowLines(stock, key, quantity, price)|
    ensures var added := RowLines(stock, key, quantity, price);
            && OnLot(stock, added[i]) && added[i].part == stock[added[i].lot.value].part
            && LotCanTake(stock, lines + added[..i], added[i].lot.value, added[i].quantity)
  {
    var added := RowLines(stock, key, quantity, price);
    RowLinesInRow(stock, key, quantity, price);
    assert LineFits(stock, added[i]);
    PortionIsFree(stock, key, quantity, price, i);
    forall k | 0 <= k < |lines + added[..i]| ensures (lines + added[..i])[k].lot != added[i].lot {
      PortionLotIsUnused(stock, lines, key, quantity, price, i, k);
    }
    NoLineOnLot(lines + added[..i], added[i].lot.value);
  }

  lemma LineOfPortion(stock: Stock, key: Key, quantity: int, price: Option<int>, i: nat)
    requires i < |RowLines(stock, key, quantity, price)|
    ensures var portion := Portions(CellFree(stock, key), quantity, |CellFree(stock, key)|)[i];
            RowLines(stock, key, quantity, price)[i]
            == Line(Some(LotsOf(stock, key, |stock|)[portion.lot]), key.part, portion.quantity, price)
  {
  }

  // ---------------------------------------------------------------- the draft document

  class Cart {
    const kind: Kind
    const stock: Stock
    var draft: bool
    var lines: seq<Line>

    ghost predicate Valid()
      reads this
    {
      LinesFit(stock, lines)
    }

    constructor (kind: Kind, stock: Stock)
      ensures Valid() && this.kind == kind && this.stock == stock && draft && lines == []
    {
      this.kind, this.stock := kind, stock;
      draft, lines := true, [];
    }

    /** add_stock_lot_to_sale / add_stock_lot_to_repair_order. */
    method AddLot(lot: nat, quantity: int, price: Option<int>) returns (added: bool)
      requires lot < |stock|
      modifies this`lines
      ensures added <==> LotCanTake(stock, old(lines), lot, quantity)
      ensures lines == if added then old(lines) + [Line(Some(lot), stock[lot].part, quantity, price)] else old(lines)
    {
      added := LotCanTake(stock, lines, lot, quantity);
      if added {
        lines := lines + [Line(Some(lot), stock[lot].part, quantity, price)];
      }
    }

    /** Adds the next line of a row; the service does not refuse it. */
    method AddPortion(ghost before: seq<Line>, ghost added: seq<Line>, ghost i: nat, lot: nat, quantity: int, price: Option<int>)
      requires i < |added| && lines == before + added[..i] && lot < |stock|
      requires added[i] == Line(Some(lot), stock[lot].part, quantity, price) && LotCanTake(stock, before + added[..i], lot, quantity)
      modifies this`lines
      ensures lines == before + added[..i + 1]
    {
      var ok := AddLot(lot, quantity, price);
      assert ok;
      assert added[..i + 1] == added[..i] + [added[i]];
    }

    /** Adds the portions of a row whose lines were dropped. */
    method AddPortions(key: Key, lots: seq<nat>, quantity: int, price: Option<int>)
      requires lots == LotsOf(stock, key, |stock|)
      requires forall k :: 0 <= k < |lines| ==> !InRow(stock, lines[k], key)
      requires Valid()
      modifies this`lines
      ensures lines == old(lines) + RowLines(stock, key, quantity, price)
    {
      var free := FreeOf(stock, lots);
      var portions := Portions(free, quantity, |free|);
      ghost var before, added := lines, RowLines(stock, key, quantity, price);
      var i := 0;
      while i < |portions|
        invariant 0 <= i <= |portions| == |added|
        invariant lines == before + added[..i]
      {
        var lot := lots[portions[i].lot];
        LineOfPortion(stock, key, quantity, price, i);
        PortionIsTaken(stock, before, key, quantity, price, i);
        AddPortion(before, added, i, lot, portions[i].quantity, price);
        i := i + 1;
      }
      assert added[..i] == added;
    }

    /** Rebuilds one row; whatever fails leaves the cart as it was. */
    method SetRowQuantity(item: Scanned, quantity: int) returns (failure: Option<CartError>)
      requires Valid()
      modifies this`lines
      ensures Valid()
      ensures match SetRow(kind, stock, draft, old(lines), item, quantity)
              case Ok(rebuilt) => failure.None? && lines == rebuilt
              case Err(e) => failure == Some(e) && lines == old(lines)
    {
      if !draft {
        return Some(NotDraft);
      }
      if item.isOil {
        return Some(OilRefused);
      }
      if quantity < 0 {
        return Some(BadQuantity);
      }
      var before := lines;
      lines := Drop(stock, lines, item.key);
      DropEmptiesRow(stock, before, item.key);
      DropKeepsFit(stock, before, item.key);
      if quantity == 0 {
        return None;
      }
      var lots := LotsOf(stock, item.key, |stock|);
      var split := SplitQuantityOverLots(FreeOf(stock, lots), quantity);
      if split.Err? {
        lines := before;
        return Some(NotEnoughStock);
      }
      if kind.Sale? && item.price.None? {
        lines := before;
        return Some(PriceNotSet);
      }
      AddPortions(item.key, lots, quantity, item.price);
      RebuiltFits(stock, before, item.key, quantity, item.price);
      failure := None;
    }

    method Scan(item: Scanned, quantity: int) returns (failure: Option<CartError>)
      requires Valid()
      modifies this`lines
      ensures Valid()
      ensures match AddScan(kind, stock, draft, old(lines), item, quantity)
              case Ok(rebuilt) => failure.None? && lines == rebuilt
              case Err(e) => failure == Some(e) && lines == old(lines)
    {
      if !draft {
        return Some(NotDraft);
      }
      if quantity <= 0 {
        return Some(BadQuantity);
      }
      var already := QuantityAt(stock, lines, item.key);
      failure := SetRowQuantity(item, already + quantity);
    }

    method Remove(key: Key) returns (failure: Option<CartError>)
      requires Valid()
      modifies this`lines
      ensures Valid()
      ensures match RemoveRow(stock, draft, old(lines), key)
              case Ok(rebuilt) => failure.None? && lines == rebuilt
              case Err(e) => failure == Some(e) && lines == old(lines)
    {
      if !draft {
        return Some(NotDraft);
      }
      DropKeepsFit(stock, lines, key);
      lines := Drop(stock, lines, key);
      failure := None;
    }
  }

  // ---------------------------------------------------------------- a session of scans

  datatype Op =
    | SetOp(item: Scanned, quantity: int)
    | ScanOp(item: Scanned, quantity: int)
    | RemoveOp(key: Key)

  function Attempt(kind: Kind, stock: Stock, lines: seq<Line>, op: Op): Result<seq<Line>, CartError> {
    match op
    case SetOp(item, quantity) => SetRow(kind, stock, true, lines, item, quantity)
    case ScanOp(item, quantity) => AddScan(kind, stock, true, lines, item, quantity)
    case RemoveOp(key) => RemoveRow(stock, true, lines, key)
  }

  function Perform(kind: Kind, stock: Stock, lines: seq<Line>, op: Op): seq<Line> {
    match Attempt(kind, stock, lines, op)
    case Ok(rebuilt) => rebuilt
    case Err(_) => lines
  }

  function Session(kind: Kind, stock: Stock, lines: seq<Line>, ops: seq<Op>): seq<Line>
    decreases |ops|
  {
    if ops == [] then lines else Session(kind, stock, Perform(kind, stock, lines, ops[0]), ops[1..])
  }

  /** The simple form: one quantity and one price a row. */
  datatype Held = Held(quantity: int, price: Option<int>)

  type Net = map<Key, Held>

  function NetQuantity(net: Net, key: Key): int {
    if key in net then net[key].quantity else 0
  }

  function NetSet(kind: Kind, stock: Stock, net: Net, item: Scanned, quantity: int): Net {
    if item.isOil || quantity < 0 || (quantity > 0 && (!Enough(stock, item.key, quantity) || (kind.Sale? && item.price.None?)))
    then net
    else if quantity == 0 then net - {item.key}
    else net[item.key := Held(quantity, item.price)]
  }

  function NetPerform(kind: Kind, stock: Stock, net: Net, op: Op): Net {
    match op
    case SetOp(item, quantity) => NetSet(kind, stock, net, item, quantity)
    case ScanOp(item, quantity) =>
      if quantity <= 0 then net else NetSet(kind, stock, net, item, NetQuantity(net, item.key) + quantity)
    case RemoveOp(key) => net - {key}
  }

  function NetSession(kind: Kind, stock: Stock, net: Net, ops: seq<Op>): Net
    decreases |ops|
  {
    if ops == [] then net else NetSession(kind, stock, NetPerform(kind, stock, net, ops[0]), ops[1..])
  }

  predicate RowRefines(stock: Stock, lines: seq<Line>, net: Net, key: Key) {
    if key in net
    then 0 < net[key].quantity && Enough(stock, key, net[key].quantity)
         && LinesAt(stock, lines, key) == RowLines(stock, key, net[key].quantity, net[key].price)
    else LinesAt(stock, lines, key) == []
  }

  /** Each row holds the oldest-first split of its net quantity. */
  ghost predicate Refines(stock: Stock, lines: seq<Line>, net: Net) {
    forall key :: RowRefines(stock, lines, net, key)
  }

  lemma RefinedQuantity(stock: Stock, lines: seq<Line>, net: Net, key: Key)
    requires Refines(stock, lines, net)
    ensures QuantityAt(stock, lines, key) == NetQuantity(net, key)
  {
    assert RowRefines(stock, lines, net, key);
    if key in net {
      RowLinesTotal(stock, key, net[key].quantity, net[key].price);
    }
  }

  lemma DroppedRefines(stock: Stock, lines: seq<Line>, net: Net, key: Key)
    requires Refines(stock, lines, net)
    ensures Refines(stock, Drop(stock, lines, key), net - {key})
    ensures ItemLines(Drop(stock, lines, key)) == ItemLines(lines)
  {
    DropEmptiesRow(stock, lines, key);
    forall other ensures RowRefines(stock, Drop(stock, lines, key), net - {key}, other) {
      assert RowRefines(stock, lines, net, other);
      DropKeepsOthers(stock, lines, key, other);
    }
    DropKeepsOthers(stock, lines, key, key);
  }

  lemma RebuiltRefines(stock: Stock, lines: seq<Line>, net: Net, key: Key, quantity: int, price: Option<int>)
    requires Refines(stock, lines, net) && 0 < quantity && Enough(stock, key, quantity)
    ensures var rebuilt := Drop(stock, lines, key) + RowLines(stock, key, quantity, price);
            Refines(stock, rebuilt, net[key := Held(quantity, price)]) && ItemLines(rebuilt) == ItemLines(lines)
  {
    var dropped, added := Drop(stock, lines, key), RowLines(stock, key, quantity, price);
    RowLinesInRow(stock, key, quantity, price);
    DroppedRefines(stock, lines, net, key);
    DropEmptiesRow(stock, lines, key);
    var after := net[key := Held(quantity, price)];
    forall other ensures RowRefines(stock, dropped + added, after, other) {
      assert RowRefines(stock, dropped, net - {key}, other);
      LinesAtAppend(stock, dropped, added, other);
      AllInRow(stock, added, key, other);
    }
    ItemLinesAppend(dropped, added);
    AllInRow(stock, added, key, key);
  }

  lemma SetRefines(kind: Kind, stock: Stock, lines: seq<Line>, net: Net, item: Scanned, quantity: int)
    requires Refines(stock, lines, net)
    ensures Refines(stock, Perform(kind, stock, lines, SetOp(item, quantity)), NetSet(kind, stock, net, item, quantity))
    ensures ItemLines(Perform(kind, stock, lines, SetOp(item, quantity))) == ItemLines(lines)
  {
    if quantity == 0 {
      DroppedRefines(stock, lines, net, item.key);
    } else if 0 < quantity && Enough(stock, item.key, quantity) {
      RebuiltRefines(stock, lines, net, item.key, quantity, item.price);
    }
  }

  lemma AddingIsSetting(kind: Kind, stock: Stock, lines: seq<Line>, item: Scanned, quantity: int)
    requires 0 < quantity
    ensures AddScan(kind, stock, true, lines, item, quantity)
         == SetRow(kind, stock, true, lines, item, QuantityAt(stock, lines, item.key) + quantity)
  {
  }

  lemma AttemptingAlike(kind: Kind, stock: Stock, lines: seq<Line>, a: Op, b: Op)
    requires Attempt(kind, stock, lines, a) == Attempt(kind, stock, lines, b)
    ensures Perform(kind, stock, lines, a) == Perform(kind, stock, lines, b)
  {
  }

  lemma NetScanIsSet(kind: Kind, stock: Stock, net: Net, item: Scanned, quantity: int)
    requires 0 < quantity
    ensures NetPerform(kind, stock, net, ScanOp(item, quantity)) == NetSet(kind, stock, net, item, NetQuantity(net, item.key) + quantity)
  {
  }

  lemma ScanRefines(kind: Kind, stock: Stock, lines: seq<Line>, net: Net, item: Scanned, quantity: int)
    requires Refines(stock, lines, net) && 0 < quantity
    ensures Refines(stock, Perform(kind, stock, lines, ScanOp(item, quantity)), NetPerform(kind, stock, net, ScanOp(item, quantity)))
    ensures ItemLines(Perform(kind, stock, lines, ScanOp(item, quantity))) == ItemLines(lines)
  {
    var total := NetQuantity(net, item.key) + quantity;
    RefinedQuantity(stock, lines, net, item.key);
    AddingIsSetting(kind, stock, lines, item, quantity);
    AttemptingAlike(kind, stock, lines, ScanOp(item, quantity), SetOp(item, total));
    NetScanIsSet(kind, stock, net, item, quantity);
    SetRefines(kind, stock, lines, net, item, total);
  }

  lemma PerformRefines(kind: Kind, stock: Stock, lines: seq<Line>, net: Net, op: Op)
    requires Refines(stock, lines, net)
    ensures Refines(stock, Perform(kind, stock, lines, op), NetPerform(kind, stock, net, op))
    ensures ItemLines(Perform(kind, stock, lines, op)) == ItemLines(lines)
  {
    match op
    case SetOp(item, quantity) =>
      SetRefines(kind, stock, lines, net, item, quantity);
    case ScanOp(item, quantity) =>
      if 0 < quantity {
        ScanRefines(kind, stock, lines, net, item, quantity);
      }
    case RemoveOp(key) =>
      DroppedRefines(stock, lines, net, key);
  }

  /**
   After any session of scans on unchanged stock, each row holds the oldest-first split of its net
   quantity, and the lines of single items are the ones that were there before.
   */
  lemma {:induction false} SessionRefines(kind: Kind, stock: Stock, lines: seq<Line>, net: Net, ops: seq<Op>)
    requires Refines(stock, lines, net)
    ensures Refines(stock, Session(kind, stock, lines, ops), NetSession(kind, stock, net, ops))
    ensures ItemLines(Session(kind, stock, lines, ops)) == ItemLines(lines)
    decreases |ops|
  {
    if ops != [] {
      PerformRefines(kind, stock, lines, net, ops[0]);
      SessionRefines(kind, stock, Perform(kind, stock, lines, ops[0]), NetPerform(kind, stock, net, ops[0]), ops[1..]);
    }
  }

  /** From an empty cart: the row of a key holds exactly its net quantity, split oldest first. */
  lemma RowsAfterSession(kind: Kind, stock: Stock, ops: seq<Op>, key: Key)
    ensures var lines := Session(kind, stock, [], ops);
            var net := NetSession(kind, stock, map[], ops);
            && QuantityAt(stock, lines, key) == NetQuantity(net, key)
            && Enough(stock, key, NetQuantity(net, key))
            && LinesAt(stock, lines, key) == RowLines(stock, key, NetQuantity(net, key), if key in net then net[key].price else None)
  {
    var net := NetSession(kind, stock, map[], ops);
    assert Refines(stock, [], map[]);
    SessionRefines(kind, stock, [], map[], ops);
    RefinedQuantity(stock, Session(kind, stock, [], ops), net, key);
    assert RowRefines(stock, Session(kind, stock, [], ops), net, key);
    if key !in net {
      NothingLeft(CellFree(stock, key), 0, 0, |CellFree(stock, key)|);
    }
  }
}
