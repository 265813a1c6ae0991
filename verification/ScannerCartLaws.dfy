/** When a cart row can be set and what each lot gives to it, said of the stock alone. */
module ScannerCartLaws {
  import opened Basics
  import opened FifoSplit
  import opened ScannerCart

  // ---------------------------------------------------------------- the lots of a cell

  /** The lot is of the part, in the cell and on sale. */
  predicate IsOfCell(stock: Stock, key: Key, lot: nat)
    requires lot < |stock|
  {
    stock[lot].part == key.part && stock[lot].location == key.location && stock[lot].isAvailable
  }

  /** What the lot has beside what is reserved, if it is of the cell. */
  function Spare(stock: Stock, key: Key, lot: nat): nat
    requires lot < |stock|
  {
    if IsOfCell(stock, key, lot) && stock[lot].quantity > stock[lot].reserved then stock[lot].quantity - stock[lot].reserved else 0
  }

  /** What the first n lots of the stock have for the cell. */
  function SpareBefore(stock: Stock, key: Key, n: nat): nat
    requires n <= |stock|
  {
    if n == 0 then 0 else SpareBefore(stock, key, n - 1) + Spare(stock, key, n - 1)
  }

  /** What one lot gives to a row: all it has until the quantity is reached, nothing afterwards. */
  function Gives(stock: Stock, key: Key, quantity: int, lot: nat): nat
    requires lot < |stock|
  {
    var missing := quantity - SpareBefore(stock, key, lot);
    if missing <= 0 then 0 else if missing < Spare(stock, key, lot) then missing else Spare(stock, key, lot)
  }

  lemma {:induction false} LotsAreOfTheCell(stock: Stock, key: Key, n: nat, lot: nat)
    requires n <= |stock|
    ensures lot in LotsOf(stock, key, n) <==> lot < n && IsOfCell(stock, key, lot)
  {
    if n > 0 {
      LotsAreOfTheCell(stock, key, n - 1, lot);
    }
  }

  lemma OneMoreLot(stock: Stock, lots: seq<nat>, lot: nat)
    requires lot < |stock| && forall k :: 0 <= k < |lots| ==> lots[k] < |stock|
    ensures TotalUsable(FreeOf(stock, lots + [lot])) == TotalUsable(FreeOf(stock, lots)) + Usable(stock[lot].Free())
  {
    assert FreeOf(stock, lots + [lot])[..|lots|] == FreeOf(stock, lots);
  }

  lemma {:induction false} SpareIsUsable(stock: Stock, key: Key, n: nat)
    requires n <= |stock|
    ensures TotalUsable(FreeOf(stock, LotsOf(stock, key, n))) == SpareBefore(stock, key, n)
  {
    if n > 0 {
      SpareIsUsable(stock, key, n - 1);
      if IsOfCell(stock, key, n - 1) {
        OneMoreLot(stock, LotsOf(stock, key, n - 1), n - 1);
      } else {
        assert LotsOf(stock, key, n) == LotsOf(stock, key, n - 1);
      }
    }
  }

  lemma EnoughIff(stock: Stock, key: Key, quantity: int)
    ensures Enough(stock, key, quantity) <==> quantity <= SpareBefore(stock, key, |stock|)
  {
    SpareIsUsable(stock, key, |stock|);
  }

  // ---------------------------------------------------------------- when a row can be set

  /** The refusals in the order of the code: the document, oil, the quantity, the stock, the price of a sale. */
  lemma RowIsSetIff(kind: Kind, stock: Stock, draft: bool, lines: seq<Line>, item: Scanned, quantity: int)
    ensures var result, spare := SetRow(kind, stock, draft, lines, item, quantity), SpareBefore(stock, item.key, |stock|);
      && (result == Err(NotDraft) <==> !draft)
      && (result == Err(OilRefused) <==> draft && item.isOil)
      && (result == Err(BadQuantity) <==> draft && !item.isOil && quantity < 0)
      && (result == Err(NotEnoughStock) <==> draft && !item.isOil && quantity > 0 && spare < quantity)
      && (result == Err(PriceNotSet) <==> draft && !item.isOil && 0 < quantity <= spare && kind.Sale? && item.price.None?)
      && (result.Ok? <==>
            draft && !item.isOil && 0 <= quantity && (quantity > 0 ==> quantity <= spare && (kind.Sale? ==> item.price.Some?)))
  {
    EnoughIff(stock, item.key, quantity);
  }

  /** A scan adds to what the row holds, and is refused on a closed document and for no quantity. */
  lemma ScanIsAddedIff(kind: Kind, stock: Stock, draft: bool, lines: seq<Line>, item: Scanned, quantity: int)
    ensures var result, held := AddScan(kind, stock, draft, lines, item, quantity), QuantityAt(stock, lines, item.key);
      && (result == Err(NotDraft) <==> !draft)
      && (draft && quantity <= 0 ==> result == Err(BadQuantity))
      && (draft && quantity > 0 ==> result == SetRow(kind, stock, draft, lines, item, held + quantity))
  {
  }

  /** A row is removed from an open document: its lines go and no others. */
  lemma RowIsRemovedIff(stock: Stock, draft: bool, lines: seq<Line>, key: Key, other: Key)
    ensures RemoveRow(stock, draft, lines, key) == Err(NotDraft) <==> !draft
    ensures draft ==>
      && RemoveRow(stock, draft, lines, key).Ok?
      && LinesAt(stock, RemoveRow(stock, draft, lines, key).value, other) == (if other == key then [] else LinesAt(stock, lines, other))
      && ItemLines(RemoveRow(stock, draft, lines, key).value) == ItemLines(lines)
  {
    DropEmptiesRow(stock, lines, key);
    DropKeepsOthers(stock, lines, key, other);
  }

  // ---------------------------------------------------------------- what each lot gives

  lemma {:induction false} LotsBefore(stock: Stock, key: Key, n: nat, k: nat)
    requires n <= |stock| && k < |LotsOf(stock, key, n)|
    ensures LotsOf(stock, key, LotsOf(stock, key, n)[k]) == LotsOf(stock, key, n)[..k]
  {
    var before, after := LotsOf(stock, key, n - 1), LotsOf(stock, key, n);
    if k < |before| {
      LotsBefore(stock, key, n - 1, k);
      assert after[..k] == before[..k];
    } else {
      assert after[..k] == before;
    }
  }

  /** What the portions give to one lot of the list. */
  function Given(portions: seq<Portion>, k: nat): int {
    if portions == [] then 0
    else Given(portions[..|portions| - 1], k) + if portions[|portions| - 1].lot == k then portions[|portions| - 1].quantity else 0
  }

  lemma GivenWithShare(portions: seq<Portion>, lot: nat, share: nat, k: nat)
    ensures Given(portions + if share > 0 then [Portion(lot, share)] else [], k) == Given(portions, k) + if lot == k then share else 0
  {
    if share > 0 {
      assert (portions + [Portion(lot, share)])[..|portions|] == portions;
    } else {
      assert portions + [] == portions;
    }
  }

  lemma PortionsGive(available: seq<int>, quantity: int, n: nat, k: nat, before: seq<Portion>, share: nat)
    requires 0 < n <= |available| && before == Portions(available, quantity, n - 1) && share == Share(available, quantity, n - 1)
    ensures Given(Portions(available, quantity, n), k) == Given(before, k) + if n - 1 == k then share else 0
  {
    GivenWithShare(before, n - 1, share, k);
  }

  lemma {:induction false} GivenIsShare(available: seq<int>, quantity: int, n: nat, k: nat)
    requires n <= |available| && k < |available|
    ensures Given(Portions(available, quantity, n), k) == if k < n then Share(available, quantity, k) else 0
  {
    if n > 0 {
      GivenIsShare(available, quantity, n - 1, k);
      PortionsGive(available, quantity, n, k, Portions(available, quantity, n - 1), Share(available, quantity, n - 1));
    }
  }

  lemma {:induction false} OnLotIsGiven(lots: seq<nat>, part: PartId, portions: seq<Portion>, price: Option<int>, k: nat)
    requires forall i :: 0 <= i < |portions| ==> portions[i].lot < |lots|
    requires k < |lots| && forall i, j :: 0 <= i < j < |lots| ==> lots[i] < lots[j]
    ensures QuantityOnLot(LinesFor(lots, part, portions, price), lots[k]) == Given(portions, k)
  {
    if portions != [] {
      var before, last := portions[..|portions| - 1], portions[|portions| - 1];
      OnLotIsGiven(lots, part, before, price, k);
      var lines := LinesFor(lots, part, portions, price);
      assert lines[..|before|] == LinesFor(lots, part, before, price);
      assert last.lot < k ==> lots[last.lot] < lots[k];
      assert k < last.lot ==> lots[k] < lots[last.lot];
    }
  }

  lemma ShareIsGiven(stock: Stock, key: Key, quantity: int, k: nat)
    requires k < |LotsOf(stock, key, |stock|)|
    ensures Share(CellFree(stock, key), quantity, k) == Gives(stock, key, quantity, LotsOf(stock, key, |stock|)[k])
  {
    var lots, free := LotsOf(stock, key, |stock|), CellFree(stock, key);
    LotsBefore(stock, key, |stock|, k);
    SpareIsUsable(stock, key, lots[k]);
    assert free[..k] == FreeOf(stock, lots[..k]);
  }


  /** Over the whole stock: each lot gives to a row what it has, the oldest first, and lots of other parts or cells nothing. */
  lemma EachLotGives(stock: Stock, key: Key, quantity: int, price: Option<int>, lot: nat)
    requires lot < |stock|
    ensures QuantityOnLot(RowLines(stock, key, quantity, price), lot) == Gives(stock, key, quantity, lot)
  {
    var lots, free := LotsOf(stock, key, |stock|), CellFree(stock, key);
    var portions := Portions(free, quantity, |free|);
    LotsAreOfTheCell(stock, key, |stock|, lot);
    if lot in lots {
      var k :| 0 <= k < |lots| && lots[k] == lot;
      OnLotIsGiven(lots, key.part, portions, price, k);
      GivenIsShare(free, quantity, |free|, k);
      ShareIsGiven(stock, key, quantity, k);
    } else {
      var lines := RowLines(stock, key, quantity, price);
      forall i | 0 <= i < |lines| ensures lines[i].lot != Some(lot) {
        assert lines[i].lot == Some(lots[portions[i].lot]);
      }
      NoLineOnLot(lines, lot);
    }
  }

  /** A lot stands on at most one line of a row. */
  lemma OneLineForALot(stock: Stock, key: Key, quantity: int, price: Option<int>, i: nat, j: nat)
    requires i < j < |RowLines(stock, key, quantity, price)|
    ensures RowLines(stock, key, quantity, price)[i].lot != RowLines(stock, key, quantity, price)[j].lot
  {
    var lots, free := LotsOf(stock, key, |stock|), CellFree(stock, key);
    var portions := Portions(free, quantity, |free|);
    LotsInOrder(free, quantity, |free|, i, j);
    assert lots[portions[i].lot] < lots[portions[j].lot];
  }

  /** After any session from an empty cart, every lot gives to every row what is its share of the net quantity. */
  lemma LotsAfterSession(kind: Kind, stock: Stock, ops: seq<Op>, key: Key, lot: nat)
    requires lot < |stock|
    ensures QuantityOnLot(LinesAt(stock, Session(kind, stock, [], ops), key), lot)
         == Gives(stock, key, NetQuantity(NetSession(kind, stock, map[], ops), key), lot)
  {
    var net := NetSession(kind, stock, map[], ops);
    RowsAfterSession(kind, stock, ops, key);
    EachLotGives(stock, key, NetQuantity(net, key), if key in net then net[key].price else None, lot);
  }
}
