/** The visible rows of a cart: the lot lines folded by part and cell, in order of first appearance. */
module CartRows {
  import opened Basics
  import opened ScannerCart

  /** The distinct known prices of a row, as far as the row shows them. */
  datatype Prices = NoPrice | OnePrice(price: int) | SeveralPrices

  datatype Group = Group(quantity: int, prices: Prices, total: int, hasUnknownPrice: bool)

  datatype CartRow = CartRow(key: Key, quantity: int, unitPrice: Option<int>, totalPrice: Option<int>)

  const NO_LINES := Group(0, NoPrice, 0, false)

  /** Amount of a line in kopecks, a half rounded away from zero; quantities are thousandths. */
  function Money(price: int, quantity: int): int {
    var product := price * quantity;
    if product >= 0 then (product + 500) / 1000 else -((-product + 500) / 1000)
  }

  /** A sale keeps the price of the scan, a repair shows the current price of the card. */
  function LinePrice(kind: Kind, current: map<PartId, int>, line: Line): Option<int> {
    if kind.Sale? then line.price
    else if line.part in current then Some(current[line.part])
    else None
  }

  function AddPrice(prices: Prices, price: int): Prices {
    match prices
    case NoPrice => OnePrice(price)
    case OnePrice(p) => if p == price then prices else SeveralPrices
    case SeveralPrices => SeveralPrices
  }

  function AddLine(group: Group, quantity: int, price: Option<int>): Group {
    match price
    case None => group.(quantity := group.quantity + quantity, hasUnknownPrice := true)
    case Some(p) => Group(group.quantity + quantity, AddPrice(group.prices, p), group.total + Money(p, quantity), group.hasUnknownPrice)
  }

  function ToRow(key: Key, group: Group): CartRow {
    CartRow(key, group.quantity,
            if group.prices.OnePrice? then Some(group.prices.price) else None,
            if group.hasUnknownPrice || group.prices.NoPrice? then None else Some(group.total))
  }

  // ---------------------------------------------------------------- the specification

  function GroupAt(kind: Kind, stock: Stock, current: map<PartId, int>, lines: seq<Line>, key: Key): Group {
    if lines == [] then NO_LINES else
      var last := lines[|lines| - 1];
      var before := GroupAt(kind, stock, current, lines[..|lines| - 1], key);
      if InRow(stock, last, key) then AddLine(before, last.quantity, LinePrice(kind, current, last)) else before
  }

  function FirstKeys(stock: Stock, lines: seq<Line>): seq<Key> {
    if lines == [] then [] else
      var last := lines[|lines| - 1];
      var before := FirstKeys(stock, lines[..|lines| - 1]);
      if OnLot(stock, last) && KeyOf(stock, last) !in before then before + [KeyOf(stock, last)] else before
  }

  function RowAt(kind: Kind, stock: Stock, current: map<PartId, int>, lines: seq<Line>, key: Key): CartRow {
    ToRow(key, GroupAt(kind, stock, current, lines, key))
  }

  function Rows(kind: Kind, stock: Stock, current: map<PartId, int>, lines: seq<Line>): (rows: seq<CartRow>)
    ensures |rows| == |FirstKeys(stock, lines)|
  {
    var keys := FirstKeys(stock, lines);
    seq(|keys|, i requires 0 <= i < |keys| => RowAt(kind, stock, current, lines, keys[i]))
  }

  // ---------------------------------------------------------------- the loop

  method CollectRows(kind: Kind, stock: Stock, current: map<PartId, int>, lines: seq<Line>) returns (rows: seq<CartRow>)
    ensures rows == Rows(kind, stock, current, lines)
  {
    var order: seq<Key> := [];
    var grouped: map<Key, Group> := map[];
    var i := 0;
    while i < |lines|
      invariant 0 <= i <= |lines|
      invariant order == FirstKeys(stock, lines[..i])
      invariant forall key :: key in grouped <==> key in order
      invariant forall key :: (if key in grouped then grouped[key] else NO_LINES) == GroupAt(kind, stock, current, lines[..i], key)
    {
      assert lines[..i + 1][..i] == lines[..i];
      var line := lines[i];
      if OnLot(stock, line) {
        var key := KeyOf(stock, line);
        if key !in grouped {
          order := order + [key];
          grouped := grouped[key := NO_LINES];
        }
        grouped := grouped[key := AddLine(grouped[key], line.quantity, LinePrice(kind, current, line))];
      }
      i := i + 1;
    }
    assert lines[..i] == lines;
    rows := [];
    i := 0;
    while i < |order|
      invariant 0 <= i <= |order|
      invariant rows == Rows(kind, stock, current, lines)[..i]
    {
      rows := rows + [ToRow(order[i], grouped[order[i]])];
      i := i + 1;
    }
  }

  // ---------------------------------------------------------------- what the rows are

  lemma {:induction false} KeysOnce(stock: Stock, lines: seq<Line>)
    ensures forall i, j :: 0 <= i < j < |FirstKeys(stock, lines)| ==> FirstKeys(stock, lines)[i] != FirstKeys(stock, lines)[j]
    ensures forall key :: key in FirstKeys(stock, lines) <==> LinesAt(stock, lines, key) != []
  {
    if lines != [] {
      KeysOnce(stock, lines[..|lines| - 1]);
    }
  }

  lemma {:induction false} GroupTotals(kind: Kind, stock: Stock, current: map<PartId, int>, lines: seq<Line>, key: Key)
    ensures GroupAt(kind, stock, current, lines, key).quantity == QuantityAt(stock, lines, key)
  {
    if lines != [] {
      var shorter := lines[..|lines| - 1];
      GroupTotals(kind, stock, current, shorter, key);
      var before := LinesAt(stock, shorter, key);
      if InRow(stock, lines[|lines| - 1], key) {
        assert LinesAt(stock, lines, key)[..|before|] == before;
      } else {
        assert LinesAt(stock, lines, key) == before;
      }
    }
  }

  /** One row a part and cell that has lines, and its quantity is that of those lines. */
  lemma OneRowForEachKey(kind: Kind, stock: Stock, current: map<PartId, int>, lines: seq<Line>, key: Key)
    ensures var rows := Rows(kind, stock, current, lines);
            && (forall i, j :: 0 <= i < j < |rows| ==> rows[i].key != rows[j].key)
            && (LinesAt(stock, lines, key) != [] <==> exists i :: 0 <= i < |rows| && rows[i].key == key)
            && (forall i :: 0 <= i < |rows| && rows[i].key == key ==> rows[i].quantity == QuantityAt(stock, lines, key))
  {
    KeysOnce(stock, lines);
    GroupTotals(kind, stock, current, lines, key);
    var rows, keys := Rows(kind, stock, current, lines), FirstKeys(stock, lines);
    if key in keys {
      var i :| 0 <= i < |keys| && keys[i] == key;
      assert rows[i].key == key;
    }
  }

  /** The unit price of a row is shown exactly when all its priced lines agree. */
  lemma {:induction false} UnitPriceIffAgreed(kind: Kind, stock: Stock, current: map<PartId, int>, lines: seq<Line>, key: Key, price: int)
    ensures RowAt(kind, stock, current, lines, key).unitPrice == Some(price) <==>
            (exists k :: 0 <= k < |lines| && InRow(stock, lines[k], key) && LinePrice(kind, current, lines[k]) == Some(price))
            && (forall k :: 0 <= k < |lines| && InRow(stock, lines[k], key) && LinePrice(kind, current, lines[k]).Some? ==>
                  LinePrice(kind, current, lines[k]) == Some(price))
    ensures GroupAt(kind, stock, current, lines, key).prices.NoPrice? <==>
            forall k :: 0 <= k < |lines| && InRow(stock, lines[k], key) ==> LinePrice(kind, current, lines[k]).None?
  {
    if lines != [] {
      var shorter := lines[..|lines| - 1];
      UnitPriceIffAgreed(kind, stock, current, shorter, key, price);
      assert forall k :: 0 <= k < |shorter| ==> shorter[k] == lines[k];
    }
  }

  /** A row of a repair shows the current price of its card, whatever its lines say. */
  lemma RepairShowsTheCardPrice(stock: Stock, current: map<PartId, int>, lines: seq<Line>, key: Key)
    requires exists k :: 0 <= k < |lines| && InRow(stock, lines[k], key)
    ensures RowAt(Repair, stock, current, lines, key).unitPrice == if key.part in current then Some(current[key.part]) else None
  {
    var shown := RowAt(Repair, stock, current, lines, key).unitPrice;
    if key.part in current {
      UnitPriceIffAgreed(Repair, stock, current, lines, key, current[key.part]);
    } else if shown.Some? {
      UnitPriceIffAgreed(Repair, stock, current, lines, key, shown.value);
    }
  }

  /** The amount of a line is the whole kopeck nearest to price times quantity, a half away from zero. */
  lemma MoneyIsNearest(price: int, quantity: int)
    ensures var off := price * quantity - 1000 * Money(price, quantity);
            if price * quantity >= 0 then -500 <= off < 500 else -500 < off <= 500
  {
  }

  /** The amounts of the priced lines of a row. */
  function AmountAt(kind: Kind, stock: Stock, current: map<PartId, int>, lines: seq<Line>, key: Key): int {
    if lines == [] then 0 else
      var last := lines[|lines| - 1];
      var price := LinePrice(kind, current, last);
      AmountAt(kind, stock, current, lines[..|lines| - 1], key)
      + if InRow(stock, last, key) && price.Some? then Money(price.value, last.quantity) else 0
  }

  /** A row has a total exactly when it has lines and each has a price, and then it is the sum of their amounts. */
  lemma {:induction false} TotalIffAllPriced(kind: Kind, stock: Stock, current: map<PartId, int>, lines: seq<Line>, key: Key, total: int)
    ensures RowAt(kind, stock, current, lines, key).totalPrice == Some(total) <==>
            (exists k :: 0 <= k < |lines| && InRow(stock, lines[k], key))
            && (forall k :: 0 <= k < |lines| && InRow(stock, lines[k], key) ==> LinePrice(kind, current, lines[k]).Some?)
            && total == AmountAt(kind, stock, current, lines, key)
    ensures GroupAt(kind, stock, current, lines, key).hasUnknownPrice <==>
            exists k :: 0 <= k < |lines| && InRow(stock, lines[k], key) && LinePrice(kind, current, lines[k]).None?
    ensures GroupAt(kind, stock, current, lines, key).total == AmountAt(kind, stock, current, lines, key)
  {
    UnitPriceIffAgreed(kind, stock, current, lines, key, 0);
    if lines != [] {
      var shorter := lines[..|lines| - 1];
      TotalIffAllPriced(kind, stock, current, shorter, key, total);
      assert forall k :: 0 <= k < |shorter| ==> shorter[k] == lines[k];
    }
  }

  function SumRows(rows: seq<CartRow>): int {
    if rows == [] then 0 else SumRows(rows[..|rows| - 1]) + rows[|rows| - 1].quantity
  }

  function LotQuantity(stock: Stock, lines: seq<Line>): int {
    if lines == [] then 0
    else LotQuantity(stock, lines[..|lines| - 1])
         + if OnLot(stock, lines[|lines| - 1]) then lines[|lines| - 1].quantity else 0
  }

  /** Sum of a quantity over some keys, in order. */
  function SumAt(stock: Stock, lines: seq<Line>, keys: seq<Key>): int {
    if keys == [] then 0
    else SumAt(stock, lines, keys[..|keys| - 1]) + QuantityAt(stock, lines, keys[|keys| - 1])
  }

  lemma SumAtNext(stock: Stock, lines: seq<Line>, keys: seq<Key>, n: nat)
    requires n < |keys|
    ensures SumAt(stock, lines, keys[..n + 1]) == SumAt(stock, lines, keys[..n]) + QuantityAt(stock, lines, keys[n])
  {
    assert keys[..n + 1][..n] == keys[..n];
  }

  lemma {:induction false} SumRowsIsSumAt(stock: Stock, lines: seq<Line>, keys: seq<Key>, rows: seq<CartRow>)
    requires |rows| == |keys| && forall i :: 0 <= i < |keys| ==> rows[i].quantity == QuantityAt(stock, lines, keys[i])
    ensures SumRows(rows) == SumAt(stock, lines, keys)
  {
    if keys != [] {
      SumRowsIsSumAt(stock, lines, keys[..|keys| - 1], rows[..|keys| - 1]);
    }
  }

  lemma QuantityWithLast(stock: Stock, lines: seq<Line>, key: Key)
    requires lines != []
    ensures var last := lines[|lines| - 1];
            QuantityAt(stock, lines, key)
            == QuantityAt(stock, lines[..|lines| - 1], key) + if InRow(stock, last, key) then last.quantity else 0
  {
    var before := LinesAt(stock, lines[..|lines| - 1], key);
    if InRow(stock, lines[|lines| - 1], key) {
      assert LinesAt(stock, lines, key)[..|before|] == before;
    } else {
      assert LinesAt(stock, lines, key) == before;
    }
  }

  /** What one line adds to a sum over some keys. */
  function Share(stock: Stock, line: Line, keys: seq<Key>): int {
    if OnLot(stock, line) && KeyOf(stock, line) in keys then line.quantity else 0
  }

  lemma ShareWithLast(stock: Stock, line: Line, keys: seq<Key>)
    requires keys != [] && keys[|keys| - 1] !in keys[..|keys| - 1]
    ensures Share(stock, line, keys)
         == Share(stock, line, keys[..|keys| - 1]) + if InRow(stock, line, keys[|keys| - 1]) then line.quantity else 0
  {
    assert keys == keys[..|keys| - 1] + [keys[|keys| - 1]];
  }

  lemma {:induction false} SumAtWithLast(stock: Stock, lines: seq<Line>, keys: seq<Key>)
    requires lines != [] && forall i, j :: 0 <= i < j < |keys| ==> keys[i] != keys[j]
    ensures SumAt(stock, lines, keys)
         == SumAt(stock, lines[..|lines| - 1], keys) + Share(stock, lines[|lines| - 1], keys)
  {
    if keys != [] {
      SumAtWithLast(stock, lines, keys[..|keys| - 1]);
      QuantityWithLast(stock, lines, keys[|keys| - 1]);
      ShareWithLast(stock, lines[|lines| - 1], keys);
    }
  }

  /** A key that the last line brings in was nobody's before. */
  lemma NewKeyAddsNothing(stock: Stock, lines: seq<Line>)
    requires lines != []
    ensures var shorter := lines[..|lines| - 1];
            SumAt(stock, shorter, FirstKeys(stock, lines)) == SumAt(stock, shorter, FirstKeys(stock, shorter))
  {
    var shorter, last := lines[..|lines| - 1], lines[|lines| - 1];
    var before, keys := FirstKeys(stock, shorter), FirstKeys(stock, lines);
    if OnLot(stock, last) && KeyOf(stock, last) !in before {
      KeysOnce(stock, shorter);
      assert LinesAt(stock, shorter, KeyOf(stock, last)) == [];
      assert keys[..|before|] == before && keys[..|keys|] == keys;
      SumAtNext(stock, shorter, keys, |before|);
    }
  }

  lemma {:induction false} SumOverFirstKeys(stock: Stock, lines: seq<Line>)
    ensures SumAt(stock, lines, FirstKeys(stock, lines)) == LotQuantity(stock, lines)
  {
    if lines != [] {
      SumOverFirstKeys(stock, lines[..|lines| - 1]);
      KeysOnce(stock, lines);
      SumAtWithLast(stock, lines, FirstKeys(stock, lines));
      NewKeyAddsNothing(stock, lines);
    }
  }

  /** The rows together hold the quantity of all lot lines. */
  lemma RowsConserveQuantity(kind: Kind, stock: Stock, current: map<PartId, int>, lines: seq<Line>)
    ensures SumRows(Rows(kind, stock, current, lines)) == LotQuantity(stock, lines)
  {
    var keys, rows := FirstKeys(stock, lines), Rows(kind, stock, current, lines);
    forall i | 0 <= i < |keys| ensures rows[i].quantity == QuantityAt(stock, lines, keys[i]) {
      GroupTotals(kind, stock, current, lines, keys[i]);
    }
    SumRowsIsSumAt(stock, lines, keys, rows);
    SumOverFirstKeys(stock, lines);
  }
}
