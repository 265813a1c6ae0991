/** When the stock lets a cart be posted, lot by lot, and what it keeps back. */
module CartPostingLaws {
  import opened Basics
  import opened ScannerCart
  import opened CartRows
  import opened CustomsVersions
  import opened CartCompletion
  import opened CartCompletionRuns

  predicate Names(lines: seq<Line>, lot: nat) {
    exists k | 0 <= k < |lines| :: lines[k].lot == Some(lot)
  }

  /** The lot is on sale and holds, beside what is reserved, all that the lines ask of it together. */
  predicate CanGive(stock: Stock, lines: seq<Line>, lot: nat)
    requires lot < |stock|
  {
    stock[lot].isAvailable && QuantityOnLot(lines, lot) <= stock[lot].quantity - stock[lot].reserved
  }

  ghost predicate EachLotCanGive(stock: Stock, lines: seq<Line>) {
    forall lot: nat | lot < |stock| && Names(lines, lot) :: CanGive(stock, lines, lot)
  }

  predicate AllPositive(lines: seq<Line>) {
    forall k | 0 <= k < |lines| && lines[k].lot.Some? :: lines[k].quantity > 0
  }

  lemma NamesWithLast(lines: seq<Line>, lot: nat)
    requires lines != []
    ensures Names(lines, lot) <==> Names(lines[..|lines| - 1], lot) || lines[|lines| - 1].lot == Some(lot)
  {
    assert lines == lines[..|lines| - 1] + [lines[|lines| - 1]];
  }

  lemma {:induction false} NothingOnOthers(lines: seq<Line>, lot: nat)
    requires !Names(lines, lot)
    ensures QuantityOnLot(lines, lot) == 0
  {
    if lines != [] {
      NamesWithLast(lines, lot);
      NothingOnOthers(lines[..|lines| - 1], lot);
    }
  }

  /** The lots can give all the lines if they can give all but the last, and the lot of the last can give what is then asked. */
  lemma CanGiveWithLast(stock: Stock, lines: seq<Line>)
    requires lines != [] && AllPositive(lines)
    ensures var last := lines[|lines| - 1];
            EachLotCanGive(stock, lines) <==>
              EachLotCanGive(stock, lines[..|lines| - 1]) && (OnLot(stock, last) ==> CanGive(stock, lines, last.lot.value))
  {
    var before, last := lines[..|lines| - 1], lines[|lines| - 1];
    forall lot: nat | lot < |stock|
      ensures Names(lines, lot) <==> Names(before, lot) || last.lot == Some(lot)
      ensures QuantityOnLot(before, lot) <= QuantityOnLot(lines, lot)
      ensures last.lot != Some(lot) ==> QuantityOnLot(before, lot) == QuantityOnLot(lines, lot)
    {
      NamesWithLast(lines, lot);
    }
  }

  /** Whatever the order of the lines, they are issued if and only if each lot can give what is asked of it. */
  lemma {:induction false} IssuedIff(stock: Stock, lines: seq<Line>)
    requires AllPositive(lines)
    ensures Issue(stock, lines).Some? <==> EachLotCanGive(stock, lines)
  {
    if lines != [] {
      var before, last := lines[..|lines| - 1], lines[|lines| - 1];
      IssuedIff(stock, before);
      CanGiveWithLast(stock, lines);
      if OnLot(stock, last) && Issue(stock, before).Some? {
        IssueTakes(stock, before, last.lot.value);
      }
    }
  }

  lemma {:induction false} RepricedNames(kind: Kind, prices: map<PartId, int>, lines: seq<Line>)
    ensures AllPositive(Repriced(kind, prices, lines)) <==> AllPositive(lines)
    ensures forall lot: nat :: Names(Repriced(kind, prices, lines), lot) <==> Names(lines, lot)
  {
    var repriced := Repriced(kind, prices, lines);
    assert forall k :: 0 <= k < |lines| ==> repriced[k].lot == lines[k].lot && repriced[k].quantity == lines[k].quantity;
  }

  lemma RepricedCanGive(stock: Stock, kind: Kind, prices: map<PartId, int>, lines: seq<Line>)
    ensures EachLotCanGive(stock, Repriced(kind, prices, lines)) <==> EachLotCanGive(stock, lines)
  {
    RepricedNames(kind, prices, lines);
    forall lot: nat | lot < |stock| ensures QuantityOnLot(Repriced(kind, prices, lines), lot) == QuantityOnLot(lines, lot) {
      RepricedOnLot(kind, prices, lines, lot);
    }
  }

  lemma {:induction false} IssueLeavesTheReserved(stock: Stock, lines: seq<Line>, lot: nat)
    requires Issue(stock, lines).Some? && lot < |stock| && Names(lines, lot)
    ensures Issue(stock, lines).value[lot].quantity >= stock[lot].reserved
  {
    var before, last := lines[..|lines| - 1], lines[|lines| - 1];
    NamesWithLast(lines, lot);
    IssueTakes(stock, before, lot);
    if last.lot != Some(lot) {
      IssueLeavesTheReserved(stock, before, lot);
    }
  }

  /** No posting takes from a lot what is reserved there, or more than there is. */
  lemma PostingLeavesTheReserved(shop: Shop, id: DocId, request: Request, lot: nat)
    requires id in shop.documents && CompleteCart(shop, id, request).1.Posted?
    requires lot < |shop.stock| && Names(shop.documents[id].lines, lot)
    ensures var after := CompleteCart(shop, id, request).0;
            && |after.stock| == |shop.stock| && shop.stock[lot].isAvailable
            && after.stock[lot].quantity >= after.stock[lot].reserved == shop.stock[lot].reserved
  {
    var lines := Repriced(id.kind, shop.prices, shop.documents[id].lines);
    RepricedNames(id.kind, shop.prices, shop.documents[id].lines);
    IssueTakes(shop.stock, lines, lot);
    IssueLeavesTheReserved(shop.stock, lines, lot);
  }

  // ---------------------------------------------------------------- what else refuses a cart

  predicate IsUsed(journal: seq<Action>, token: string) {
    token != "" && exists k | 0 <= k < |journal| :: journal[k].token == Some(token)
  }

  /** The call is for the document itself: its token is in order and no earlier call has used it. */
  predicate IsNewCall(shop: Shop, request: Request) {
    |request.token| <= 64 && !IsUsed(shop.journal, request.token)
  }

  predicate SomethingOnLots(stock: Stock, lines: seq<Line>) {
    exists k | 0 <= k < |lines| :: OnLot(stock, lines[k])
  }

  /** An open cart with a customer and something in it. */
  predicate IsReady(shop: Shop, id: DocId, request: Request)
    requires id in shop.documents
  {
    var document := shop.documents[id];
    && document.status.Draft? && (request.hasCustomer || document.hasCustomer)
    && SomethingOnLots(shop.stock, document.lines)
  }

  /** Both weights and an approved area of a part are known, as typed now or else as its card has them. */
  predicate IsKnown(shop: Shop, pending: map<PartId, Pending>, part: PartId) {
    var gross := if part in pending && pending[part].gross.Set? then pending[part].gross.value
                 else if part in shop.parts && shop.parts[part].card.Some? then shop.parts[part].card.value.gross else None;
    var net := if part in pending && pending[part].net.Set? then pending[part].net.value
               else if part in shop.parts && shop.parts[part].card.Some? then shop.parts[part].card.value.net else None;
    var area := if part in pending && pending[part].area.Set? then pending[part].area.value
                else if part in shop.parts && shop.parts[part].card.Some? then shop.parts[part].card.value.area else "";
    && gross.Some? && net.Some? && gross.value >= net.value
    && (area == SNOWMOBILE || area == ATV || area == WATERCRAFT || area == OUTBOARD_MOTOR || area == BOAT_CRAFT)
  }

  predicate LotLinesKnown(shop: Shop, lines: seq<Line>, pending: map<PartId, Pending>) {
    forall k | 0 <= k < |lines| && OnLot(shop.stock, lines[k]) ::
      IsKnown(shop, pending, lines[k].part)
  }

  predicate StandsOnALot(stock: Stock, lines: seq<Line>, part: PartId) {
    exists k | 0 <= k < |lines| :: OnLot(stock, lines[k]) && lines[k].part == part
  }

  /** A part without a lot has nothing typed for it; its card alone counts. */
  predicate OtherLinesKnown(shop: Shop, lines: seq<Line>) {
    forall k | 0 <= k < |lines| && !StandsOnALot(shop.stock, lines, lines[k].part) ::
      IsKnown(shop, map[], lines[k].part)
  }

  /** The priced lines of the part and cell of this one all have this price, and there is such a line. */
  ghost predicate AgreedPrice(shop: Shop, lines: seq<Line>, k: nat, price: int)
    requires k < |lines| && OnLot(shop.stock, lines[k])
  {
    && (exists m :: 0 <= m < |lines| && InRow(shop.stock, lines[m], KeyOf(shop.stock, lines[k])) && lines[m].price == Some(price))
    && (forall m :: 0 <= m < |lines| && InRow(shop.stock, lines[m], KeyOf(shop.stock, lines[k])) && lines[m].price.Some? ==>
          lines[m].price == Some(price))
  }

  /** There is such a price, and zero is the price of its card. */
  ghost predicate SoldAtAPrice(shop: Shop, lines: seq<Line>, k: nat)
    requires k < |lines| && OnLot(shop.stock, lines[k])
  {
    exists price :: AgreedPrice(shop, lines, k, price) && (price == 0 ==> lines[k].part in shop.prices && shop.prices[lines[k].part] == 0)
  }

  ghost predicate Priced(shop: Shop, id: DocId, lines: seq<Line>) {
    id.kind.Sale? ==> forall k: nat :: k < |lines| && OnLot(shop.stock, lines[k]) ==> SoldAtAPrice(shop, lines, k)
  }

  lemma {:induction false} KeysAreOfLines(stock: Stock, lines: seq<Line>, key: Key)
    ensures key in FirstKeys(stock, lines) <==> exists k :: 0 <= k < |lines| && InRow(stock, lines[k], key)
  {
    if lines != [] {
      var before := lines[..|lines| - 1];
      KeysAreOfLines(stock, before, key);
      assert forall k :: 0 <= k < |before| ==> before[k] == lines[k];
    }
  }

  lemma KeyOfLine(stock: Stock, lines: seq<Line>, rows: seq<CartRow>, i: nat) returns (k: nat)
    requires |rows| == |FirstKeys(stock, lines)| && i < |rows| && rows[i].key == FirstKeys(stock, lines)[i]
    ensures k < |lines| && InRow(stock, lines[k], rows[i].key)
  {
    KeysAreOfLines(stock, lines, rows[i].key);
    k :| k < |lines| && InRow(stock, lines[k], rows[i].key);
  }

  lemma RowOfLine(stock: Stock, lines: seq<Line>, rows: seq<CartRow>, k: nat) returns (i: nat)
    requires |rows| == |FirstKeys(stock, lines)| && forall i :: 0 <= i < |rows| ==> rows[i].key == FirstKeys(stock, lines)[i]
    requires k < |lines| && OnLot(stock, lines[k])
    ensures i < |rows| && rows[i].key == KeyOf(stock, lines[k])
  {
    KeysAreOfLines(stock, lines, KeyOf(stock, lines[k]));
    assert InRow(stock, lines[k], KeyOf(stock, lines[k]));
    i :| i < |rows| && FirstKeys(stock, lines)[i] == KeyOf(stock, lines[k]);
  }

  lemma KnownIff(shop: Shop, pending: map<PartId, Pending>, part: PartId)
    ensures Complete(Effective(PartOf(shop.parts, part), PendingOf(pending, part))) <==> IsKnown(shop, pending, part)
  {
  }

  lemma RememberedIsKnown(p: PartRecord, typed: Pending, now: int)
    ensures Complete(Read(Remember(p, typed, now))) <==> Complete(Effective(p, typed))
  {
  }

  lemma RowsKnownIff(shop: Shop, lines: seq<Line>, rows: seq<CartRow>, pending: map<PartId, Pending>)
    requires |rows| == |FirstKeys(shop.stock, lines)|
    requires forall i :: 0 <= i < |rows| ==> rows[i].key == FirstKeys(shop.stock, lines)[i]
    ensures RowsComplete(shop.parts, rows, pending) <==> LotLinesKnown(shop, lines, pending)
  {
    if RowsComplete(shop.parts, rows, pending) {
      forall k | 0 <= k < |lines| && OnLot(shop.stock, lines[k])
        ensures IsKnown(shop, pending, lines[k].part)
      {
        var i := RowOfLine(shop.stock, lines, rows, k);
        KnownIff(shop, pending, rows[i].key.part);
      }
    }
    if LotLinesKnown(shop, lines, pending) {
      forall i: nat | i < |rows|
        ensures Complete(Effective(PartOf(shop.parts, rows[i].key.part), PendingOf(pending, rows[i].key.part)))
      {
        var k := KeyOfLine(shop.stock, lines, rows, i);
        KnownIff(shop, pending, lines[k].part);
      }
    }
  }

  lemma AgreedIff(shop: Shop, lines: seq<Line>, k: nat, price: int)
    requires k < |lines| && OnLot(shop.stock, lines[k])
    ensures RowAt(Sale, shop.stock, shop.prices, lines, KeyOf(shop.stock, lines[k])).unitPrice == Some(price)
       <==> AgreedPrice(shop, lines, k, price)
  {
    UnitPriceIffAgreed(Sale, shop.stock, shop.prices, lines, KeyOf(shop.stock, lines[k]), price);
    assert forall m :: 0 <= m < |lines| ==> LinePrice(Sale, shop.prices, lines[m]) == lines[m].price;
  }

  lemma SoldAtAPriceIff(shop: Shop, lines: seq<Line>, k: nat)
    requires k < |lines| && OnLot(shop.stock, lines[k])
    ensures SalePriceHolds(shop.prices, RowAt(Sale, shop.stock, shop.prices, lines, KeyOf(shop.stock, lines[k])))
       <==> SoldAtAPrice(shop, lines, k)
  {
    var shown := RowAt(Sale, shop.stock, shop.prices, lines, KeyOf(shop.stock, lines[k])).unitPrice;
    if shown.Some? {
      AgreedIff(shop, lines, k, shown.value);
    }
    forall price | AgreedPrice(shop, lines, k, price) ensures shown == Some(price) {
      AgreedIff(shop, lines, k, price);
    }
  }

  lemma PricesHoldIff(shop: Shop, id: DocId, lines: seq<Line>)
    ensures PricesHold(id.kind, shop.prices, Rows(id.kind, shop.stock, shop.prices, lines)) <==> Priced(shop, id, lines)
  {
    var rows := Rows(id.kind, shop.stock, shop.prices, lines);
    if id.kind.Sale? {
      if PricesHold(id.kind, shop.prices, rows) {
        forall k: nat | k < |lines| && OnLot(shop.stock, lines[k]) ensures SoldAtAPrice(shop, lines, k) {
          var i := RowOfLine(shop.stock, lines, rows, k);
          SoldAtAPriceIff(shop, lines, k);
        }
      }
      if Priced(shop, id, lines) {
        forall i: nat | i < |rows| ensures SalePriceHolds(shop.prices, rows[i]) {
          var k := KeyOfLine(shop.stock, lines, rows, i);
          SoldAtAPriceIff(shop, lines, k);
        }
      }
    }
  }

  lemma CardsReadyIff(shop: Shop, lines: seq<Line>, repriced: seq<Line>, rows: seq<CartRow>, pending: map<PartId, Pending>, now: int)
    requires |rows| == |FirstKeys(shop.stock, lines)|
    requires forall i :: 0 <= i < |rows| ==> rows[i].key == FirstKeys(shop.stock, lines)[i]
    requires |repriced| == |lines| && forall k :: 0 <= k < |lines| ==> repriced[k].part == lines[k].part
    requires LotLinesKnown(shop, lines, pending)
    ensures CardsReady(RememberRows(shop.parts, rows, |rows|, pending, now), repriced) <==> OtherLinesKnown(shop, lines)
  {
    var parts := RememberRows(shop.parts, rows, |rows|, pending, now);
    forall k | 0 <= k < |lines|
      ensures StandsOnALot(shop.stock, lines, lines[k].part) ==> Complete(Read(PartOf(parts, lines[k].part)))
      ensures !StandsOnALot(shop.stock, lines, lines[k].part) ==>
        (Complete(Read(PartOf(parts, lines[k].part))) <==> IsKnown(shop, map[], lines[k].part))
    {
      CardOfLine(shop, lines, rows, pending, now, lines[k].part);
    }
    assert forall k :: 0 <= k < |lines| ==> repriced[k].part == lines[k].part;
  }

  lemma CardOfLine(shop: Shop, lines: seq<Line>, rows: seq<CartRow>, pending: map<PartId, Pending>, now: int, part: PartId)
    requires |rows| == |FirstKeys(shop.stock, lines)|
    requires forall i :: 0 <= i < |rows| ==> rows[i].key == FirstKeys(shop.stock, lines)[i]
    requires LotLinesKnown(shop, lines, pending)
    ensures var card := PartOf(RememberRows(shop.parts, rows, |rows|, pending, now), part);
      Complete(Read(card)) <==> StandsOnALot(shop.stock, lines, part) || IsKnown(shop, map[], part)
  {
    RememberedRow(shop.parts, rows, |rows|, pending, now, part);
    if StandsOnALot(shop.stock, lines, part) {
      var k: nat :| k < |lines| && OnLot(shop.stock, lines[k]) && lines[k].part == part;
      var i := RowOfLine(shop.stock, lines, rows, k);
      RememberedIsKnown(PartOf(shop.parts, part), PendingOf(pending, part), now);
      KnownIff(shop, pending, part);
    } else {
      forall i: nat | i < |rows| ensures rows[i].key.part != part {
        var k := KeyOfLine(shop.stock, lines, rows, i);
      }
      KnownIff(shop, map[], part);
    }
  }

  // ---------------------------------------------------------------- the outcome of a call

  /** Everything the lines need but stock: customs data and, for a sale, prices. */
  ghost predicate IsInOrder(shop: Shop, id: DocId, request: Request)
    requires id in shop.documents
  {
    var lines := shop.documents[id].lines;
    LotLinesKnown(shop, lines, request.pending) && Priced(shop, id, lines) && OtherLinesKnown(shop, lines)
  }

  lemma SomethingIff(stock: Stock, lines: seq<Line>)
    ensures FirstKeys(stock, lines) == [] <==> !SomethingOnLots(stock, lines)
  {
    if FirstKeys(stock, lines) != [] {
      KeysAreOfLines(stock, lines, FirstKeys(stock, lines)[0]);
    }
    if k :| 0 <= k < |lines| && OnLot(stock, lines[k]) {
      KeysAreOfLines(stock, lines, KeyOf(stock, lines[k]));
    }
  }

  lemma EarlyRefusal(shop: Shop, id: DocId, request: Request)
    requires id in shop.documents
    ensures var refusal, document := RefuseEarly(shop, id, request), shop.documents[id];
      && (refusal == Some(AlreadyCompleted) <==> !document.status.Draft?)
      && (refusal == Some(NoCustomer) <==> document.status.Draft? && !request.hasCustomer && !document.hasCustomer)
      && (refusal == Some(EmptyCart) <==>
            document.status.Draft? && (request.hasCustomer || document.hasCustomer) && !SomethingOnLots(shop.stock, document.lines))
      && (refusal == Some(MetadataMissing) <==> IsReady(shop, id, request) && !LotLinesKnown(shop, document.lines, request.pending))
      && (refusal == None <==> IsReady(shop, id, request) && LotLinesKnown(shop, document.lines, request.pending))
  {
    var lines := shop.documents[id].lines;
    SomethingIff(shop.stock, lines);
    RowsKnownIff(shop, lines, Rows(id.kind, shop.stock, shop.prices, lines), request.pending);
  }

  lemma LateRefusal(shop: Shop, id: DocId, request: Request)
    requires id in shop.documents && LotLinesKnown(shop, shop.documents[id].lines, request.pending)
    requires AllPositive(shop.documents[id].lines)
    ensures var posted, lines := PostDraft(shop, id, request), shop.documents[id].lines;
      && (posted == Err(PriceMissing) <==> !Priced(shop, id, lines))
      && (posted == Err(MetadataMissing) <==> Priced(shop, id, lines) && !OtherLinesKnown(shop, lines))
      && (posted == Err(StockShort) <==> IsInOrder(shop, id, request) && !EachLotCanGive(shop.stock, lines))
      && (posted.Ok? <==> IsInOrder(shop, id, request) && EachLotCanGive(shop.stock, lines))
  {
    var lines := shop.documents[id].lines;
    var rows, repriced := Rows(id.kind, shop.stock, shop.prices, lines), Repriced(id.kind, shop.prices, lines);
    RepricedRows(shop.stock, shop.prices, lines, id.kind);
    PricesHoldIff(shop, id, lines);
    CardsReadyIff(shop, lines, repriced, rows, request.pending, request.now);
    RepricedNames(id.kind, shop.prices, lines);
    RepricedCanGive(shop.stock, id.kind, shop.prices, lines);
    IssuedIff(shop.stock, repriced);
  }

  lemma UsedIff(journal: seq<Action>, token: string)
    ensures Replay(journal, token).Some? <==> IsUsed(journal, token)
  {
  }

  /** A call is looked at in this order: its token, whether it was used, the document, its customer, its lines. */
  lemma CallIsTurnedAwayIff(shop: Shop, id: DocId, request: Request)
    requires id in shop.documents
    ensures var outcome, document := CompleteCart(shop, id, request).1, shop.documents[id];
      && (outcome == Failed(BadToken) <==> |request.token| > 64)
      && (outcome.Replayed? <==> |request.token| <= 64 && IsUsed(shop.journal, request.token))
      && (outcome == Failed(AlreadyCompleted) <==> IsNewCall(shop, request) && !document.status.Draft?)
      && (outcome == Failed(NoCustomer) <==>
            IsNewCall(shop, request) && document.status.Draft? && !request.hasCustomer && !document.hasCustomer)
      && (outcome == Failed(EmptyCart) <==>
            && IsNewCall(shop, request) && document.status.Draft? && (request.hasCustomer || document.hasCustomer)
            && !SomethingOnLots(shop.stock, document.lines))
  {
    UsedIff(shop.journal, request.token);
    EarlyRefusal(shop, id, request);
  }

  /** A new call on an open cart with a customer and something in it posts it or says why not: data, prices, stock. */
  lemma ReadyCartIsPostedIff(shop: Shop, id: DocId, request: Request)
    requires id in shop.documents && AllPositive(shop.documents[id].lines)
    requires IsNewCall(shop, request) && IsReady(shop, id, request)
    ensures var outcome, lines := CompleteCart(shop, id, request).1, shop.documents[id].lines;
      && (outcome.Posted? <==> IsInOrder(shop, id, request) && EachLotCanGive(shop.stock, lines))
      && (outcome == Failed(StockShort) <==> IsInOrder(shop, id, request) && !EachLotCanGive(shop.stock, lines))
      && (outcome == Failed(PriceMissing) <==> LotLinesKnown(shop, lines, request.pending) && !Priced(shop, id, lines))
      && (outcome == Failed(MetadataMissing) <==>
            || !LotLinesKnown(shop, lines, request.pending)
            || (Priced(shop, id, lines) && !OtherLinesKnown(shop, lines)))
  {
    UsedIff(shop.journal, request.token);
    EarlyRefusal(shop, id, request);
    if LotLinesKnown(shop, shop.documents[id].lines, request.pending) {
      LateRefusal(shop, id, request);
    }
  }

  /** The line as a posting keeps it: a sale at the price of the scan, a repair at the current price of the card. */
  function KeptLine(kind: Kind, prices: map<PartId, int>, line: Line): Line {
    if kind.Sale? then line
    else Line(line.lot, line.part, line.quantity, if line.part in prices then Some(prices[line.part]) else None)
  }

  /** A posting closes its document with a customer and the lines as sold, and touches no other document and no price. */
  lemma PostingClosesTheDocument(shop: Shop, id: DocId, request: Request)
    requires id in shop.documents && CompleteCart(shop, id, request).1.Posted?
    ensures var after, lines := CompleteCart(shop, id, request).0, shop.documents[id].lines;
      && after.documents.Keys == shop.documents.Keys && after.prices == shop.prices
      && after.documents[id].hasCustomer && after.documents[id].status.Completed? && |after.documents[id].lines| == |lines|
      && (forall k :: 0 <= k < |lines| ==> after.documents[id].lines[k] == KeptLine(id.kind, shop.prices, lines[k]))
      && (forall other :: other in shop.documents && other != id ==> after.documents[other] == shop.documents[other])
  {
  }

  /** A call that posts nothing writes nothing. */
  lemma UnpostedCallWritesNothing(shop: Shop, id: DocId, request: Request)
    requires id in shop.documents && !CompleteCart(shop, id, request).1.Posted?
    ensures CompleteCart(shop, id, request).0 == shop
  {
  }
}
