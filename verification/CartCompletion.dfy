/**
 Completing a scanner cart: one transaction that remembers customs data, issues the stock and
 writes the journal, guarded by the row lock of the document and by a request token.

 The sale and repair services are taken at their contract: they check and take each lot line in
 order. `receipt` is bookkeeping of the model: the journal actions written with a document.
 */
module CartCompletion {
  import opened Basics
  import opened ScannerCart
  import opened CartRows
  import opened CustomsVersions

  const MAX_TOKEN: int := 64

  datatype DocId = DocId(kind: Kind, pk: nat)

  datatype DocStatus = Draft | Completed | Voided

  datatype Document = Document(
    status: DocStatus, lines: seq<Line>, hasCustomer: bool, completedAt: Option<int>, receipt: seq<Action>)

  datatype ActionType = SaleAction | RepairAction | ReserveAction | RepairReturnAction

  datatype Action = Action(
    kind: ActionType, token: Option<string>, document: Option<DocId>, key: Key, quantity: int, unitPrice: int)

  datatype Shop = Shop(
    documents: map<DocId, Document>, journal: seq<Action>, parts: map<PartId, PartRecord>,
    prices: map<PartId, int>, stock: Stock, clock: int)

  /** One call: the trimmed token, whether a customer was chosen, the typed customs fields and two clock readings. */
  datatype Request = Request(token: string, hasCustomer: bool, pending: map<PartId, Pending>, now: int, doneAt: int)

  datatype CompletionError =
    | BadToken | AlreadyCompleted | NoCustomer | EmptyCart | MetadataMissing | PriceMissing | StockShort

  datatype Outcome = Posted(actions: seq<Action>) | Replayed(earlier: seq<Action>) | Failed(error: CompletionError)

  const NO_FACTS := Facts("", false, "", "", "", None, "")

  function PartOf(parts: map<PartId, PartRecord>, part: PartId): PartRecord {
    if part in parts then parts[part] else PartRecord(None, [], NO_FACTS)
  }

  function PendingOf(pending: map<PartId, Pending>, part: PartId): Pending {
    if part in pending then pending[part] else NOTHING_TYPED
  }

  // ---------------------------------------------------------------- the request token

  function FindToken(journal: seq<Action>, token: string, start: nat := 0): (r: Option<nat>)
    requires start <= |journal|
    ensures r.Some? ==> start <= r.value < |journal| && journal[r.value].token == Some(token)
    ensures r.None? ==> forall k :: start <= k < |journal| ==> journal[k].token != Some(token)
    decreases |journal| - start
  {
    if start == |journal| then None
    else if journal[start].token == Some(token) then Some(start)
    else FindToken(journal, token, start + 1)
  }

  function ActionsOf(journal: seq<Action>, id: DocId): seq<Action> {
    if journal == [] then []
    else ActionsOf(journal[..|journal| - 1], id)
         + if journal[|journal| - 1].document == Some(id) then [journal[|journal| - 1]] else []
  }

  /** The actions an earlier request with this token wrote, if there was one. */
  function Replay(journal: seq<Action>, token: string): Option<seq<Action>> {
    if token == "" then None else
      match FindToken(journal, token)
      case None => None
      case Some(k) =>
        if journal[k].document.Some? then Some(ActionsOf(journal, journal[k].document.value)) else Some([journal[k]])
  }

  // ---------------------------------------------------------------- the steps of a completion

  predicate RowsComplete(parts: map<PartId, PartRecord>, rows: seq<CartRow>, pending: map<PartId, Pending>) {
    forall i | 0 <= i < |rows| ::
      Complete(Effective(PartOf(parts, rows[i].key.part), PendingOf(pending, rows[i].key.part)))
  }

  predicate SeenEarlier(rows: seq<CartRow>, n: nat)
    requires n < |rows|
  {
    exists i | 0 <= i < n :: rows[i].key.part == rows[n].key.part
  }

  /** Each part of the first n rows once, in order. */
  function RememberRows(parts: map<PartId, PartRecord>, rows: seq<CartRow>, n: nat, pending: map<PartId, Pending>, now: int)
    : map<PartId, PartRecord>
    requires n <= |rows|
  {
    if n == 0 then parts else
      var before := RememberRows(parts, rows, n - 1, pending, now);
      var part := rows[n - 1].key.part;
      if SeenEarlier(rows, n - 1) then before
      else before[part := Remember(PartOf(before, part), PendingOf(pending, part), now)]
  }

  /** Every line of an open repair takes the current price of its card before it is issued. */
  function Repriced(kind: Kind, prices: map<PartId, int>, lines: seq<Line>): seq<Line> {
    if kind.Sale? then lines else
      seq(|lines|, i requires 0 <= i < |lines| =>
        lines[i].(price := if lines[i].part in prices then Some(prices[lines[i].part]) else None))
  }

  /** Nobody sells at a price that nobody set; zero needs a zero on the card. */
  predicate SalePriceHolds(prices: map<PartId, int>, row: CartRow) {
    row.unitPrice.Some? && (row.unitPrice.value == 0 ==> row.key.part in prices && prices[row.key.part] == 0)
  }

  predicate PricesHold(kind: Kind, prices: map<PartId, int>, rows: seq<CartRow>) {
    kind.Sale? ==> forall i | 0 <= i < |rows| :: SalePriceHolds(prices, rows[i])
  }

  /** The completion services refuse a document with an incomplete customs card. */
  predicate CardsReady(parts: map<PartId, PartRecord>, lines: seq<Line>) {
    forall k | 0 <= k < |lines| :: Complete(Read(PartOf(parts, lines[k].part)))
  }

  /** Takes the lot lines in order; None when some lot cannot give what its line says. */
  function Issue(stock: Stock, lines: seq<Line>): (r: Option<Stock>)
    ensures r.Some? ==> |r.value| == |stock|
  {
    if lines == [] then Some(stock) else
      var last := lines[|lines| - 1];
      match Issue(stock, lines[..|lines| - 1])
      case None => None
      case Some(left) =>
        if !OnLot(stock, last) then Some(left)
        else
          var lot := left[last.lot.value];
          if lot.isAvailable && last.quantity <= lot.Free()
          then Some(left[last.lot.value := lot.(quantity := lot.quantity - last.quantity)])
          else None
  }

  function ActionFor(id: DocId, token: Option<string>, row: CartRow): Action {
    Action(if id.kind.Sale? then SaleAction else RepairAction, token, Some(id), row.key, row.quantity,
           if row.unitPrice.Some? then row.unitPrice.value else 0)
  }

  /** One action a row; the token of the request hangs on the first. */
  function ActionsFor(id: DocId, token: string, rows: seq<CartRow>): seq<Action> {
    seq(|rows|, i requires 0 <= i < |rows| =>
      ActionFor(id, if i == 0 && token != "" then Some(token) else None, rows[i]))
  }

  function RefuseEarly(shop: Shop, id: DocId, request: Request): Option<CompletionError>
    requires id in shop.documents
  {
    var document := shop.documents[id];
    var rows := Rows(id.kind, shop.stock, shop.prices, document.lines);
    if !document.status.Draft? then Some(AlreadyCompleted)
    else if !request.hasCustomer && !document.hasCustomer then Some(NoCustomer)
    else if rows == [] then Some(EmptyCart)
    else if !RowsComplete(shop.parts, rows, request.pending) then Some(MetadataMissing)
    else None
  }

  /** The rest of the transaction on a draft that nothing refused so far. */
  function PostDraft(shop: Shop, id: DocId, request: Request): Result<Shop, CompletionError>
    requires id in shop.documents
  {
    var document := shop.documents[id];
    var remembered := Rows(id.kind, shop.stock, shop.prices, document.lines);
    var parts := RememberRows(shop.parts, remembered, |remembered|, request.pending, request.now);
    var lines := Repriced(id.kind, shop.prices, document.lines);
    var rows := Rows(id.kind, shop.stock, shop.prices, lines);
    if !PricesHold(id.kind, shop.prices, rows) then Err(PriceMissing)
    else if !CardsReady(parts, lines) then Err(MetadataMissing)
    else
      match Issue(shop.stock, lines)
      case None => Err(StockShort)
      case Some(stock) => Ok(Posting(shop, id, request, parts, lines, stock, ActionsFor(id, request.token, rows)))
  }

  function Posting(shop: Shop, id: DocId, request: Request, parts: map<PartId, PartRecord>, lines: seq<Line>,
                   stock: Stock, actions: seq<Action>): Shop
    requires id in shop.documents
  {
    shop.(documents := shop.documents[id := Document(Completed, lines, true, Some(request.doneAt), actions)],
          journal := shop.journal + actions, parts := parts, stock := stock, clock := request.doneAt)
  }

  /** complete_cart: a failed call writes nothing, a replayed one writes nothing either. */
  function CompleteCart(shop: Shop, id: DocId, request: Request): (Shop, Outcome)
    requires id in shop.documents
  {
    if |request.token| > MAX_TOKEN then (shop, Failed(BadToken)) else
    match Replay(shop.journal, request.token)
    case Some(earlier) => (shop, Replayed(earlier))
    case None =>
      match RefuseEarly(shop, id, request)
      case Some(error) => (shop, Failed(error))
      case None =>
        match PostDraft(shop, id, request)
        case Err(error) => (shop, Failed(error))
        case Ok(after) => (after, Posted(after.documents[id].receipt))
  }

  // ---------------------------------------------------------------- the service

  class Warehouse {
    var shop: Shop

    constructor (shop: Shop)
      ensures this.shop == shop
    {
      this.shop := shop;
    }

    method RememberCustoms(rows: seq<CartRow>, request: Request)
      modifies this
      ensures shop == old(shop).(parts := RememberRows(old(shop).parts, rows, |rows|, request.pending, request.now))
    {
      var i := 0;
      while i < |rows|
        invariant 0 <= i <= |rows|
        invariant shop == old(shop).(parts := RememberRows(old(shop).parts, rows, i, request.pending, request.now))
      {
        var part := rows[i].key.part;
        if !SeenEarlier(rows, i) {
          var card := new CustomsCard(PartOf(shop.parts, part));
          card.RememberMetadata(PendingOf(request.pending, part), request.now);
          shop := shop.(parts := shop.parts[part := card.Stored()]);
        }
        i := i + 1;
      }
    }

    method RepriceRepair(id: DocId)
      requires id in shop.documents && id.kind.Repair?
      modifies this
      ensures shop == old(shop).(documents := old(shop).documents[
                id := old(shop).documents[id].(lines := Repriced(id.kind, old(shop).prices, old(shop).documents[id].lines))])
    {
      var document := shop.documents[id];
      var lines := document.lines;
      var i := 0;
      while i < |lines|
        invariant 0 <= i <= |lines| == |document.lines|
        invariant forall k :: 0 <= k < i ==> lines[k] == Repriced(id.kind, shop.prices, document.lines)[k]
        invariant forall k :: i <= k < |lines| ==> lines[k] == document.lines[k]
      {
        var current := if lines[i].part in shop.prices then Some(shop.prices[lines[i].part]) else None;
        if lines[i].price != current {
          lines := lines[i := lines[i].(price := current)];
        }
        i := i + 1;
      }
      assert lines == Repriced(id.kind, shop.prices, document.lines);
      shop := shop.(documents := shop.documents[id := document.(lines := lines)]);
    }

    method IssueLines(lines: seq<Line>) returns (issued: bool)
      modifies this
      ensures issued <==> Issue(old(shop).stock, lines).Some?
      ensures issued ==> shop == old(shop).(stock := Issue(old(shop).stock, lines).value)
    {
      var i := 0;
      while i < |lines|
        invariant 0 <= i <= |lines|
        invariant Issue(old(shop).stock, lines[..i]).Some?
        invariant shop == old(shop).(stock := Issue(old(shop).stock, lines[..i]).value)
      {
        assert lines[..i + 1][..i] == lines[..i];
        if OnLot(shop.stock, lines[i]) {
          var lot := shop.stock[lines[i].lot.value];
          if !lot.isAvailable || lines[i].quantity > lot.Free() {
            IssueStops(old(shop).stock, lines, i + 1);
            return false;
          }
          shop := shop.(stock := shop.stock[lines[i].lot.value := lot.(quantity := lot.quantity - lines[i].quantity)]);
        }
        i := i + 1;
      }
      assert lines[..i] == lines;
      issued := true;
    }

    method WriteJournal(id: DocId, token: string, rows: seq<CartRow>) returns (actions: seq<Action>)
      modifies this
      ensures actions == ActionsFor(id, token, rows)
      ensures shop == old(shop).(journal := old(shop).journal + actions)
    {
      actions := [];
      var i := 0;
      while i < |rows|
        invariant 0 <= i <= |rows|
        invariant actions == ActionsFor(id, token, rows)[..i]
        invariant shop == old(shop).(journal := old(shop).journal + actions)
      {
        var action := ActionFor(id, if i == 0 && token != "" then Some(token) else None, rows[i]);
        shop := shop.(journal := shop.journal + [action]);
        actions := actions + [action];
        i := i + 1;
      }
    }

    method IssueAndClose(id: DocId, request: Request, rows: seq<CartRow>, lines: seq<Line>)
        returns (result: Result<seq<Action>, CompletionError>)
      requires id in shop.documents
      modifies this
      ensures match Issue(old(shop).stock, lines)
              case None => result == Err(StockShort)
              case Some(stock) =>
                var actions := ActionsFor(id, request.token, rows);
                result == Ok(actions) && shop == Posting(old(shop), id, request, old(shop).parts, lines, stock, actions)
    {
      var issued := IssueLines(lines);
      if !issued {
        return Err(StockShort);
      }
      var actions := WriteJournal(id, request.token, rows);
      shop := shop.(documents := shop.documents[id := Document(Completed, lines, true, Some(request.doneAt), actions)],
                    clock := request.doneAt);
      result := Ok(actions);
    }

    /** The part of the transaction after the checks; the caller rolls back when it fails. */
    method TryPost(id: DocId, request: Request) returns (result: Result<seq<Action>, CompletionError>)
      requires id in shop.documents
      modifies this
      ensures match PostDraft(old(shop), id, request)
              case Err(error) => result == Err(error)
              case Ok(after) => shop == after && result == Ok(after.documents[id].receipt)
    {
      var rows := CollectRows(id.kind, shop.stock, shop.prices, shop.documents[id].lines);
      RememberCustoms(rows, request);
      if id.kind.Repair? {
        RepriceRepair(id);
        rows := CollectRows(id.kind, shop.stock, shop.prices, shop.documents[id].lines);
      }
      var lines := shop.documents[id].lines;
      if !PricesHold(id.kind, shop.prices, rows) {
        return Err(PriceMissing);
      }
      if !CardsReady(shop.parts, lines) {
        return Err(MetadataMissing);
      }
      result := IssueAndClose(id, request, rows, lines);
    }

    method CompleteDraft(id: DocId, request: Request) returns (outcome: Outcome)
      requires id in shop.documents
      modifies this
      ensures (shop, outcome) == CompleteCart(old(shop), id, request)
    {
      if |request.token| > MAX_TOKEN {
        return Failed(BadToken);
      }
      var replay := Replay(shop.journal, request.token);
      if replay.Some? {
        return Replayed(replay.value);
      }
      var refused := RefuseEarly(shop, id, request);
      if refused.Some? {
        return Failed(refused.value);
      }
      var before := shop;
      var posted := TryPost(id, request);
      match posted {
        case Ok(actions) => outcome := Posted(actions);
        case Err(error) =>
          shop := before;
          outcome := Failed(error);
      }
    }
  }

  /** A shortage in some prefix of the lines is a shortage of the whole. */
  lemma {:induction false} IssueStops(stock: Stock, lines: seq<Line>, n: nat)
    requires n <= |lines| && Issue(stock, lines[..n]).None?
    ensures Issue(stock, lines).None?
  {
    if n < |lines| {
      assert lines[..|lines| - 1][..n] == lines[..n];
      IssueStops(stock, lines[..|lines| - 1], n);
    } else {
      assert lines[..n] == lines;
    }
  }
}
