/** Exactly-once completion over every series of calls, and what one completion writes. */
module CartCompletionRuns {
  import opened Basics
  import opened ScannerCart
  import opened CartRows
  import opened CustomsVersions
  import opened CartCompletion

  datatype Event =
    | CompleteEvent(id: DocId, request: Request)
    | OpenEvent(id: DocId)
    | EditEvent(id: DocId, lines: seq<Line>)                           // scans on an open draft
    | ElsewhereEvent(id: DocId, at: int)                               // completed on an ordinary screen
    | VoidEvent(id: DocId)
    | ReturnEvent(id: DocId, key: Key, quantity: int)                  // a completed return of a repair
    | ActionEvent(id: DocId, action: ActionType, token: string, key: Key, quantity: int, unitPrice: int)
    | CardEvent(part: PartId, values: Values, now: int)
    | PriceEvent(part: PartId, price: int)
    | StockEvent(stock: Stock)

  /** A one-step scanner action makes its own document; a token that is already known writes nothing. */
  function PerformAction(shop: Shop, id: DocId, kind: ActionType, token: string, key: Key, quantity: int, unitPrice: int): Shop {
    if id in shop.documents || kind.RepairReturnAction? || (token != "" && FindToken(shop.journal, token).Some?) then shop else
      var action := Action(kind, if token == "" then None else Some(token),
                           if kind.ReserveAction? then None else Some(id), key, quantity, unitPrice);
      var posted := shop.(journal := shop.journal + [action]);
      if kind.ReserveAction? then posted
      else posted.(documents := posted.documents[id := Document(Completed, [], true, Some(shop.clock), [action])])
  }

  function Step(shop: Shop, e: Event): Shop {
    match e
    case CompleteEvent(id, request) => if id in shop.documents then CompleteCart(shop, id, request).0 else shop
    case OpenEvent(id) =>
      if id in shop.documents then shop
      else shop.(documents := shop.documents[id := Document(Draft, [], false, None, [])])
    case EditEvent(id, lines) =>
      if id in shop.documents && shop.documents[id].status.Draft?
      then shop.(documents := shop.documents[id := shop.documents[id].(lines := lines)]) else shop
    case ElsewhereEvent(id, at) =>
      if id in shop.documents && shop.documents[id].status.Draft?
      then shop.(documents := shop.documents[id := shop.documents[id].(status := Completed, completedAt := Some(at))]) else shop
    case VoidEvent(id) =>
      if id in shop.documents && shop.documents[id].status.Completed?
      then shop.(documents := shop.documents[id := shop.documents[id].(status := Voided)]) else shop
    case ReturnEvent(id, key, quantity) =>
      if id in shop.documents && id.kind.Repair?
      then shop.(journal := shop.journal + [Action(RepairReturnAction, None, Some(id), key, quantity, 0)]) else shop
    case ActionEvent(id, kind, token, key, quantity, unitPrice) =>
      PerformAction(shop, id, kind, token, key, quantity, unitPrice)
    case CardEvent(part, values, now) =>
      shop.(parts := shop.parts[part := Save(PartOf(shop.parts, part), values, now)], clock := now)
    case PriceEvent(part, price) => shop.(prices := shop.prices[part := price])
    case StockEvent(stock) => shop.(stock := stock)
  }

  predicate InTime(shop: Shop, e: Event) {
    match e
    case CompleteEvent(_, request) => shop.clock <= request.now <= request.doneAt
    case CardEvent(_, _, now) => shop.clock <= now
    case _ => true
  }

  function Run(shop: Shop, events: seq<Event>): Shop
    decreases |events|
  {
    if events == [] then shop else Run(Step(shop, events[0]), events[1..])
  }

  predicate WellTimed(shop: Shop, events: seq<Event>)
    decreases |events|
  {
    events != [] ==> InTime(shop, events[0]) && WellTimed(Step(shop, events[0]), events[1..])
  }

  // ---------------------------------------------------------------- the journal of a document

  /** What was written with a document, apart from later returns. */
  function Postings(journal: seq<Action>, id: DocId): seq<Action> {
    if journal == [] then []
    else
      var last := journal[|journal| - 1];
      Postings(journal[..|journal| - 1], id)
      + if last.document == Some(id) && !last.kind.RepairReturnAction? then [last] else []
  }

  lemma {:induction false} PostingsAppend(a: seq<Action>, b: seq<Action>, id: DocId)
    ensures Postings(a + b, id) == Postings(a, id) + Postings(b, id)
  {
    if b == [] {
      assert a + b == a;
    } else {
      PostingsAppend(a, b[..|b| - 1], id);
      assert (a + b)[..|a + b| - 1] == a + b[..|b| - 1];
    }
  }

  predicate WrittenFor(action: Action, id: DocId) {
    action.document == Some(id) && !action.kind.RepairReturnAction?
  }

  lemma {:induction false} PostingsOfOwn(actions: seq<Action>, id: DocId, other: DocId)
    requires forall k :: 0 <= k < |actions| ==> WrittenFor(actions[k], id)
    ensures Postings(actions, other) == if other == id then actions else []
  {
    if actions != [] {
      assert WrittenFor(actions[|actions| - 1], id);
      PostingsOfOwn(actions[..|actions| - 1], id, other);
      assert actions == actions[..|actions| - 1] + [actions[|actions| - 1]];
    }
  }

  // ---------------------------------------------------------------- the invariant

  predicate DocumentSound(shop: Shop, id: DocId)
    requires id in shop.documents
  {
    var document := shop.documents[id];
    Postings(shop.journal, id) == document.receipt && (document.status.Draft? ==> document.receipt == [])
  }

  predicate TokensApart(journal: seq<Action>, i: nat, j: nat)
    requires i < |journal| && j < |journal|
  {
    journal[i].token.Some? ==> journal[i].token != journal[j].token
  }

  ghost predicate AllTokensApart(journal: seq<Action>) {
    forall i: nat, j: nat :: i < j < |journal| ==> TokensApart(journal, i, j)
  }

  ghost predicate PartSound(p: PartRecord, clock: int) {
    HistorySound(p.versions, clock) && CardInSync(p)
  }

  ghost predicate AllPartsSound(parts: map<PartId, PartRecord>, clock: int) {
    forall part {:trigger parts[part]} {:trigger part in parts} :: part in parts ==> PartSound(parts[part], clock)
  }

  ghost predicate Sound(shop: Shop) {
    && (forall id :: id in shop.documents ==> DocumentSound(shop, id))
    && (forall id :: id !in shop.documents ==> Postings(shop.journal, id) == [])
    && AllTokensApart(shop.journal)
    && AllPartsSound(shop.parts, shop.clock)
  }

  /** New actions that carry a token, at most the first, carry one nobody used. */
  ghost predicate NewTokens(journal: seq<Action>, actions: seq<Action>) {
    && (forall i: nat, j: nat :: i < |journal| && j < |actions| && actions[j].token.Some? ==>
          journal[i].token != actions[j].token)
    && (forall j: nat :: 0 < j < |actions| ==> actions[j].token.None?)
  }

  lemma TokensStayApart(journal: seq<Action>, actions: seq<Action>)
    requires AllTokensApart(journal) && NewTokens(journal, actions)
    ensures AllTokensApart(journal + actions)
  {
    var longer := journal + actions;
    forall i: nat, j: nat | i < j < |longer| ensures TokensApart(longer, i, j) {
      if j < |journal| {
        assert TokensApart(journal, i, j);
      }
    }
  }

  lemma PostingsGrow(shop: Shop, id: DocId, actions: seq<Action>, other: DocId)
    requires Sound(shop) && (forall k :: 0 <= k < |actions| ==> WrittenFor(actions[k], id))
    requires id in shop.documents ==> shop.documents[id].receipt == []
    ensures Postings(shop.journal + actions, other) == if other == id then actions else Postings(shop.journal, other)
  {
    PostingsAppend(shop.journal, actions, other);
    PostingsOfOwn(actions, id, other);
    if id in shop.documents {
      assert DocumentSound(shop, id);
    }
  }

  /** Appending actions of one document. */
  lemma JournalGrows(shop: Shop, after: Shop, id: DocId, actions: seq<Action>)
    requires Sound(shop) && after.journal == shop.journal + actions
    requires forall k :: 0 <= k < |actions| ==> WrittenFor(actions[k], id)
    requires NewTokens(shop.journal, actions)
    requires id in shop.documents ==> shop.documents[id].receipt == []
    requires after.documents.Keys == shop.documents.Keys + {id} && after.documents[id].receipt == actions
    requires !after.documents[id].status.Draft?
    requires forall other :: other in shop.documents && other != id ==> after.documents[other] == shop.documents[other]
    requires AllPartsSound(after.parts, after.clock)
    ensures Sound(after)
  {
    TokensStayApart(shop.journal, actions);
    forall other ensures Postings(after.journal, other) == if other == id then actions else Postings(shop.journal, other) {
      PostingsGrow(shop, id, actions, other);
    }
    forall other | other in after.documents ensures DocumentSound(after, other) {
      if other != id {
        assert DocumentSound(shop, other);
      }
    }
  }

  lemma {:induction false} RememberRowsKeeps(parts: map<PartId, PartRecord>, rows: seq<CartRow>, n: nat,
                                             pending: map<PartId, Pending>, clock: int, now: int)
    requires n <= |rows| && clock <= now
    requires AllPartsSound(parts, clock)
    ensures AllPartsSound(RememberRows(parts, rows, n, pending, now), now)
  {
    if n == 0 {
      LaterParts(parts, clock, now);
    } else {
      RememberRowsKeeps(parts, rows, n - 1, pending, clock, now);
      var before := RememberRows(parts, rows, n - 1, pending, now);
      var part := rows[n - 1].key.part;
      assert PartSound(PartOf(before, part), now);
      RememberKeeps(PartOf(before, part), PendingOf(pending, part), now, now);
    }
  }

  lemma LaterParts(parts: map<PartId, PartRecord>, clock: int, later: int)
    requires AllPartsSound(parts, clock) && clock <= later
    ensures AllPartsSound(parts, later)
  {
    forall part | part in parts ensures PartSound(parts[part], later) {
      LaterHistory(parts[part].versions, clock, later);
    }
  }

  lemma LaterHistory(versions: seq<Version>, clock: int, later: int)
    requires HistorySound(versions, clock) && clock <= later
    ensures HistorySound(versions, later)
  {
  }

  lemma PostingKeepsSound(shop: Shop, id: DocId, request: Request)
    requires Sound(shop) && id in shop.documents && shop.clock <= request.now <= request.doneAt
    requires shop.documents[id].status.Draft?
    requires request.token == "" || FindToken(shop.journal, request.token).None?
    requires PostDraft(shop, id, request).Ok?
    ensures Sound(PostDraft(shop, id, request).value)
  {
    var after := PostDraft(shop, id, request).value;
    var rows := Rows(id.kind, shop.stock, shop.prices, shop.documents[id].lines);
    RememberRowsKeeps(shop.parts, rows, |rows|, request.pending, shop.clock, request.now);
    LaterParts(after.parts, request.now, request.doneAt);
    assert DocumentSound(shop, id);
    JournalGrows(shop, after, id, after.documents[id].receipt);
  }

  lemma CompleteKeepsSound(shop: Shop, id: DocId, request: Request)
    requires Sound(shop) && id in shop.documents && shop.clock <= request.now <= request.doneAt
    ensures Sound(CompleteCart(shop, id, request).0)
  {
    if CompleteCart(shop, id, request).1.Posted? {
      PostingKeepsSound(shop, id, request);
    }
  }

  lemma ActionKeepsSound(shop: Shop, id: DocId, kind: ActionType, token: string, key: Key, quantity: int, unitPrice: int)
    requires Sound(shop)
    ensures Sound(PerformAction(shop, id, kind, token, key, quantity, unitPrice))
  {
    var after := PerformAction(shop, id, kind, token, key, quantity, unitPrice);
    if after != shop {
      var action := after.journal[|shop.journal|];
      if kind.ReserveAction? {
        UnrelatedAction(shop, after, action);
      } else {
        JournalGrows(shop, after, id, [action]);
      }
    }
  }

  /** An action that belongs to no document, or is a return, changes no postings. */
  lemma UnrelatedAction(shop: Shop, after: Shop, action: Action)
    requires Sound(shop) && after == shop.(journal := shop.journal + [action])
    requires action.document.None? || action.kind.RepairReturnAction?
    requires NewTokens(shop.journal, [action])
    ensures Sound(after)
  {
    forall id ensures Postings(after.journal, id) == Postings(shop.journal, id) {
      assert after.journal[..|shop.journal|] == shop.journal;
    }
    forall id | id in after.documents ensures DocumentSound(after, id) {
      assert DocumentSound(shop, id);
    }
    TokensStayApart(shop.journal, [action]);
  }

  /** Steps that leave the journal, the receipts and the cards alone. */
  lemma QuietStep(shop: Shop, after: Shop)
    requires Sound(shop) && after.journal == shop.journal && after.parts == shop.parts && after.clock == shop.clock
    requires shop.documents.Keys <= after.documents.Keys
    requires forall id :: id in after.documents ==>
               if id in shop.documents then
                 && after.documents[id].receipt == shop.documents[id].receipt
                 && (after.documents[id].status.Draft? ==> shop.documents[id].status.Draft?)
               else after.documents[id].receipt == []
    ensures Sound(after)
  {
    forall id | id in after.documents ensures DocumentSound(after, id) {
      if id in shop.documents {
        assert DocumentSound(shop, id);
      }
    }
  }

  lemma CardKeepsSound(shop: Shop, part: PartId, values: Values, now: int)
    requires Sound(shop) && shop.clock <= now
    ensures Sound(Step(shop, CardEvent(part, values, now)))
  {
    var after := Step(shop, CardEvent(part, values, now));
    forall p | p in after.parts ensures PartSound(after.parts[p], now) {
      if p in shop.parts {
        assert PartSound(shop.parts[p], shop.clock);
        LaterHistory(shop.parts[p].versions, shop.clock, now);
      }
      if p == part {
        SaveKeepsHistory(PartOf(shop.parts, p), values, shop.clock, now);
        SaveSyncs(PartOf(shop.parts, p), values, now);
      }
    }
    forall id | id in after.documents ensures DocumentSound(after, id) {
      assert DocumentSound(shop, id);
    }
  }

  predicate IsQuiet(e: Event) {
    e.OpenEvent? || e.EditEvent? || e.ElsewhereEvent? || e.VoidEvent? || e.PriceEvent? || e.StockEvent?
  }

  lemma DraftEventKeepsSound(shop: Shop, e: Event)
    requires Sound(shop) && (e.OpenEvent? || e.EditEvent?) && InTime(shop, e)
    ensures Sound(Step(shop, e))
  {
    QuietStep(shop, Step(shop, e));
  }

  lemma QuietEventKeepsSound(shop: Shop, e: Event)
    requires Sound(shop) && IsQuiet(e) && InTime(shop, e)
    ensures Sound(Step(shop, e))
  {
    if e.OpenEvent? || e.EditEvent? {
      DraftEventKeepsSound(shop, e);
    } else {
      QuietStep(shop, Step(shop, e));
    }
  }

  lemma ReturnKeepsSound(shop: Shop, e: Event)
    requires Sound(shop) && e.ReturnEvent? && InTime(shop, e)
    ensures Sound(Step(shop, e))
  {
    if e.id in shop.documents && e.id.kind.Repair? {
      UnrelatedAction(shop, Step(shop, e), Action(RepairReturnAction, None, Some(e.id), e.key, e.quantity, 0));
    }
  }

  lemma StepKeepsSound(shop: Shop, e: Event)
    requires Sound(shop) && InTime(shop, e)
    ensures Sound(Step(shop, e))
  {
    if IsQuiet(e) {
      QuietEventKeepsSound(shop, e);
    } else {
      match e
      case CompleteEvent(id, request) =>
        if id in shop.documents { CompleteKeepsSound(shop, id, request); }
      case ReturnEvent(_, _, _) => ReturnKeepsSound(shop, e);
      case ActionEvent(id, kind, token, key, quantity, unitPrice) =>
        ActionKeepsSound(shop, id, kind, token, key, quantity, unitPrice);
      case CardEvent(part, values, now) => CardKeepsSound(shop, part, values, now);
    }
  }

  lemma {:induction false} RunKeepsSound(shop: Shop, events: seq<Event>)
    requires Sound(shop) && WellTimed(shop, events)
    ensures Sound(Run(shop, events))
    decreases |events|
  {
    if events != [] {
      StepKeepsSound(shop, events[0]);
      RunKeepsSound(Step(shop, events[0]), events[1..]);
    }
  }

  // ---------------------------------------------------------------- exactly once

  predicate Posts(shop: Shop, e: Event, id: DocId) {
    e.CompleteEvent? && e.id == id && id in shop.documents && CompleteCart(shop, id, e.request).1.Posted?
  }

  function CountPosted(shop: Shop, events: seq<Event>, id: DocId): nat
    decreases |events|
  {
    if events == [] then 0
    else (if Posts(shop, events[0], id) then 1 else 0) + CountPosted(Step(shop, events[0]), events[1..], id)
  }

  predicate Closed(shop: Shop, id: DocId) {
    id in shop.documents && !shop.documents[id].status.Draft?
  }

  lemma ClosedStaysClosed(shop: Shop, e: Event, id: DocId)
    requires Closed(shop, id)
    ensures Closed(Step(shop, e), id)
    ensures Step(shop, e).documents[id].receipt == shop.documents[id].receipt
    ensures !Posts(shop, e, id)
  {
  }

  lemma {:induction false} ClosedForever(shop: Shop, events: seq<Event>, id: DocId)
    requires Closed(shop, id)
    ensures Closed(Run(shop, events), id)
    ensures Run(shop, events).documents[id].receipt == shop.documents[id].receipt
    ensures CountPosted(shop, events, id) == 0
    decreases |events|
  {
    if events != [] {
      ClosedStaysClosed(shop, events[0], id);
      ClosedForever(Step(shop, events[0]), events[1..], id);
    }
  }

  lemma PostingCloses(shop: Shop, e: Event, id: DocId)
    requires Posts(shop, e, id)
    ensures Closed(Step(shop, e), id)
  {
  }

  /** Whatever calls are made, a document is posted at most once. */
  lemma {:induction false} PostedAtMostOnce(shop: Shop, events: seq<Event>, id: DocId)
    ensures CountPosted(shop, events, id) <= 1
    decreases |events|
  {
    if events != [] {
      if Posts(shop, events[0], id) {
        PostingCloses(shop, events[0], id);
        ClosedForever(Step(shop, events[0]), events[1..], id);
      } else {
        PostedAtMostOnce(Step(shop, events[0]), events[1..], id);
      }
    }
  }

  /** The actions of the one posting stay, after whatever follows, the only ones written with the document. */
  lemma JournalHoldsOnePosting(shop: Shop, id: DocId, request: Request, events: seq<Event>)
    requires Sound(shop) && id in shop.documents && InTime(shop, CompleteEvent(id, request))
    requires CompleteCart(shop, id, request).1.Posted?
    requires WellTimed(CompleteCart(shop, id, request).0, events)
    ensures Postings(Run(CompleteCart(shop, id, request).0, events).journal, id) == CompleteCart(shop, id, request).1.actions
  {
    var after := CompleteCart(shop, id, request).0;
    CompleteKeepsSound(shop, id, request);
    RunKeepsSound(after, events);
    PostingCloses(shop, CompleteEvent(id, request), id);
    ClosedForever(after, events, id);
    assert DocumentSound(Run(after, events), id);
  }

  // ---------------------------------------------------------------- what a posting writes

  predicate ActionOfRow(action: Action, id: DocId, row: CartRow) {
    && action.document == Some(id) && action.key == row.key && action.quantity == row.quantity
    && action.unitPrice == (if row.unitPrice.Some? then row.unitPrice.value else 0)
    && (if id.kind.Sale? then action.kind.SaleAction? else action.kind.RepairAction?)
  }

  lemma {:induction false} RepricedSameRows(stock: Stock, prices: map<PartId, int>, lines: seq<Line>, kind: Kind, key: Key)
    ensures FirstKeys(stock, Repriced(kind, prices, lines)) == FirstKeys(stock, lines)
    ensures GroupAt(kind, stock, prices, Repriced(kind, prices, lines), key) == GroupAt(kind, stock, prices, lines, key)
    ensures LotQuantity(stock, Repriced(kind, prices, lines)) == LotQuantity(stock, lines)
  {
    if lines != [] {
      var shorter := lines[..|lines| - 1];
      RepricedSameRows(stock, prices, shorter, kind, key);
      assert Repriced(kind, prices, lines)[..|shorter|] == Repriced(kind, prices, shorter);
    }
  }

  lemma RepricedRows(stock: Stock, prices: map<PartId, int>, lines: seq<Line>, kind: Kind)
    ensures Rows(kind, stock, prices, Repriced(kind, prices, lines)) == Rows(kind, stock, prices, lines)
  {
    var keys := FirstKeys(stock, lines);
    forall key ensures GroupAt(kind, stock, prices, Repriced(kind, prices, lines), key) == GroupAt(kind, stock, prices, lines, key)
                       && FirstKeys(stock, Repriced(kind, prices, lines)) == keys {
      RepricedSameRows(stock, prices, lines, kind, key);
    }
    assert FirstKeys(stock, Repriced(kind, prices, lines)) == keys by {
      RepricedSameRows(stock, prices, lines, kind, Key(0, 0));
    }
  }

  function SumActions(actions: seq<Action>): int {
    if actions == [] then 0 else SumActions(actions[..|actions| - 1]) + actions[|actions| - 1].quantity
  }

  lemma {:induction false} ActionsSum(actions: seq<Action>, rows: seq<CartRow>, id: DocId)
    requires |actions| == |rows| && forall i :: 0 <= i < |rows| ==> ActionOfRow(actions[i], id, rows[i])
    ensures SumActions(actions) == SumRows(rows)
  {
    if rows != [] {
      assert ActionOfRow(actions[|rows| - 1], id, rows[|rows| - 1]);
      ActionsSum(actions[..|rows| - 1], rows[..|rows| - 1], id);
    }
  }

  /** One action for each visible row, in order, together the quantity of the cart; the token hangs on the first. */
  lemma PostingWritesTheRows(shop: Shop, id: DocId, request: Request)
    requires id in shop.documents && CompleteCart(shop, id, request).1.Posted?
    ensures var (after, outcome) := CompleteCart(shop, id, request);
            var lines := shop.documents[id].lines;
            var rows := Rows(id.kind, shop.stock, shop.prices, lines);
            && rows != [] && |outcome.actions| == |rows|
            && (forall i :: 0 <= i < |rows| ==> ActionOfRow(outcome.actions[i], id, rows[i]))
            && (forall i :: 0 <= i < |rows| ==>
                  outcome.actions[i].token == if i == 0 && request.token != "" then Some(request.token) else None)
            && SumActions(outcome.actions) == LotQuantity(shop.stock, lines)
            && after.journal == shop.journal + outcome.actions
            && after.documents[id].status.Completed? && after.documents[id].completedAt == Some(request.doneAt)
  {
    var outcome := CompleteCart(shop, id, request).1;
    var lines := shop.documents[id].lines;
    var rows := Rows(id.kind, shop.stock, shop.prices, lines);
    RepricedRows(shop.stock, shop.prices, lines, id.kind);
    RowsConserveQuantity(id.kind, shop.stock, shop.prices, lines);
    assert outcome.actions == ActionsFor(id, request.token, rows);
    ActionsSum(outcome.actions, rows, id);
  }

  lemma {:induction false} IssueTakes(stock: Stock, lines: seq<Line>, lot: nat)
    requires Issue(stock, lines).Some? && lot < |stock|
    ensures Issue(stock, lines).value[lot] == stock[lot].(quantity := stock[lot].quantity - QuantityOnLot(lines, lot))
    ensures (exists k :: 0 <= k < |lines| && lines[k].lot == Some(lot)) ==> stock[lot].isAvailable
  {
    if lines != [] {
      IssueTakes(stock, lines[..|lines| - 1], lot);
    }
  }

  lemma {:induction false} RepricedOnLot(kind: Kind, prices: map<PartId, int>, lines: seq<Line>, lot: nat)
    ensures QuantityOnLot(Repriced(kind, prices, lines), lot) == QuantityOnLot(lines, lot)
  {
    if lines != [] {
      var shorter := lines[..|lines| - 1];
      RepricedOnLot(kind, prices, shorter, lot);
      assert Repriced(kind, prices, lines)[..|shorter|] == Repriced(kind, prices, shorter);
    }
  }

  /** The stock gives exactly what the lines of the cart say, lot by lot. */
  lemma PostingTakesTheLines(shop: Shop, id: DocId, request: Request, lot: nat)
    requires id in shop.documents && CompleteCart(shop, id, request).1.Posted? && lot < |shop.stock|
    ensures var after := CompleteCart(shop, id, request).0;
            && |after.stock| == |shop.stock|
            && after.stock[lot].quantity == shop.stock[lot].quantity - QuantityOnLot(shop.documents[id].lines, lot)
            && after.stock[lot].reserved == shop.stock[lot].reserved
  {
    var lines := Repriced(id.kind, shop.prices, shop.documents[id].lines);
    IssueTakes(shop.stock, lines, lot);
    RepricedOnLot(id.kind, shop.prices, shop.documents[id].lines, lot);
  }

  // ---------------------------------------------------------------- repeating a call

  lemma {:induction false} TokenFoundWhereWritten(journal: seq<Action>, token: string, k: nat, start: nat)
    requires k < |journal| && start <= k && journal[k].token == Some(token)
    requires AllTokensApart(journal)
    ensures FindToken(journal, token, start) == Some(k)
    decreases k - start
  {
    if start < k {
      assert TokensApart(journal, start, k);
      TokenFoundWhereWritten(journal, token, k, start + 1);
    }
  }

  lemma {:induction false} PostingsHaveIndex(journal: seq<Action>, id: DocId, n: nat) returns (k: nat)
    requires n < |Postings(journal, id)|
    ensures k < |journal| && journal[k] == Postings(journal, id)[n] && WrittenFor(journal[k], id)
  {
    var shorter := journal[..|journal| - 1];
    if n < |Postings(shorter, id)| {
      k := PostingsHaveIndex(shorter, id, n);
    } else {
      k := |journal| - 1;
    }
  }

  predicate ReturnOf(action: Action, id: DocId) {
    action.document == Some(id) && action.kind.RepairReturnAction?
  }

  /** All actions of a document are its postings exactly when no return was recorded on it. */
  lemma {:induction false} ActionsArePostingsIff(journal: seq<Action>, id: DocId)
    ensures |ActionsOf(journal, id)| >= |Postings(journal, id)|
    ensures ActionsOf(journal, id) == Postings(journal, id) <==> forall k :: 0 <= k < |journal| ==> !ReturnOf(journal[k], id)
    ensures (exists k :: 0 <= k < |journal| && ReturnOf(journal[k], id)) ==> |ActionsOf(journal, id)| > |Postings(journal, id)|
  {
    if journal != [] {
      var shorter := journal[..|journal| - 1];
      ActionsArePostingsIff(shorter, id);
      if exists k :: 0 <= k < |shorter| && ReturnOf(shorter[k], id) {
        var k :| 0 <= k < |shorter| && ReturnOf(shorter[k], id);
        assert ReturnOf(journal[k], id);
      }
    }
  }

  lemma PostingCarriesItsToken(shop: Shop, id: DocId, request: Request)
    requires id in shop.documents && CompleteCart(shop, id, request).1.Posted? && request.token != ""
    ensures var actions := CompleteCart(shop, id, request).1.actions;
      actions != [] && actions[0].token == Some(request.token)
    ensures |request.token| <= MAX_TOKEN
  {
    PostingWritesTheRows(shop, id, request);
  }

  lemma TokenReplays(later: Shop, id: DocId, posted: seq<Action>, retry: Request)
    requires id in later.documents && AllTokensApart(later.journal) && Postings(later.journal, id) == posted
    requires posted != [] && posted[0].token == Some(retry.token) && retry.token != "" && |retry.token| <= MAX_TOKEN
    ensures CompleteCart(later, id, retry) == (later, Replayed(ActionsOf(later.journal, id)))
  {
    var k := PostingsHaveIndex(later.journal, id, 0);
    TokenFoundWhereWritten(later.journal, retry.token, k, 0);
  }

  /**
   A retry with the winning token, whatever happened in between, writes nothing and returns the actions
   of the document: the very list of the first call, if and only if no return was recorded since.
   */
  lemma RetryReturnsThePosting(shop: Shop, id: DocId, request: Request, events: seq<Event>, retry: Request)
    requires Sound(shop) && id in shop.documents && InTime(shop, CompleteEvent(id, request))
    requires CompleteCart(shop, id, request).1.Posted?
    requires WellTimed(CompleteCart(shop, id, request).0, events)
    requires retry.token == request.token != ""
    ensures var posted := CompleteCart(shop, id, request).1.actions;
            var later := Run(CompleteCart(shop, id, request).0, events);
            && id in later.documents
            && CompleteCart(later, id, retry) == (later, Replayed(ActionsOf(later.journal, id)))
            && (ActionsOf(later.journal, id) == posted <==>
                forall k :: 0 <= k < |later.journal| ==> !ReturnOf(later.journal[k], id))
  {
    var (after, outcome) := CompleteCart(shop, id, request);
    var later := Run(after, events);
    PostingCarriesItsToken(shop, id, request);
    JournalHoldsOnePosting(shop, id, request, events);
    PostingCloses(shop, CompleteEvent(id, request), id);
    ClosedForever(after, events, id);
    CompleteKeepsSound(shop, id, request);
    RunKeepsSound(after, events);
    TokenReplays(later, id, outcome.actions, retry);
    ActionsArePostingsIff(later.journal, id);
  }

  predicate IsKnownToken(journal: seq<Action>, token: string) {
    token != "" && |token| <= MAX_TOKEN && FindToken(journal, token).Some?
  }

  lemma CallOnAClosedDocument(shop: Shop, id: DocId, request: Request)
    requires Closed(shop, id)
    ensures CompleteCart(shop, id, request).0 == shop
    ensures CompleteCart(shop, id, request).1.Replayed? <==> IsKnownToken(shop.journal, request.token)
    ensures !IsKnownToken(shop.journal, request.token) ==>
              CompleteCart(shop, id, request).1 == Failed(if |request.token| > MAX_TOKEN then BadToken else AlreadyCompleted)
  {
  }

  /**
   Once a document is posted, and whatever happens in between, no call on it writes anything: a call whose
   token the journal knows is answered from it, and every other call fails.
   */
  lemma OtherCallsFail(shop: Shop, id: DocId, request: Request, events: seq<Event>, other: Request)
    requires id in shop.documents && CompleteCart(shop, id, request).1.Posted?
    ensures var later := Run(CompleteCart(shop, id, request).0, events);
            && id in later.documents
            && CompleteCart(later, id, other).0 == later
            && (CompleteCart(later, id, other).1.Replayed? <==> IsKnownToken(later.journal, other.token))
            && (!IsKnownToken(later.journal, other.token) ==>
                  CompleteCart(later, id, other).1 == Failed(if |other.token| > MAX_TOKEN then BadToken else AlreadyCompleted))
  {
    PostingCloses(shop, CompleteEvent(id, request), id);
    ClosedForever(CompleteCart(shop, id, request).0, events, id);
    CallOnAClosedDocument(Run(CompleteCart(shop, id, request).0, events), id, other);
  }

  /**
   The token is looked up before the document is looked at. So a call on an open draft is answered with
   the actions of another document, and the draft is left open, exactly when its token was used there.
   */
  lemma ForeignTokenLeavesTheDraft(shop: Shop, id: DocId, request: Request)
    requires Sound(shop) && id in shop.documents && shop.documents[id].status.Draft? && |request.token| <= MAX_TOKEN
    ensures var (after, outcome) := CompleteCart(shop, id, request);
            && (outcome.Replayed? <==> request.token != "" && FindToken(shop.journal, request.token).Some?)
            && (outcome.Replayed? ==>
                  && after == shop
                  && forall k :: 0 <= k < |outcome.earlier| && !outcome.earlier[k].kind.RepairReturnAction? ==>
                       outcome.earlier[k].document != Some(id))
  {
    var (after, outcome) := CompleteCart(shop, id, request);
    assert DocumentSound(shop, id);
    if outcome.Replayed? {
      var k := FindToken(shop.journal, request.token).value;
      if shop.journal[k].document.Some? {
        ActionsBelong(shop.journal, shop.journal[k].document.value);
        if shop.journal[k].document.value == id {
          NoPostingsNoActions(shop.journal, id);
        }
      }
    }
  }

  lemma {:induction false} ActionsBelong(journal: seq<Action>, id: DocId)
    ensures forall k :: 0 <= k < |ActionsOf(journal, id)| ==> ActionsOf(journal, id)[k].document == Some(id)
  {
    if journal != [] {
      ActionsBelong(journal[..|journal| - 1], id);
    }
  }

  lemma {:induction false} NoPostingsNoActions(journal: seq<Action>, id: DocId)
    requires Postings(journal, id) == []
    ensures forall k :: 0 <= k < |ActionsOf(journal, id)| ==> ActionsOf(journal, id)[k].kind.RepairReturnAction?
  {
    if journal != [] {
      NoPostingsNoActions(journal[..|journal| - 1], id);
    }
  }

  // ---------------------------------------------------------------- customs data of a completed cart

  lemma {:induction false} RememberedRow(parts: map<PartId, PartRecord>, rows: seq<CartRow>, n: nat,
                                         pending: map<PartId, Pending>, now: int, part: PartId)
    requires n <= |rows|
    ensures var after := PartOf(RememberRows(parts, rows, n, pending, now), part);
            after == if exists i :: 0 <= i < n && rows[i].key.part == part
                     then Remember(PartOf(parts, part), PendingOf(pending, part), now) else PartOf(parts, part)
  {
    if n > 0 {
      RememberedRow(parts, rows, n - 1, pending, now, part);
      var before := RememberRows(parts, rows, n - 1, pending, now);
      if rows[n - 1].key.part == part && !SeenEarlier(rows, n - 1) {
        assert PartOf(before, part) == PartOf(parts, part);
      }
    }
  }

  /** At the completion time of a cart, the version in force holds exactly the weights and area the cart showed. */
  lemma CompletedCartHasItsVersion(shop: Shop, id: DocId, request: Request, i: nat)
    requires Sound(shop) && id in shop.documents && InTime(shop, CompleteEvent(id, request))
    requires CompleteCart(shop, id, request).1.Posted?
    requires i < |Rows(id.kind, shop.stock, shop.prices, shop.documents[id].lines)|
    ensures var after := CompleteCart(shop, id, request).0;
            var part := Rows(id.kind, shop.stock, shop.prices, shop.documents[id].lines)[i].key.part;
            var inForce := VersionAt(PartOf(after.parts, part).versions, after.documents[id].completedAt);
            inForce.Some?
            && SameShown(inForce.value.values, Effective(PartOf(shop.parts, part), PendingOf(request.pending, part)))
  {
    var rows := Rows(id.kind, shop.stock, shop.prices, shop.documents[id].lines);
    var part := rows[i].key.part;
    RememberedRow(shop.parts, rows, |rows|, request.pending, request.now, part);
    assert part in shop.parts ==> PartSound(shop.parts[part], shop.clock);
    InForceIsShown(PartOf(shop.parts, part), PendingOf(request.pending, part), shop.clock, request.now, request.doneAt);
  }
}
