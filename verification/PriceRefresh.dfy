/**
 One pass over the cards linked to supplier catalogues: prices, calculation certificates and the basis
 of the current price.

 Prices are kopecks. Which related row a replacement chain leads to is a given datum of each link.
 */
module PriceRefresh {
  import opened Basics
  import opened Pricing

  datatype Provenance = FormulaCertified | ValidManualException | Unverified | SourceMissing | NotApplicable

  datatype Card = Card(price: Option<int>, certified: Option<int>, provenance: Provenance)

  /** A catalogue row as a source of price. */
  datatype Quote = Quote(wholesale: Option<int>, status: string)

  /** One row that ties a card to a catalogue, or a card that no catalogue knows. */
  datatype Entry =
    | Brp(part: int, manual: bool, current: bool, own: Quote, borrowed: Option<Quote>)
    | Polaris(part: int, manual: bool, own: Quote, borrowed: Option<Quote>)
    | Aftermarket(part: int, dealerCost: Option<int>)
    | ArcticCat(part: int, dealerPrice: Option<int>)
    | Unlinked(part: int)

  predicate Positive(amount: Option<int>) {
    amount.Some? && amount.value > 0
  }

  /** Where the price of a row comes from: itself if it has one, else a related row that does. */
  function PriceSource(own: Quote, borrowed: Option<Quote>, usable: bool): Option<Quote> {
    if usable && Positive(own.wholesale) then Some(own)
    else if borrowed.Some? then borrowed
    else if usable then Some(own)
    else None
  }

  function BrpPrice(source: Option<Quote>, s: Settings): Option<int> {
    match source
    case None => None
    case Some(quote) => CustomerPrice(EffectiveWholesale(quote.wholesale, quote.status), s.rate, s.brpMarkup)
  }

  function PolarisPrice(source: Option<Quote>, s: Settings): Option<int> {
    match source
    case None => None
    case Some(quote) => CustomerPrice(quote.wholesale, s.rate, s.polarisMarkup)
  }

  datatype Verdict = LeaveAlone | Unverify | Discontinue | MissSource | Certify(price: int) | Exclude

  function CertifyIfPositive(price: Option<int>): Verdict {
    if Positive(price) then Certify(100 * price.value) else MissSource
  }

  function VerdictOn(entry: Entry, card: Card, s: Settings): Verdict {
    match entry
    case Brp(_, manual, current, own, borrowed) =>
      if card.provenance == ValidManualException then LeaveAlone
      else if manual then Unverify
      else if !current then Discontinue
      else CertifyIfPositive(if Positive(own.wholesale) then BrpPrice(PriceSource(own, borrowed, true), s) else None)
    case Polaris(_, manual, own, borrowed) =>
      if card.provenance == ValidManualException then LeaveAlone
      else if manual then Unverify
      else CertifyIfPositive(if Positive(own.wholesale) then PolarisPrice(PriceSource(own, borrowed, true), s) else None)
    case Aftermarket(_, dealerCost) =>
      CertifyIfPositive(CustomerPrice(dealerCost, s.rate, s.brpMarkup))
    case ArcticCat(_, dealerPrice) =>
      if card.provenance == ValidManualException then LeaveAlone
      else CertifyIfPositive(if Positive(dealerPrice) then CustomerPrice(dealerPrice, s.rate, s.brpMarkup) else None)
    case Unlinked(_) => Exclude
  }

  function Uncertified(card: Card, provenance: Provenance): Card {
    if card.provenance == ValidManualException then card else card.(certified := None, provenance := provenance)
  }

  function After(card: Card, verdict: Verdict): Card {
    match verdict
    case LeaveAlone => card
    case Unverify => card.(certified := None, provenance := Unverified)
    case Discontinue => Uncertified(card.(price := None), SourceMissing)
    case MissSource => Uncertified(card, SourceMissing)
    case Certify(price) => Card(Some(price), Some(price), FormulaCertified)
    case Exclude => Uncertified(card, NotApplicable)
  }

  /** The owner confirms a positive price as a deliberate exception. */
  function ConfirmException(card: Card): Option<Card> {
    if Positive(card.price) then Some(Card(card.price, None, ValidManualException)) else None
  }

  // ---------------------------------------------------------------- the plan

  datatype Counters = Counters(
    brp: nat, polaris: nat, aftermarket: nat, arcticCat: nat,
    calculated: nat, stillRight: nat, skipped: nat, overridden: nat,
    pricesChanged: nat, written: nat, cleared: nat)

  const NOTHING := Counters(0, 0, 0, 0, 0, 0, 0, 0, 0, 0, 0)

  datatype Plan = Plan(cards: map<int, Card>, touched: set<int>, counters: Counters)

  function One(condition: bool): nat {
    if condition then 1 else 0
  }

  function CountLink(c: Counters, entry: Entry): Counters {
    c.(brp := c.brp + One(entry.Brp?), polaris := c.polaris + One(entry.Polaris?),
       aftermarket := c.aftermarket + One(entry.Aftermarket?), arcticCat := c.arcticCat + One(entry.ArcticCat?))
  }

  function CountVerdict(c: Counters, verdict: Verdict, card: Card): Counters {
    c.(calculated := c.calculated + One(verdict.Certify?),
       stillRight := c.stillRight + One(verdict.Certify? && card.price == Some(verdict.price)),
       skipped := c.skipped + One(verdict.MissSource? || verdict.Discontinue?))
  }

  function CountChange(c: Counters, before: Card, after: Card): Counters {
    c.(pricesChanged := c.pricesChanged + One(before.price != after.price),
       written := c.written + One(after.certified.Some? && before.certified != after.certified),
       cleared := c.cleared + One(after.certified.None? && before.certified != after.certified))
  }

  /** The card takes a new value; a card that really changes is to be written. */
  function Becomes(plan: Plan, part: int, after: Card): Plan
    requires part in plan.cards
  {
    var before := plan.cards[part];
    Plan(plan.cards[part := after], plan.touched + (if after != before then {part} else {}),
         CountChange(plan.counters, before, after))
  }

  function Step(plan: Plan, entry: Entry, s: Settings): Plan
    requires entry.part in plan.cards
  {
    var card := plan.cards[entry.part];
    var verdict := VerdictOn(entry, card, s);
    Becomes(plan.(counters := CountVerdict(CountLink(plan.counters, entry), verdict, card)), entry.part, After(card, verdict))
  }

  ghost predicate Known(entries: seq<Entry>, cards: map<int, Card>) {
    forall k :: 0 <= k < |entries| ==> entries[k].part in cards
  }

  function Planned(start: Plan, entries: seq<Entry>, s: Settings): (plan: Plan)
    requires Known(entries, start.cards)
    ensures plan.cards.Keys == start.cards.Keys
  {
    if entries == [] then start
    else
      Step(Planned(start, entries[..|entries| - 1], s), entries[|entries| - 1], s)
  }

  /** The catalogue tables and the cards; `parts` lists the cards as they are read. */
  datatype Shop = Shop(
    cards: map<int, Card>, parts: seq<int>,
    brp: seq<Entry>, polaris: seq<Entry>, aftermarket: seq<Entry>, arcticCat: seq<Entry>)

  function Links(shop: Shop): seq<Entry> {
    shop.brp + shop.polaris + shop.aftermarket + shop.arcticCat
  }

  predicate IsLinked(links: seq<Entry>, part: int) {
    exists k :: 0 <= k < |links| && links[k].part == part
  }

  function UnlinkedEntries(parts: seq<int>, links: seq<Entry>): seq<Entry> {
    if parts == [] then []
    else
      var last := parts[|parts| - 1];
      UnlinkedEntries(parts[..|parts| - 1], links) + (if IsLinked(links, last) then [] else [Unlinked(last)])
  }

  const PRICED := {"brp", "polaris", "aftermarket", "arctic_cat"}

  function Selected(catalogs: set<string>): set<string> {
    if catalogs == {} then PRICED else catalogs
  }

  function Chosen(shop: Shop, catalogs: set<string>): seq<Entry> {
    (if "brp" in catalogs then shop.brp else [])
    + (if "polaris" in catalogs then shop.polaris else [])
    + (if "aftermarket" in catalogs then shop.aftermarket else [])
    + (if "arctic_cat" in catalogs then shop.arcticCat else [])
  }

  function Entries(shop: Shop, catalogs: set<string>): seq<Entry> {
    Chosen(shop, Selected(catalogs)) + UnlinkedEntries(shop.parts, Links(shop))
  }

  /** Every table holds its own kind of row, every row names a card, and the cards are listed once each. */
  ghost predicate Proper(shop: Shop) {
    && (forall k :: 0 <= k < |shop.brp| ==> shop.brp[k].Brp?)
    && (forall k :: 0 <= k < |shop.polaris| ==> shop.polaris[k].Polaris?)
    && (forall k :: 0 <= k < |shop.aftermarket| ==> shop.aftermarket[k].Aftermarket?)
    && (forall k :: 0 <= k < |shop.arcticCat| ==> shop.arcticCat[k].ArcticCat?)
    && Known(Links(shop), shop.cards)
    && (forall k :: 0 <= k < |shop.parts| ==> shop.parts[k] in shop.cards)
    && (forall i, j :: 0 <= i < j < |shop.parts| ==> shop.parts[i] != shop.parts[j])
  }

  lemma {:induction false} UnlinkedMember(parts: seq<int>, links: seq<Entry>, entry: Entry)
    ensures entry in UnlinkedEntries(parts, links) <==> entry.Unlinked? && entry.part in parts && !IsLinked(links, entry.part)
  {
    if parts != [] {
      UnlinkedMember(parts[..|parts| - 1], links, entry);
      assert parts == parts[..|parts| - 1] + [parts[|parts| - 1]];
    }
  }

  lemma ChosenKnown(shop: Shop, catalogs: set<string>)
    requires Proper(shop)
    ensures forall entry :: entry in Chosen(shop, catalogs) ==> entry in Links(shop) && entry.part in shop.cards
  {
  }

  lemma EntriesKnown(shop: Shop, catalogs: set<string>)
    requires Proper(shop)
    ensures Known(Entries(shop, catalogs), shop.cards)
    ensures Known(Chosen(shop, Selected(catalogs)), shop.cards)
    ensures Known(UnlinkedEntries(shop.parts, Links(shop)), shop.cards)
  {
    ChosenKnown(shop, Selected(catalogs));
    var unlinked := UnlinkedEntries(shop.parts, Links(shop));
    forall k | 0 <= k < |unlinked| ensures unlinked[k].part in shop.cards {
      UnlinkedMember(shop.parts, Links(shop), unlinked[k]);
    }
    var entries := Entries(shop, catalogs);
    forall k | 0 <= k < |entries| ensures entries[k].part in shop.cards {
      assert entries[k] in Chosen(shop, Selected(catalogs)) || entries[k] in unlinked;
    }
  }

  function FreshPlan(cards: map<int, Card>): Plan {
    Plan(cards, {}, NOTHING)
  }

  function Refresh(shop: Shop, s: Settings, catalogs: set<string>): Plan
    requires Proper(shop)
  {
    EntriesKnown(shop, catalogs);
    Planned(FreshPlan(shop.cards), Entries(shop, catalogs), s)
  }

  lemma {:induction false} PlannedInParts(start: Plan, a: seq<Entry>, b: seq<Entry>, s: Settings)
    requires Known(a, start.cards) && Known(b, start.cards)
    ensures Known(a + b, start.cards) && Planned(start, a + b, s) == Planned(Planned(start, a, s), b, s)
  {
    if b == [] {
      assert a + b == a;
    } else {
      PlannedInParts(start, a, b[..|b| - 1], s);
      assert (a + b)[..|a + b| - 1] == a + b[..|b| - 1];
    }
  }

  // ---------------------------------------------------------------- the plan as it is built

  class LinkedPriceRefreshPlan {
    var cards: map<int, Card>
    var touched: set<int>
    var counters: Counters

    ghost function Value(): Plan
      reads this
    {
      Plan(cards, touched, counters)
    }

    constructor (loaded: map<int, Card>)
      ensures Value() == FreshPlan(loaded)
    {
      cards, touched, counters := loaded, {}, NOTHING;
    }

    method SetPrice(part: int, price: int)
      requires part in cards
      modifies this
      ensures Value() == Becomes(old(Value()), part, Card(Some(price), Some(price), FormulaCertified))
    {
      if cards[part].price != Some(price) {
        cards := cards[part := cards[part].(price := Some(price))];
        counters := counters.(pricesChanged := counters.pricesChanged + 1);
        touched := touched + {part};
      }
      if cards[part].certified != Some(price) {
        cards := cards[part := cards[part].(certified := Some(price))];
        counters := counters.(written := counters.written + 1);
        touched := touched + {part};
      }
      if cards[part].provenance != FormulaCertified {
        cards := cards[part := cards[part].(provenance := FormulaCertified)];
        touched := touched + {part};
      }
    }

    method DropCertificate(part: int)
      requires part in cards
      modifies this
      ensures Value() == Becomes(old(Value()), part, old(cards[part]).(certified := None))
    {
      if cards[part].certified != None {
        cards := cards[part := cards[part].(certified := None)];
        counters := counters.(cleared := counters.cleared + 1);
        touched := touched + {part};
      }
    }

    /** Withdraws the certificate and names the new basis of the price. */
    method Mark(part: int, provenance: Provenance)
      requires part in cards
      modifies this
      ensures Value() == Becomes(old(Value()), part, old(cards[part]).(certified := None, provenance := provenance))
    {
      DropCertificate(part);
      if cards[part].provenance != provenance {
        cards := cards[part := cards[part].(provenance := provenance)];
        touched := touched + {part};
      }
    }

    method MarkSourceMissing(part: int)
      requires part in cards
      modifies this
      ensures Value() == Becomes(old(Value()), part, Uncertified(old(cards[part]), SourceMissing))
    {
      if cards[part].provenance == ValidManualException {
        return;
      }
      Mark(part, SourceMissing);
    }

    method MarkNotApplicable(part: int)
      requires part in cards
      modifies this
      ensures Value() == Becomes(old(Value()), part, Uncertified(old(cards[part]), NotApplicable))
    {
      if cards[part].provenance == ValidManualException {
        return;
      }
      Mark(part, NotApplicable);
    }

    /** A price was worked out, or there is nothing to work it out from. */
    method Conclude(part: int, price: Option<int>)
      requires part in cards
      modifies this
      ensures var verdict, before := CertifyIfPositive(price), old(cards[part]);
        Value() == Becomes(old(Value()).(counters := CountVerdict(old(counters), verdict, before)), part, After(before, verdict))
    {
      if price.None? || price.value <= 0 {
        MarkSourceMissing(part);
        counters := counters.(skipped := counters.skipped + 1);
        return;
      }
      counters := counters.(calculated := counters.calculated + 1);
      var recommended := 100 * price.value;
      if cards[part].price == Some(recommended) {
        counters := counters.(stillRight := counters.stillRight + 1);
      }
      SetPrice(part, recommended);
    }

    method PlanBrp(link: Entry, s: Settings)
      requires link.Brp? && link.part in cards
      modifies this
      ensures Value() == Step(old(Value()), link, s)
    {
      counters := counters.(brp := counters.brp + 1);
      if cards[link.part].provenance == ValidManualException {
        return;
      }
      if link.manual {
        Mark(link.part, Unverified);
        return;
      }
      if !link.current {
        if cards[link.part].price != None {
          cards := cards[link.part := cards[link.part].(price := None)];
          counters := counters.(pricesChanged := counters.pricesChanged + 1);
          touched := touched + {link.part};
        }
        MarkSourceMissing(link.part);
        counters := counters.(skipped := counters.skipped + 1);
        return;
      }
      var price := None;
      if Positive(link.own.wholesale) {
        price := BrpPrice(PriceSource(link.own, link.borrowed, true), s);
      }
      Conclude(link.part, price);
      counters := counters.(overridden := counters.overridden + One(link.manual));
    }

    method PlanPolaris(link: Entry, s: Settings)
      requires link.Polaris? && link.part in cards
      modifies this
      ensures Value() == Step(old(Value()), link, s)
    {
      counters := counters.(polaris := counters.polaris + 1);
      if cards[link.part].provenance == ValidManualException {
        return;
      }
      if link.manual {
        Mark(link.part, Unverified);
        return;
      }
      var price := None;
      if Positive(link.own.wholesale) {
        price := PolarisPrice(PriceSource(link.own, link.borrowed, true), s);
      }
      Conclude(link.part, price);
      counters := counters.(overridden := counters.overridden + One(link.manual));
    }

    method PlanAftermarket(entry: Entry, s: Settings)
      requires entry.Aftermarket? && entry.part in cards
      modifies this
      ensures Value() == Step(old(Value()), entry, s)
    {
      counters := counters.(aftermarket := counters.aftermarket + 1);
      Conclude(entry.part, CustomerPrice(entry.dealerCost, s.rate, s.brpMarkup));
    }

    method PlanArcticCat(entry: Entry, s: Settings)
      requires entry.ArcticCat? && entry.part in cards
      modifies this
      ensures Value() == Step(old(Value()), entry, s)
    {
      counters := counters.(arcticCat := counters.arcticCat + 1);
      if cards[entry.part].provenance == ValidManualException {
        return;
      }
      var price := None;
      if Positive(entry.dealerPrice) {
        price := CustomerPrice(entry.dealerPrice, s.rate, s.brpMarkup);
      }
      Conclude(entry.part, price);
    }

    /** Which kind a row is decides what is done with it. */
    method PlanOne(entry: Entry, s: Settings)
      requires entry.part in cards
      modifies this
      ensures Value() == Step(old(Value()), entry, s)
    {
      match entry
      case Brp(_, _, _, _, _) => PlanBrp(entry, s);
      case Polaris(_, _, _, _) => PlanPolaris(entry, s);
      case Aftermarket(_, _) => PlanAftermarket(entry, s);
      case ArcticCat(_, _) => PlanArcticCat(entry, s);
      case Unlinked(part) => MarkNotApplicable(part);
    }

    /** One catalogue after another. */
    method PlanAll(entries: seq<Entry>, s: Settings)
      requires Known(entries, cards)
      modifies this
      ensures Value() == Planned(old(Value()), entries, s)
    {
      ghost var start := Value();
      for k := 0 to |entries|
        invariant cards.Keys == start.cards.Keys
        invariant Value() == Planned(start, entries[..k], s)
      {
        assert entries[..k + 1][..k] == entries[..k];
        PlanOne(entries[k], s);
      }
      assert entries[..|entries|] == entries;
    }
  }

  /** Builds the plan, or names the catalogues nobody knows. */
  method PlanRefresh(shop: Shop, s: Settings, catalogs: set<string>)
      returns (plan: Result<LinkedPriceRefreshPlan, set<string>>)
    requires Proper(shop)
    ensures Selected(catalogs) <= PRICED ==> plan.Ok? && fresh(plan.value) && plan.value.Value() == Refresh(shop, s, catalogs)
    ensures !(Selected(catalogs) <= PRICED) ==> plan == Err(catalogs - PRICED)
  {
    var selected := Selected(catalogs);
    if selected - PRICED != {} {
      return Err(catalogs - PRICED);
    }
    EntriesKnown(shop, catalogs);
    var built := new LinkedPriceRefreshPlan(shop.cards);
    PlannedInParts(FreshPlan(shop.cards), Chosen(shop, selected), UnlinkedEntries(shop.parts, Links(shop)), s);
    built.PlanAll(Chosen(shop, selected), s);
    built.PlanAll(UnlinkedEntries(shop.parts, Links(shop)), s);
    plan := Ok(built);
  }

  /** Applies the plan: only the cards it touched are written. */
  method ApplyRefresh(shop: Shop, s: Settings, catalogs: set<string>)
      returns (cards: map<int, Card>, updated: nat)
    requires Proper(shop) && Selected(catalogs) <= PRICED
    ensures var plan := Refresh(shop, s, catalogs);
      && cards == Written(shop.cards, plan)
      && updated == plan.counters.pricesChanged
  {
    var plan := PlanRefresh(shop, s, catalogs);
    var built := plan.value;
    cards := map part | part in shop.cards :: if part in built.touched then built.cards[part] else shop.cards[part];
    updated := built.counters.pricesChanged;
  }

  function Written(cards: map<int, Card>, plan: Plan): map<int, Card>
    requires plan.cards.Keys == cards.Keys
  {
    map part | part in cards :: if part in plan.touched then plan.cards[part] else cards[part]
  }
}
