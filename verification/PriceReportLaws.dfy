/** What the refresh counts and how the audit judges, said of rows, cards and the price formula alone. */
module PriceReportLaws {
  import opened Basics
  import opened Pricing
  import opened PriceRefresh
  import opened PriceRefreshLaws
  import opened PriceAudit
  import opened PriceCardLaws

  // ---------------------------------------------------------------- what the refresh counts

  datatype What =
    | Calculated | StillRight | Skipped | CertificateWritten | CertificateCleared
    | OfBrp | OfPolaris | OfAftermarket | OfArcticCat

  /** The row makes a price of at least half a rouble for a card that is not kept as an exception. */
  predicate MakesAPrice(entry: Entry, card: Card, s: Settings) {
    && OwnCents(entry).Some? && !IsKept(entry, card)
    && 2 * (OwnCents(entry).value * s.rate * (10_000 + OwnMarkup(entry, s))) >= 10_000_000_000
  }

  /** Whether a row counts under a heading, by the card before and after. */
  predicate IsCounted(what: What, entry: Entry, before: Card, after: Card, s: Settings) {
    match what
    case Calculated => MakesAPrice(entry, before, s)
    case StillRight => MakesAPrice(entry, before, s) && before.price == after.price
    case Skipped => !entry.Unlinked? && !ByHand(entry) && !IsKept(entry, before) && !MakesAPrice(entry, before, s)
    case CertificateWritten => after.certified.Some? && before.certified != after.certified
    case CertificateCleared => after.certified.None? && before.certified.Some?
    case OfBrp => entry.Brp?
    case OfPolaris => entry.Polaris?
    case OfAftermarket => entry.Aftermarket?
    case OfArcticCat => entry.ArcticCat?
  }

  function CounterOf(c: Counters, what: What): nat {
    match what
    case Calculated => c.calculated
    case StillRight => c.stillRight
    case Skipped => c.skipped
    case CertificateWritten => c.written
    case CertificateCleared => c.cleared
    case OfBrp => c.brp
    case OfPolaris => c.polaris
    case OfAftermarket => c.aftermarket
    case OfArcticCat => c.arcticCat
  }

  function CountRows(what: What, entries: seq<Entry>, before: map<int, Card>, after: map<int, Card>, s: Settings): nat
    requires Known(entries, before) && Known(entries, after)
  {
    if entries == [] then 0
    else
      var last := entries[|entries| - 1];
      CountRows(what, entries[..|entries| - 1], before, after, s)
      + One(IsCounted(what, last, before[last.part], after[last.part], s))
  }

  lemma HalfARoubleMakesOne(cents: int, rate: int, markup: int)
    ensures Positive(CustomerPrice(Some(cents), rate, markup)) <==> 2 * (cents * rate * (10_000 + markup)) >= 10_000_000_000
  {
    AtLeastHalf(RawPrice(cents, rate, markup), UNIT);
  }

  lemma AtLeastHalf(numerator: int, unit: int)
    requires unit > 0
    ensures HalfUp(numerator, unit) > 0 <==> 2 * numerator >= unit
  {
    HalfUpIsNearest(numerator, unit);
    var whole := HalfUp(numerator, unit);
    if whole > 0 {
      ProductsApart(1, whole, 0, unit);
    } else {
      ProductsApart(whole, 0, 0, unit);
    }
  }

  lemma CertifiedIff(entry: Entry, card: Card, s: Settings)
    ensures VerdictOn(entry, card, s).Certify? <==> MakesAPrice(entry, card, s)
    ensures VerdictOn(entry, card, s).MissSource? || VerdictOn(entry, card, s).Discontinue? <==>
      !entry.Unlinked? && !ByHand(entry) && !IsKept(entry, card) && !MakesAPrice(entry, card, s)
  {
    if OwnCents(entry).Some? {
      HalfARoubleMakesOne(OwnCents(entry).value, s.rate, OwnMarkup(entry, s));
    }
    if entry.Brp? {
      SurchargeIff(entry.own.status);
    }
  }

  lemma RowIsCounted(plan: Plan, entry: Entry, s: Settings, what: What)
    requires entry.part in plan.cards
    ensures var after := Step(plan, entry, s);
      CounterOf(after.counters, what)
        == CounterOf(plan.counters, what) + One(IsCounted(what, entry, plan.cards[entry.part], after.cards[entry.part], s))
  {
    CertifiedIff(entry, plan.cards[entry.part], s);
  }

  lemma {:induction false} RowsAreCounted(
    cards: map<int, Card>, entries: seq<Entry>, s: Settings, what: What, after: map<int, Card>)
    requires Known(entries, cards) && OneEntryEach(entries) && Known(entries, after)
    requires forall k :: 0 <= k < |entries| ==>
      after[entries[k].part] == After(cards[entries[k].part], VerdictOn(entries[k], cards[entries[k].part], s))
    ensures CounterOf(Planned(FreshPlan(cards), entries, s).counters, what) == CountRows(what, entries, cards, after, s)
  {
    if entries != [] {
      var before, entry := entries[..|entries| - 1], entries[|entries| - 1];
      forall k | 0 <= k < |before|
        ensures after[before[k].part] == After(cards[before[k].part], VerdictOn(before[k], cards[before[k].part], s))
      {
        assert before[k] == entries[k];
      }
      RowsAreCounted(cards, before, s, what, after);
      OthersAreUntouched(FreshPlan(cards), before, s, entry.part);
      RowIsCounted(Planned(FreshPlan(cards), before, s), entry, s, what);
    }
  }

  /** Every counter of a refresh is the number of its rows that count under it, by the cards before and after. */
  lemma CountersAreTrue(shop: Shop, s: Settings, catalogs: set<string>, what: What)
    requires Proper(shop) && OneEntryEach(Links(shop))
    ensures var entries := Entries(shop, catalogs);
      && Known(entries, shop.cards) && Known(entries, Refreshed(shop, s, catalogs))
      && CounterOf(Refresh(shop, s, catalogs).counters, what)
           == CountRows(what, entries, shop.cards, Refreshed(shop, s, catalogs), s)
  {
    var entries, after := Entries(shop, catalogs), Refreshed(shop, s, catalogs);
    EntriesKnown(shop, catalogs);
    EntriesAreOneEach(shop, catalogs);
    forall k | 0 <= k < |entries|
      ensures after[entries[k].part] == After(shop.cards[entries[k].part], VerdictOn(entries[k], shop.cards[entries[k].part], s))
    {
      WrittenByItsRow(shop, s, catalogs, entries[k], shop.cards[entries[k].part]);
    }
    RowsAreCounted(shop.cards, entries, s, what, after);
  }

  // ---------------------------------------------------------------- how the audit judges

  /** The cents the audit goes by: a positive price of the row itself, else that of the row it leads to, else its own. */
  function AuditedCents(entry: Entry): Option<int> {
    match entry
    case Brp(_, _, current, own, borrowed) =>
      if !current then None
      else if own.wholesale.Some? && own.wholesale.value > 0 then WithSurcharge(own)
      else if borrowed.Some? then WithSurcharge(borrowed.value)
      else WithSurcharge(own)
    case Polaris(_, _, own, borrowed) =>
      if (own.wholesale.Some? && own.wholesale.value > 0) || borrowed.None? then own.wholesale else borrowed.value.wholesale
    case Aftermarket(_, dealerCost) => dealerCost
    case ArcticCat(_, dealerPrice) => dealerPrice
    case Unlinked(_) => None
  }

  function WithSurcharge(quote: Quote): Option<int> {
    if quote.wholesale.None? then None else Some(quote.wholesale.value + if ReadsVin(quote.status) then 2500 else 0)
  }

  predicate IsManual(entry: Entry, card: Card) {
    ByHand(entry) || (entry.ArcticCat? && card.provenance == ValidManualException)
  }

  lemma AuditedCentsAre(entry: Entry)
    ensures AuditedWholesale(entry) == AuditedCents(entry)
  {
    if entry.Brp? {
      SurchargeIff(entry.own.status);
      if entry.borrowed.Some? {
        SurchargeIff(entry.borrowed.value.status);
      }
    }
  }

  /** A card without catalogue is not judged, and one whose row has no price to go by is missing its source. */
  lemma UnpricedRowIsJudged(entry: Entry, card: Card, s: Settings)
    requires AuditedCents(entry).None?
    ensures RowOf(entry, card, s).category == if entry.Unlinked? then FormulaNotApplicable else WholesaleMissing
    ensures RowOf(entry, card, s).expected.None? && RowOf(entry, card, s).manual == IsManual(entry, card)
  {
    AuditedCentsAre(entry);
  }

  /** Any other card is judged by how far its price is from the whole roubles the formula gives. */
  lemma PricedRowIsJudged(entry: Entry, card: Card, s: Settings, roubles: int)
    requires AuditedCents(entry).Some? && IsPriceOf(roubles, AuditedCents(entry).value, s.rate, OwnMarkup(entry, s))
    ensures var row, kopecks := RowOf(entry, card, s), if card.price.Some? then card.price.value else 0;
      && row.expected == (if roubles > 0 then Some(100 * roubles) else None)
      && row.actual == card.price && row.part == entry.part && row.manual == IsManual(entry, card)
      && (row.category == SourceInvalid <==> roubles <= 0)
      && (row.category == CustomerPriceMissing <==> roubles > 0 && kopecks <= 0)
      && (row.category == ExactMatch <==> roubles > 0 && kopecks == 100 * roubles)
      && (row.category == ManualOverride <==> roubles > 0 && kopecks > 0 && kopecks != 100 * roubles && IsManual(entry, card))
      && (row.category == RoundingOnly <==>
            roubles > 0 && kopecks > 0 && kopecks != 100 * roubles && !IsManual(entry, card) && -100 <= kopecks - 100 * roubles <= 100)
      && (row.category == PriceMismatch <==>
            roubles > 0 && kopecks > 0 && !IsManual(entry, card) && !(-100 <= kopecks - 100 * roubles <= 100))
  {
    AuditedCentsAre(entry);
    CustomerPriceIff(roubles, AuditedCents(entry).value, s.rate, OwnMarkup(entry, s));
  }

  // ---------------------------------------------------------------- the other counters of the audit

  /** An earlier row is about the same card. */
  predicate IsMetAgain(entries: seq<Entry>, k: nat)
    requires k < |entries|
  {
    exists j | 0 <= j < k :: entries[j].part == entries[k].part
  }

  /** The card shows a price that no row can vouch for. */
  predicate IsUnproved(row: AuditRow) {
    row.actual.Some? && row.actual.value > 0 && row.category in {WholesaleMissing, SourceInvalid, FormulaNotApplicable}
  }

  predicate IsOnTheSite(row: AuditRow, shelf: Shelf) {
    row.actual.Some? && row.actual.value > 0 && row.part in shelf.onSite
  }

  /** All cards; those with a positive price on the site; of these, those with something left in stock. */
  predicate IsWithin(row: AuditRow, shelf: Shelf, scope: Scope) {
    match scope
    case AllCards => true
    case PublicWithPrice => IsOnTheSite(row, shelf)
    case InStockWithPrice => IsOnTheSite(row, shelf) && row.part in shelf.inStock
  }

  /** The rows within a scope, of one category or of any. */
  function RowsWithin(entries: seq<Entry>, cards: map<int, Card>, shelf: Shelf, s: Settings, scope: Scope, category: Option<Category>): nat
    requires Known(entries, cards)
  {
    if entries == [] then 0
    else
      var entry := entries[|entries| - 1];
      var row := RowOf(entry, cards[entry.part], s);
      RowsWithin(entries[..|entries| - 1], cards, shelf, s, scope, category)
      + One(IsWithin(row, shelf, scope) && (category == None || category == Some(row.category)))
  }

  lemma ScopeIff(row: AuditRow, shelf: Shelf, scope: Scope)
    ensures InScope(row, shelf, scope) <==> IsWithin(row, shelf, scope)
  {
  }

  lemma {:induction false} ScopesAreCounted(
    entries: seq<Entry>, cards: map<int, Card>, shelf: Shelf, s: Settings, scope: Scope, category: Option<Category>)
    requires Known(entries, cards)
    ensures RowsIn(entries, cards, shelf, s, scope, category) == RowsWithin(entries, cards, shelf, s, scope, category)
  {
    if entries != [] {
      var entry := entries[|entries| - 1];
      ScopesAreCounted(entries[..|entries| - 1], cards, shelf, s, scope, category);
      ScopeIff(RowOf(entry, cards[entry.part], s), shelf, scope);
    }
  }

  /** Over all cards, the public priced ones and those of them in stock: how many there are, and how many of each category. */
  lemma TalliesAreTrue(entries: seq<Entry>, cards: map<int, Card>, shelf: Shelf, s: Settings, scope: Scope, category: Category)
    requires Known(entries, cards)
    ensures var report := Audited(entries, cards, shelf, s);
      && TotalOf(report, scope) == RowsWithin(entries, cards, shelf, s, scope, None)
      && Count(TallyOf(report, scope), category) == RowsWithin(entries, cards, shelf, s, scope, Some(category))
  {
    CategoriesAreCounted(entries, cards, shelf, s, scope, category);
    ScopesAreCounted(entries, cards, shelf, s, scope, None);
    ScopesAreCounted(entries, cards, shelf, s, scope, Some(category));
  }

  function MetAgain(entries: seq<Entry>): nat {
    if entries == [] then 0 else MetAgain(entries[..|entries| - 1]) + One(IsMetAgain(entries, |entries| - 1))
  }

  function Unproved(entries: seq<Entry>, cards: map<int, Card>, s: Settings): nat
    requires Known(entries, cards)
  {
    if entries == [] then 0
    else
      var last := entries[|entries| - 1];
      Unproved(entries[..|entries| - 1], cards, s) + One(IsUnproved(RowOf(last, cards[last.part], s)))
  }

  lemma OneRowIsWeighed(report: Report, again: bool, row: AuditRow, shelf: Shelf)
    ensures AuditOne(report, again, row, shelf).severalSources == report.severalSources + One(again)
    ensures AuditOne(report, again, row, shelf).unverifiable == report.unverifiable + One(IsUnproved(row))
  {
  }

  lemma SeenIff(entries: seq<Entry>)
    requires entries != []
    ensures entries[|entries| - 1].part in Seen(entries[..|entries| - 1]) <==> IsMetAgain(entries, |entries| - 1)
  {
    var before, part := entries[..|entries| - 1], entries[|entries| - 1].part;
    if part in Seen(before) {
      var entry :| entry in before && entry.part == part;
      var j :| 0 <= j < |before| && before[j] == entry;
      assert entries[j].part == part;
    }
    if j :| 0 <= j < |before| && entries[j].part == part {
      assert before[j] in before && before[j].part == part;
    }
  }

  /** The audit counts the rows whose card was met before, and the shown prices that nothing vouches for. */
  lemma {:induction false} AuditCountersAreTrue(entries: seq<Entry>, cards: map<int, Card>, shelf: Shelf, s: Settings)
    requires Known(entries, cards)
    ensures Audited(entries, cards, shelf, s).severalSources == MetAgain(entries)
    ensures Audited(entries, cards, shelf, s).unverifiable == Unproved(entries, cards, s)
  {
    if entries != [] {
      var before, last := entries[..|entries| - 1], entries[|entries| - 1];
      AuditCountersAreTrue(before, cards, shelf, s);
      SeenIff(entries);
      OneRowIsWeighed(Audited(before, cards, shelf, s), last.part in Seen(before), RowOf(last, cards[last.part], s), shelf);
    }
  }
}
