/** The independent pass that compares each customer price with the wholesale price of its catalogue. */
module PriceAudit {
  import opened Basics
  import opened Pricing
  import opened PriceRefresh
  import opened PriceRefreshLaws

  datatype Category =
    | ExactMatch | RoundingOnly | PriceMismatch | WholesaleMissing | SourceInvalid | CustomerPriceMissing
    | FormulaNotApplicable | ManualOverride

  const ONE_RUB := 100

  function Classify(expected: Option<int>, actual: Option<int>, manual: bool, missing: bool): Category {
    if expected.None? then (if missing then WholesaleMissing else SourceInvalid)
    else if actual.None? || actual.value <= 0 then CustomerPriceMissing
    else if actual == expected then ExactMatch
    else if manual then ManualOverride
    else if -ONE_RUB <= actual.value - expected.value <= ONE_RUB then RoundingOnly
    else PriceMismatch
  }

  function Expected(wholesale: Option<int>, rate: int, markup: int): Option<int> {
    var price := CustomerPrice(wholesale, rate, markup);
    if Positive(price) then Some(100 * price.value) else None
  }

  datatype AuditRow = AuditRow(part: int, category: Category, expected: Option<int>, actual: Option<int>, manual: bool)

  /** The wholesale price the audit goes by: the row's own, or the one its replacement chain leads to. */
  function AuditedWholesale(entry: Entry): Option<int> {
    match entry
    case Brp(_, _, current, own, borrowed) =>
      var source := if current then PriceSource(own, borrowed, true) else None;
      if source.None? then None else EffectiveWholesale(source.value.wholesale, source.value.status)
    case Polaris(_, _, own, borrowed) =>
      var source := PriceSource(own, borrowed, true);
      if source.None? then None else source.value.wholesale
    case Aftermarket(_, dealerCost) => dealerCost
    case ArcticCat(_, dealerPrice) => dealerPrice
    case Unlinked(_) => None
  }

  function MarkupOf(entry: Entry, s: Settings): int {
    if entry.Polaris? then s.polarisMarkup else s.brpMarkup
  }

  predicate CountsAsManual(entry: Entry, card: Card) {
    match entry
    case Brp(_, manual, _, _, _) => manual
    case Polaris(_, manual, _, _) => manual
    case Aftermarket(_, _) => false
    case ArcticCat(_, _) => card.provenance == ValidManualException
    case Unlinked(_) => false
  }

  function RowOf(entry: Entry, card: Card, s: Settings): AuditRow {
    var wholesale := AuditedWholesale(entry);
    var expected := Expected(wholesale, s.rate, MarkupOf(entry, s));
    var manual := CountsAsManual(entry, card);
    var category :=
      if entry.Unlinked? then FormulaNotApplicable else Classify(expected, card.price, manual, wholesale.None?);
    AuditRow(entry.part, category, expected, card.price, manual)
  }

  // ---------------------------------------------------------------- the report

  /** The cards on the public site, and those with something left in stock. */
  datatype Shelf = Shelf(onSite: set<int>, inStock: set<int>)

  type Tally = map<Category, nat>

  datatype Report = Report(
    audited: nat, byCategory: Tally, publicWithPrice: nat, publicByCategory: Tally,
    inStockWithPrice: nat, inStockByCategory: Tally, severalSources: nat, unverifiable: nat)

  const EMPTY_REPORT := Report(0, map[], 0, map[], 0, map[], 0, 0)

  predicate Unverifiable(category: Category) {
    category in {WholesaleMissing, SourceInvalid, FormulaNotApplicable}
  }

  function Count(tally: Tally, category: Category): nat {
    if category in tally then tally[category] else 0
  }

  function Counted(tally: Tally, category: Category, really: bool): Tally {
    if really then tally[category := Count(tally, category) + 1] else tally
  }

  datatype Scope = AllCards | PublicWithPrice | InStockWithPrice

  predicate InScope(row: AuditRow, shelf: Shelf, scope: Scope) {
    match scope
    case AllCards => true
    case PublicWithPrice => Positive(row.actual) && row.part in shelf.onSite
    case InStockWithPrice => Positive(row.actual) && row.part in shelf.onSite && row.part in shelf.inStock
  }

  function Account(report: Report, row: AuditRow, shelf: Shelf): Report {
    var shown, held := InScope(row, shelf, PublicWithPrice), InScope(row, shelf, InStockWithPrice);
    Report(report.audited + 1, Counted(report.byCategory, row.category, true),
           report.publicWithPrice + One(shown), Counted(report.publicByCategory, row.category, shown),
           report.inStockWithPrice + One(held), Counted(report.inStockByCategory, row.category, held),
           report.severalSources,
           report.unverifiable + One(Positive(row.actual) && Unverifiable(row.category)))
  }

  /** One row of a stream: is its card met again, and what does it add. */
  function AuditOne(report: Report, again: bool, row: AuditRow, shelf: Shelf): Report {
    Account(report.(severalSources := report.severalSources + One(again)), row, shelf)
  }

  function Seen(entries: seq<Entry>): set<int> {
    set entry | entry in entries :: entry.part
  }

  function Audited(entries: seq<Entry>, cards: map<int, Card>, shelf: Shelf, s: Settings): Report
    requires Known(entries, cards)
  {
    if entries == [] then EMPTY_REPORT
    else
      var before, entry := entries[..|entries| - 1], entries[|entries| - 1];
      AuditOne(Audited(before, cards, shelf, s), entry.part in Seen(before), RowOf(entry, cards[entry.part], s), shelf)
  }

  /** Every catalogue is audited, then every card that no catalogue named. */
  function AuditEntries(shop: Shop): seq<Entry> {
    Links(shop) + UnlinkedEntries(shop.parts, Links(shop))
  }

  lemma AuditEntriesKnown(shop: Shop)
    requires Proper(shop)
    ensures Known(AuditEntries(shop), shop.cards)
    ensures AuditEntries(shop) == Entries(shop, {})
  {
    EntriesKnown(shop, {});
  }

  method AccountShown(before: Report, row: AuditRow, shelf: Shelf) returns (report: Report)
    ensures var shown, held := InScope(row, shelf, PublicWithPrice), InScope(row, shelf, InStockWithPrice);
      report == before.(
        publicWithPrice := before.publicWithPrice + One(shown), publicByCategory := Counted(before.publicByCategory, row.category, shown),
        inStockWithPrice := before.inStockWithPrice + One(held), inStockByCategory := Counted(before.inStockByCategory, row.category, held))
  {
    report := before;
    if row.part in shelf.onSite && Positive(row.actual) {
      report := report.(
        publicWithPrice := report.publicWithPrice + 1, publicByCategory := Counted(report.publicByCategory, row.category, true));
      if row.part in shelf.inStock {
        report := report.(
          inStockWithPrice := report.inStockWithPrice + 1, inStockByCategory := Counted(report.inStockByCategory, row.category, true));
      }
    }
  }

  /** What one row adds to the counters, step by step. */
  method AccountRow(before: Report, row: AuditRow, shelf: Shelf) returns (report: Report)
    ensures report == Account(before, row, shelf)
  {
    report := before.(audited := before.audited + 1, byCategory := Counted(before.byCategory, row.category, true));
    report := AccountShown(report, row, shelf);
    if Positive(row.actual) && Unverifiable(row.category) {
      report := report.(unverifiable := report.unverifiable + 1);
    }
  }

  lemma NextSeen(before: seq<Entry>, entry: Entry)
    ensures Seen(before + [entry]) == Seen(before) + {entry.part}
  {
    var all := before + [entry];
    assert forall e :: e in all <==> e in before || e == entry;
  }

  method AuditStream(entries: seq<Entry>, cards: map<int, Card>, shelf: Shelf, s: Settings) returns (report: Report)
    requires Known(entries, cards)
    ensures report == Audited(entries, cards, shelf, s)
  {
    report := EMPTY_REPORT;
    var seen := {};
    for k := 0 to |entries|
      invariant report == Audited(entries[..k], cards, shelf, s) && seen == Seen(entries[..k])
    {
      var entry := entries[k];
      assert entries[..k + 1] == entries[..k] + [entry] && entries[..k + 1][..k] == entries[..k];
      NextSeen(entries[..k], entry);
      if entry.part in seen {
        report := report.(severalSources := report.severalSources + 1);
      }
      report := AccountRow(report, RowOf(entry, cards[entry.part], s), shelf);
      seen := seen + {entry.part};
    }
    assert entries[..|entries|] == entries;
  }

  method AuditPrices(shop: Shop, shelf: Shelf, s: Settings) returns (report: Report)
    requires Proper(shop)
    ensures Known(AuditEntries(shop), shop.cards) && report == Audited(AuditEntries(shop), shop.cards, shelf, s)
  {
    AuditEntriesKnown(shop);
    report := AuditStream(AuditEntries(shop), shop.cards, shelf, s);
  }

  // ---------------------------------------------------------------- every card once

  /** The audited rows of one scope, of one category or of any. */
  function RowsIn(entries: seq<Entry>, cards: map<int, Card>, shelf: Shelf, s: Settings, scope: Scope, category: Option<Category>): nat
    requires Known(entries, cards)
  {
    if entries == [] then 0
    else
      var entry := entries[|entries| - 1];
      var row := RowOf(entry, cards[entry.part], s);
      RowsIn(entries[..|entries| - 1], cards, shelf, s, scope, category)
      + One(InScope(row, shelf, scope) && (category.None? || row.category == category.value))
  }

  function TallyOf(report: Report, scope: Scope): Tally {
    match scope
    case AllCards => report.byCategory
    case PublicWithPrice => report.publicByCategory
    case InStockWithPrice => report.inStockByCategory
  }

  function TotalOf(report: Report, scope: Scope): nat {
    match scope
    case AllCards => report.audited
    case PublicWithPrice => report.publicWithPrice
    case InStockWithPrice => report.inStockWithPrice
  }

  lemma OneRowIsCounted(report: Report, again: bool, row: AuditRow, shelf: Shelf, scope: Scope, category: Category)
    ensures var after := AuditOne(report, again, row, shelf);
      && Count(TallyOf(after, scope), category)
         == Count(TallyOf(report, scope), category) + One(InScope(row, shelf, scope) && row.category == category)
      && TotalOf(after, scope) == TotalOf(report, scope) + One(InScope(row, shelf, scope))
  {
  }

  lemma {:induction false} CategoriesAreCounted(
    entries: seq<Entry>, cards: map<int, Card>, shelf: Shelf, s: Settings, scope: Scope, category: Category)
    requires Known(entries, cards)
    ensures var report := Audited(entries, cards, shelf, s);
      && Count(TallyOf(report, scope), category) == RowsIn(entries, cards, shelf, s, scope, Some(category))
      && TotalOf(report, scope) == RowsIn(entries, cards, shelf, s, scope, None)
      && report.audited == |entries|
  {
    if entries != [] {
      var before, entry := entries[..|entries| - 1], entries[|entries| - 1];
      CategoriesAreCounted(before, cards, shelf, s, scope, category);
      var report, row := Audited(before, cards, shelf, s), RowOf(entry, cards[entry.part], s);
      OneRowIsCounted(report, entry.part in Seen(before), row, shelf, scope, category);
    }
  }

  lemma {:induction false} OneSourceEach(entries: seq<Entry>, cards: map<int, Card>, shelf: Shelf, s: Settings)
    requires Known(entries, cards) && OneEntryEach(entries)
    ensures Audited(entries, cards, shelf, s).severalSources == 0
  {
    if entries != [] {
      OneSourceEach(entries[..|entries| - 1], cards, shelf, s);
    }
  }

  lemma {:induction false} PartsOf(entries: seq<Entry>)
    requires OneEntryEach(entries)
    ensures |Seen(entries)| == |entries|
  {
    if entries != [] {
      var before, entry := entries[..|entries| - 1], entries[|entries| - 1];
      PartsOf(before);
      assert entries == before + [entry];
      assert Seen(entries) == Seen(before) + {entry.part};
    }
  }

  /** Each card is audited once, and counted in its category among all, the public priced and those in stock. */
  lemma EveryCardIsAuditedOnce(shop: Shop, shelf: Shelf, s: Settings, scope: Scope, category: Category)
    requires Proper(shop) && OneEntryEach(Links(shop))
    requires forall part :: part in shop.cards ==> part in shop.parts
    ensures Known(AuditEntries(shop), shop.cards)
    ensures var report := Audited(AuditEntries(shop), shop.cards, shelf, s);
      && report.audited == |shop.cards| && report.severalSources == 0
      && Count(TallyOf(report, scope), category) == RowsIn(AuditEntries(shop), shop.cards, shelf, s, scope, Some(category))
      && TotalOf(report, scope) == RowsIn(AuditEntries(shop), shop.cards, shelf, s, scope, None)
  {
    var entries := AuditEntries(shop);
    AuditEntriesKnown(shop);
    EntriesAreOneEach(shop, {});
    CategoriesAreCounted(entries, shop.cards, shelf, s, scope, category);
    OneSourceEach(entries, shop.cards, shelf, s);
    PartsOf(entries);
    forall part | part in shop.cards ensures part in Seen(entries) {
      if IsLinked(Links(shop), part) {
        var k :| 0 <= k < |Links(shop)| && Links(shop)[k].part == part;
        assert entries[k].part == part && entries[k] in entries;
      } else {
        UnlinkedMember(shop.parts, Links(shop), Unlinked(part));
        assert Unlinked(part) in entries;
      }
    }
    assert Seen(entries) == shop.cards.Keys;
    assert |shop.cards.Keys| == |shop.cards|;
  }

  // ---------------------------------------------------------------- refresh and audit agree

  /** What the refresh works out is what the audit expects. */
  lemma CalculatedIsExact(entry: Entry, card: Card, s: Settings)
    requires VerdictOn(entry, card, s).Certify?
    ensures RowOf(entry, After(card, VerdictOn(entry, card, s)), s).category == ExactMatch
  {
  }

  /** The card of an entry, as it stands once the refresh is written. */
  function Refreshed(shop: Shop, s: Settings, catalogs: set<string>): map<int, Card>
    requires Proper(shop)
  {
    Written(shop.cards, Refresh(shop, s, catalogs))
  }

  /** An entry of the refresh, with the card it is about. */
  ghost predicate IsEntryOf(shop: Shop, catalogs: set<string>, entry: Entry, card: Card) {
    && Proper(shop) && OneEntryEach(Links(shop)) && entry in Entries(shop, catalogs)
    && entry.part in shop.cards && shop.cards[entry.part] == card
  }

  /** A written card holds what its own row decided. */
  lemma WrittenByItsRow(shop: Shop, s: Settings, catalogs: set<string>, entry: Entry, card: Card)
    requires IsEntryOf(shop, catalogs, entry, card)
    ensures entry.part in Refreshed(shop, s, catalogs)
    ensures Refreshed(shop, s, catalogs)[entry.part] == After(card, VerdictOn(entry, card, s))
  {
    var entries := Entries(shop, catalogs);
    var k: nat :| k < |entries| && entries[k] == entry;
    OnlyChangedCardsAreWritten(shop, s, catalogs);
    EntriesKnown(shop, catalogs);
    EntriesAreOneEach(shop, catalogs);
    EachCardByItsRow(FreshPlan(shop.cards), entries, s, k);
  }

  /** Each card the refresh worked a price out for is an exact match afterwards, whichever catalogues were chosen. */
  lemma RefreshedCardsMatch(shop: Shop, s: Settings, catalogs: set<string>, entry: Entry, card: Card)
    requires IsEntryOf(shop, catalogs, entry, card) && VerdictOn(entry, card, s).Certify?
    ensures entry.part in Refreshed(shop, s, catalogs)
    ensures RowOf(entry, Refreshed(shop, s, catalogs)[entry.part], s).category == ExactMatch
  {
    WrittenByItsRow(shop, s, catalogs, entry, card);
    CalculatedIsExact(entry, card, s);
  }

  lemma {:induction false} CalculatedAreExactSoFar(
    cards: map<int, Card>, entries: seq<Entry>, shelf: Shelf, s: Settings, after: map<int, Card>)
    requires Known(entries, cards) && OneEntryEach(entries) && Known(entries, after)
    requires forall k :: 0 <= k < |entries| ==>
      after[entries[k].part] == After(cards[entries[k].part], VerdictOn(entries[k], cards[entries[k].part], s))
    ensures Planned(FreshPlan(cards), entries, s).counters.calculated <= RowsIn(entries, after, shelf, s, AllCards, Some(ExactMatch))
  {
    if entries != [] {
      var before, entry := entries[..|entries| - 1], entries[|entries| - 1];
      forall k | 0 <= k < |before|
        ensures after[before[k].part] == After(cards[before[k].part], VerdictOn(before[k], cards[before[k].part], s))
      {
        assert before[k] == entries[k];
      }
      CalculatedAreExactSoFar(cards, before, shelf, s, after);
      OthersAreUntouched(FreshPlan(cards), before, s, entry.part);
      if VerdictOn(entry, cards[entry.part], s).Certify? {
        CalculatedIsExact(entry, cards[entry.part], s);
      }
    }
  }

  /** So after a refresh of all catalogues the audit counts at least as many exact matches as prices were calculated. */
  lemma CalculatedAreCounted(shop: Shop, shelf: Shelf, s: Settings)
    requires Proper(shop) && OneEntryEach(Links(shop))
    ensures var after := shop.(cards := Refreshed(shop, s, {}));
      && Proper(after) && Known(AuditEntries(after), after.cards)
      && Refresh(shop, s, {}).counters.calculated <= Count(Audited(AuditEntries(after), after.cards, shelf, s).byCategory, ExactMatch)
  {
    var plan, entries := Refresh(shop, s, {}), Entries(shop, {});
    var after := shop.(cards := plan.cards);
    OnlyChangedCardsAreWritten(shop, s, {});
    EntriesKnown(shop, {});
    EntriesAreOneEach(shop, {});
    assert Proper(after);
    AuditEntriesKnown(shop);
    AuditEntriesKnown(after);
    assert AuditEntries(after) == entries;
    forall k | 0 <= k < |entries|
      ensures plan.cards[entries[k].part] == After(shop.cards[entries[k].part], VerdictOn(entries[k], shop.cards[entries[k].part], s))
    {
      EachCardByItsRow(FreshPlan(shop.cards), entries, s, k);
    }
    CalculatedAreExactSoFar(shop.cards, entries, shelf, s, plan.cards);
    CategoriesAreCounted(entries, plan.cards, shelf, s, AllCards, ExactMatch);
  }

  // ---------------------------------------------------------------- rounding is never a mismatch

  /** A positive price that is any floor, ceiling or other rounding of the exact one is never a mismatch. */
  lemma RoundingIsNeverAMismatch(entry: Entry, card: Card, s: Settings, roubles: int)
    requires !entry.Unlinked? && AuditedWholesale(entry).Some?
    requires IsARounding(roubles, RawPrice(AuditedWholesale(entry).value, s.rate, MarkupOf(entry, s)), UNIT)
    requires roubles > 0 && card.price == Some(100 * roubles)
    ensures RowOf(entry, card, s).category != PriceMismatch
    ensures RowOf(entry, card, s).expected.Some? ==> RowOf(entry, card, s).category in {ExactMatch, RoundingOnly, ManualOverride}
  {
    RoundingsAreOneApart(roubles, RawPrice(AuditedWholesale(entry).value, s.rate, MarkupOf(entry, s)), UNIT);
  }

  // ---------------------------------------------------------------- where the two passes part

  /**
   The row has no positive price of its own, and yet a price comes out: from the row its replacement chain
   leads to, or from a surcharge on nothing.
   */
  predicate BorrowsItsPrice(entry: Entry, s: Settings) {
    match entry
    case Brp(_, _, current, own, borrowed) =>
      current && !Positive(own.wholesale) && Positive(BrpPrice(if borrowed.Some? then borrowed else Some(own), s))
    case Polaris(_, _, own, borrowed) =>
      !Positive(own.wholesale) && Positive(PolarisPrice(if borrowed.Some? then borrowed else Some(own), s))
    case Aftermarket(_, _) => false
    case ArcticCat(_, dealerPrice) => !Positive(dealerPrice) && Positive(CustomerPrice(dealerPrice, s.rate, s.brpMarkup))
    case Unlinked(_) => false
  }

  /** Neither entered by hand nor confirmed as an exception. */
  predicate FollowsTheFormula(entry: Entry, card: Card) {
    && !entry.Unlinked? && !(entry.Brp? && entry.manual) && !(entry.Polaris? && entry.manual)
    && card.provenance != ValidManualException
  }

  lemma OnlyBorrowedPricesAreNotSet(entry: Entry, card: Card, s: Settings)
    requires FollowsTheFormula(entry, card)
    ensures Expected(AuditedWholesale(entry), s.rate, MarkupOf(entry, s)).Some?
       <==> VerdictOn(entry, card, s).Certify? || BorrowsItsPrice(entry, s)
    ensures BorrowsItsPrice(entry, s) ==> VerdictOn(entry, card, s) == MissSource
  {
  }

  /**
   The audit follows a replacement chain; the refresh takes only the row's own wholesale price. Over every
   catalogue: the audit expects a price that the refresh does not set if and only if the row borrows its
   price. Such a card keeps the price it had; any other card of which a price is expected is an exact match.
   */
  lemma BorrowedPriceIsExpectedButNeverSet(shop: Shop, s: Settings, catalogs: set<string>, entry: Entry, card: Card)
    requires IsEntryOf(shop, catalogs, entry, card) && FollowsTheFormula(entry, card)
    ensures entry.part in Refreshed(shop, s, catalogs)
    ensures var after := Refreshed(shop, s, catalogs)[entry.part];
      var row := RowOf(entry, after, s);
      && (row.expected.Some? && after.certified != row.expected <==> BorrowsItsPrice(entry, s))
      && (BorrowsItsPrice(entry, s) ==> after == Card(card.price, None, SourceMissing))
      && (row.expected.Some? && !BorrowsItsPrice(entry, s) ==> row.category == ExactMatch)
      && (row.expected.None? ==> Unverifiable(row.category))
  {
    WrittenByItsRow(shop, s, catalogs, entry, card);
    OnlyBorrowedPricesAreNotSet(entry, card, s);
    if VerdictOn(entry, card, s).Certify? {
      CalculatedIsExact(entry, card, s);
    }
  }

  function BrpShop(entry: Entry, card: Card): Shop {
    Shop(map[entry.part := card], [entry.part], [entry], [], [], [])
  }

  lemma BrpShopEntries(entry: Entry, card: Card)
    requires entry.Brp?
    ensures IsEntryOf(BrpShop(entry, card), {}, entry, card)
  {
    var shop := BrpShop(entry, card);
    assert Links(shop) == [entry];
    assert Entries(shop, {})[0] == entry;
  }

  /** A row without a price of its own whose replacement costs ten dollars. */
  predicate IsBorrower(entry: Entry) {
    entry == Brp(1, false, true, Quote(Some(0), ""), Some(Quote(Some(1_000), "")))
  }

  lemma BorrowerBorrows(entry: Entry, s: Settings)
    requires IsBorrower(entry) && Positive(CustomerPrice(Some(1_000), s.rate, s.brpMarkup))
    ensures BorrowsItsPrice(entry, s) && AuditedWholesale(entry) == Some(1_000)
  {
    assert Strip("") == "" && UpperLatin("") == "";
    assert EffectiveWholesale(Some(1_000), "") == Some(1_000);
  }

  /** Counterexample, whatever the rate and the markup: a card without a price stays so, and the audit misses the price. */
  lemma RefreshLeavesAPriceMissing(s: Settings, entry: Entry, card: Card)
    requires IsBorrower(entry) && Positive(CustomerPrice(Some(1_000), s.rate, s.brpMarkup)) && card == Card(None, None, Unverified)
    ensures var shop := BrpShop(entry, card);
      && Proper(shop) && 1 in Refreshed(shop, s, {})
      && RowOf(entry, Refreshed(shop, s, {})[1], s).expected.Some?
      && RowOf(entry, Refreshed(shop, s, {})[1], s).category == CustomerPriceMissing
  {
    BrpShopEntries(entry, card);
    BorrowerBorrows(entry, s);
    BorrowedPriceIsExpectedButNeverSet(BrpShop(entry, card), s, {}, entry, card);
  }
}
