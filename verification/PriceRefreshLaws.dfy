/** What a refresh promises when each card has at most one catalogue row. */
module PriceRefreshLaws {
  import opened Basics
  import opened Pricing
  import opened PriceRefresh

  ghost predicate OneEntryEach(entries: seq<Entry>) {
    forall i, j :: 0 <= i < j < |entries| ==> entries[i].part != entries[j].part
  }

  // ---------------------------------------------------------------- card by card

  lemma {:induction false} OthersAreUntouched(start: Plan, entries: seq<Entry>, s: Settings, part: int)
    requires Known(entries, start.cards) && part in start.cards
    requires forall k :: 0 <= k < |entries| ==> entries[k].part != part
    ensures Planned(start, entries, s).cards[part] == start.cards[part]
    ensures part in Planned(start, entries, s).touched <==> part in start.touched
  {
    if entries != [] {
      OthersAreUntouched(start, entries[..|entries| - 1], s, part);
    }
  }

  /** Each card is decided by its own row, on the value it had before the pass. */
  lemma {:induction false} EachCardByItsRow(start: Plan, entries: seq<Entry>, s: Settings, k: nat)
    requires Known(entries, start.cards) && OneEntryEach(entries) && k < |entries|
    ensures var part := entries[k].part;
      var card := start.cards[part];
      var after := After(card, VerdictOn(entries[k], card, s));
      && Planned(start, entries, s).cards[part] == after
      && (part in Planned(start, entries, s).touched <==> part in start.touched || after != card)
  {
    var before := entries[..|entries| - 1];
    if k == |entries| - 1 {
      OthersAreUntouched(start, before, s, entries[k].part);
    } else {
      EachCardByItsRow(start, before, s, k);
    }
  }

  lemma EntriesAreOneEach(shop: Shop, catalogs: set<string>)
    requires Proper(shop) && OneEntryEach(Links(shop))
    ensures OneEntryEach(Entries(shop, catalogs))
  {
    var chosen, unlinked := Chosen(shop, Selected(catalogs)), UnlinkedEntries(shop.parts, Links(shop));
    ChosenOneEach(shop, Selected(catalogs));
    UnlinkedOneEach(shop.parts, Links(shop));
    forall i, j | 0 <= i < |chosen| && 0 <= j < |unlinked| ensures chosen[i].part != unlinked[j].part {
      UnlinkedMember(shop.parts, Links(shop), unlinked[j]);
      ChosenKnown(shop, Selected(catalogs));
      assert chosen[i] in Links(shop);
      var k :| 0 <= k < |Links(shop)| && Links(shop)[k] == chosen[i];
    }
  }

  lemma {:induction false} UnlinkedOneEach(parts: seq<int>, links: seq<Entry>)
    requires forall i, j :: 0 <= i < j < |parts| ==> parts[i] != parts[j]
    ensures OneEntryEach(UnlinkedEntries(parts, links))
  {
    if parts != [] {
      var before := UnlinkedEntries(parts[..|parts| - 1], links);
      UnlinkedOneEach(parts[..|parts| - 1], links);
      forall i | 0 <= i < |before| ensures before[i].part != parts[|parts| - 1] {
        UnlinkedMember(parts[..|parts| - 1], links, before[i]);
      }
    }
  }

  lemma ChosenOneEach(shop: Shop, catalogs: set<string>)
    requires OneEntryEach(Links(shop))
    ensures OneEntryEach(Chosen(shop, catalogs))
  {
    var none: seq<Entry> := [];
    var b := if "brp" in catalogs then shop.brp else none;
    var p := if "polaris" in catalogs then shop.polaris else none;
    var a := if "aftermarket" in catalogs then shop.aftermarket else none;
    var c := if "arctic_cat" in catalogs then shop.arcticCat else none;
    PartsOneEach(shop.brp + shop.polaris + shop.aftermarket, shop.arcticCat);
    PartsOneEach(shop.brp + shop.polaris, shop.aftermarket);
    PartsOneEach(shop.brp, shop.polaris);
    JoinedOneEach(shop.brp, shop.polaris, b, p);
    JoinedOneEach(shop.brp + shop.polaris, shop.aftermarket, b + p, a);
    JoinedOneEach(shop.brp + shop.polaris + shop.aftermarket, shop.arcticCat, b + p + a, c);
  }

  lemma PartsOneEach(a: seq<Entry>, b: seq<Entry>)
    requires OneEntryEach(a + b)
    ensures OneEntryEach(a) && OneEntryEach(b)
    ensures forall i, j :: 0 <= i < |a| && 0 <= j < |b| ==> a[i].part != b[j].part
  {
    forall i, j | 0 <= i < j < |a| ensures a[i].part != a[j].part {
      assert (a + b)[i] == a[i] && (a + b)[j] == a[j];
    }
    forall i, j | 0 <= i < j < |b| ensures b[i].part != b[j].part {
      assert (a + b)[|a| + i] == b[i] && (a + b)[|a| + j] == b[j];
    }
    forall i, j | 0 <= i < |a| && 0 <= j < |b| ensures a[i].part != b[j].part {
      assert (a + b)[i] == a[i] && (a + b)[|a| + j] == b[j];
    }
  }

  lemma JoinedOneEach(a: seq<Entry>, b: seq<Entry>, c: seq<Entry>, d: seq<Entry>)
    requires forall i, j :: 0 <= i < |a| && 0 <= j < |b| ==> a[i].part != b[j].part
    requires forall x :: x in c ==> x in a
    requires d == b || d == []
    requires OneEntryEach(c) && OneEntryEach(b)
    ensures OneEntryEach(c + d)
    ensures forall x :: x in c + d ==> x in a + b
  {
    forall i, j | 0 <= i < j < |c + d| ensures (c + d)[i].part != (c + d)[j].part {
      if i < |c| <= j {
        assert c[i] in a;
        var k :| 0 <= k < |a| && a[k] == c[i];
        assert d[j - |c|] == b[j - |c|];
      }
    }
  }

  /** A card is written if and only if it changes, so writing the touched ones stores the whole plan. */
  lemma OnlyChangedCardsAreWritten(shop: Shop, s: Settings, catalogs: set<string>)
    requires Proper(shop) && OneEntryEach(Links(shop))
    ensures var plan := Refresh(shop, s, catalogs);
      && Written(shop.cards, plan) == plan.cards
      && (forall part :: part in shop.cards ==> (part in plan.touched <==> plan.cards[part] != shop.cards[part]))
  {
    var plan, entries := Refresh(shop, s, catalogs), Entries(shop, catalogs);
    EntriesKnown(shop, catalogs);
    EntriesAreOneEach(shop, catalogs);
    forall part | part in shop.cards ensures part in plan.touched <==> plan.cards[part] != shop.cards[part] {
      if k :| 0 <= k < |entries| && entries[k].part == part {
        EachCardByItsRow(FreshPlan(shop.cards), entries, s, k);
      } else {
        OthersAreUntouched(FreshPlan(shop.cards), entries, s, part);
      }
    }
  }

  // ---------------------------------------------------------------- idempotence

  predicate Settled(entry: Entry, card: Card, s: Settings) {
    After(card, VerdictOn(entry, card, s)) == card
  }

  /** Once its row has decided a card, the same row has nothing more to say. */
  lemma OneDecisionSettles(entry: Entry, card: Card, s: Settings)
    ensures Settled(entry, After(card, VerdictOn(entry, card, s)), s)
  {
  }

  predicate NoChanges(c: Counters) {
    c.pricesChanged == 0 && c.written == 0 && c.cleared == 0
  }

  lemma {:induction false} SettledCardsStay(start: Plan, entries: seq<Entry>, s: Settings)
    requires Known(entries, start.cards)
    requires forall k :: 0 <= k < |entries| ==> Settled(entries[k], start.cards[entries[k].part], s)
    ensures Planned(start, entries, s).cards == start.cards
    ensures Planned(start, entries, s).touched == start.touched
    ensures NoChanges(start.counters) ==> NoChanges(Planned(start, entries, s).counters)
  {
    if entries != [] {
      var before, entry := entries[..|entries| - 1], entries[|entries| - 1];
      SettledCardsStay(start, before, s);
      assert Settled(entry, start.cards[entry.part], s);
    }
  }

  /** A second pass with the same settings and catalogues plans no update at all. */
  lemma RefreshIsIdempotent(shop: Shop, s: Settings, catalogs: set<string>)
    requires Proper(shop) && OneEntryEach(Links(shop))
    ensures var refreshed := shop.(cards := Written(shop.cards, Refresh(shop, s, catalogs)));
      && Proper(refreshed)
      && Refresh(refreshed, s, catalogs).cards == refreshed.cards
      && Refresh(refreshed, s, catalogs).touched == {}
      && NoChanges(Refresh(refreshed, s, catalogs).counters)
  {
    var plan, entries := Refresh(shop, s, catalogs), Entries(shop, catalogs);
    var refreshed := shop.(cards := plan.cards);
    OnlyChangedCardsAreWritten(shop, s, catalogs);
    assert Proper(refreshed) && Entries(refreshed, catalogs) == entries;
    EntriesKnown(shop, catalogs);
    EntriesAreOneEach(shop, catalogs);
    forall k | 0 <= k < |entries| ensures Settled(entries[k], plan.cards[entries[k].part], s) {
      EachCardByItsRow(FreshPlan(shop.cards), entries, s, k);
      OneDecisionSettles(entries[k], shop.cards[entries[k].part], s);
    }
    SettledCardsStay(FreshPlan(plan.cards), entries, s);
  }

  // ---------------------------------------------------------------- certificates

  /** A certificate is the current price itself, and rests on the formula. */
  predicate CertificateHolds(card: Card) {
    card.certified.Some? ==> card.certified == card.price && card.provenance == FormulaCertified
  }

  predicate ExceptionUncertified(card: Card) {
    card.provenance == ValidManualException ==> card.certified.None?
  }

  /** One row leaves a card with a true certificate, and prices it only from its own positive source. */
  lemma OneRowCertifiesTruly(entry: Entry, card: Card, s: Settings)
    requires ExceptionUncertified(card)
    ensures var after, verdict := After(card, VerdictOn(entry, card, s)), VerdictOn(entry, card, s);
      && CertificateHolds(after) && ExceptionUncertified(after)
      && (after.certified.Some? <==> verdict.Certify?)
      && (after.price != card.price ==> verdict.Certify? || (entry.Brp? && !entry.current && after.price.None?))
  {
  }

  /** After a refresh of all catalogues every certificate in the shop is true, whatever was there before. */
  lemma CertificatesAreTrue(shop: Shop, s: Settings, part: int)
    requires Proper(shop) && OneEntryEach(Links(shop)) && part in shop.cards && part in shop.parts
    requires ExceptionUncertified(shop.cards[part])
    ensures part in Refresh(shop, s, {}).cards
    ensures CertificateHolds(Refresh(shop, s, {}).cards[part]) && ExceptionUncertified(Refresh(shop, s, {}).cards[part])
  {
    var entries, links := Entries(shop, {}), Links(shop);
    EntriesKnown(shop, {});
    EntriesAreOneEach(shop, {});
    if !IsLinked(links, part) {
      UnlinkedMember(shop.parts, links, Unlinked(part));
      assert Unlinked(part) in entries;
    } else {
      var i :| 0 <= i < |links| && links[i].part == part;
      assert entries[i] == links[i];
    }
    var k: nat :| k < |entries| && entries[k].part == part;
    EachCardByItsRow(FreshPlan(shop.cards), entries, s, k);
    OneRowCertifiesTruly(entries[k], shop.cards[part], s);
  }

  /** A confirmed price has no certificate, and a refresh keeps it unless its row is an aftermarket one with a price. */
  lemma ConfirmedPriceIsKeptIff(entry: Entry, card: Card, s: Settings)
    requires ConfirmException(card).Some?
    ensures var confirmed := ConfirmException(card).value;
      && ExceptionUncertified(confirmed) && confirmed.price == card.price
      && (After(confirmed, VerdictOn(entry, confirmed, s)) == confirmed <==>
           !(entry.Aftermarket? && Positive(CustomerPrice(entry.dealerCost, s.rate, s.brpMarkup))))
  {
    ExceptionSurvivesIff(entry, ConfirmException(card).value, s);
  }

  // ---------------------------------------------------------------- prices the owner confirmed

  /** A confirmed exception survives its row unless that row is an aftermarket one with a dealer price. */
  lemma ExceptionSurvivesIff(entry: Entry, card: Card, s: Settings)
    requires card.provenance == ValidManualException
    ensures After(card, VerdictOn(entry, card, s)) == card <==>
      !(entry.Aftermarket? && Positive(CustomerPrice(entry.dealerCost, s.rate, s.brpMarkup)))
  {
  }

  /** Over the whole refresh: confirmed exceptions are kept exactly on the cards where that is so. */
  lemma ConfirmedExceptionsAreKeptIff(shop: Shop, s: Settings, catalogs: set<string>, k: nat)
    requires Proper(shop) && OneEntryEach(Links(shop)) && k < |Entries(shop, catalogs)|
    requires Entries(shop, catalogs)[k].part in shop.cards
    requires shop.cards[Entries(shop, catalogs)[k].part].provenance == ValidManualException
    ensures var entry := Entries(shop, catalogs)[k];
      var written := Written(shop.cards, Refresh(shop, s, catalogs));
      written[entry.part] == shop.cards[entry.part] <==>
        !(entry.Aftermarket? && Positive(CustomerPrice(entry.dealerCost, s.rate, s.brpMarkup)))
  {
    EntriesKnown(shop, catalogs);
    EntriesAreOneEach(shop, catalogs);
    OnlyChangedCardsAreWritten(shop, s, catalogs);
    EachCardByItsRow(FreshPlan(shop.cards), Entries(shop, catalogs), s, k);
    ExceptionSurvivesIff(Entries(shop, catalogs)[k], shop.cards[Entries(shop, catalogs)[k].part], s);
  }

  lemma TenDollars(s: Settings)
    requires s.rate == 1_050_000 && s.brpMarkup == 4_000
    ensures CustomerPrice(Some(1_000), s.rate, s.brpMarkup) == Some(1_470)
  {
    assert RawPrice(1_000, s.rate, s.brpMarkup) == 14_700_000_000_000;
  }

  function OneCardShop(card: Card, dealerCost: Option<int>): Shop {
    Shop(map[1 := card], [1], [], [], [Aftermarket(1, dealerCost)], [])
  }

  lemma OneCardEntries(card: Card, dealerCost: Option<int>)
    ensures var shop := OneCardShop(card, dealerCost);
      Proper(shop) && OneEntryEach(Links(shop)) && Entries(shop, {}) == [Aftermarket(1, dealerCost)]
  {
    var shop, entry := OneCardShop(card, dealerCost), Aftermarket(1, dealerCost);
    var links := Links(shop);
    assert links == [entry];
    assert links[0].part == 1;
    assert IsLinked(links, 1);
    assert [1][..0] == [];
    assert UnlinkedEntries([1], links) == [];
  }

  lemma TenDollarVerdict(card: Card, s: Settings)
    requires s.rate == 1_050_000 && s.brpMarkup == 4_000
    ensures VerdictOn(Aftermarket(1, Some(1_000)), card, s) == Certify(147_000)
  {
    TenDollars(s);
  }

  lemma OneRowIsCertified(shop: Shop, entry: Entry, s: Settings, price: int)
    requires Proper(shop) && Entries(shop, {}) == [entry] && entry.part in shop.cards
    requires VerdictOn(entry, shop.cards[entry.part], s) == Certify(price)
    ensures entry.part in Refresh(shop, s, {}).cards
    ensures Refresh(shop, s, {}).cards[entry.part] == Card(Some(price), Some(price), FormulaCertified)
  {
    EntriesKnown(shop, {});
    EachCardByItsRow(FreshPlan(shop.cards), [entry], s, 0);
  }

  /** Counterexample: a price of 5000.00 confirmed by the owner, and a dealer cost of 10 dollars. */
  lemma AftermarketOverwritesAConfirmedPrice(s: Settings, card: Card) returns (shop: Shop)
    requires s.rate == 1_050_000 && s.brpMarkup == 4_000
    requires card == Card(Some(500_000), None, ValidManualException)
    ensures Proper(shop) && OneEntryEach(Links(shop)) && shop.cards == map[1 := card]
    ensures 1 in Refresh(shop, s, {}).cards
    ensures Refresh(shop, s, {}).cards[1] == Card(Some(147_000), Some(147_000), FormulaCertified)
  {
    shop := OneCardShop(card, Some(1_000));
    OneCardEntries(card, Some(1_000));
    TenDollarVerdict(card, s);
    OneRowIsCertified(shop, Aftermarket(1, Some(1_000)), s, 147_000);
  }

  // ---------------------------------------------------------------- what the counters say

  /** Rows that neither set a price nor lack a source: confirmed exceptions and prices entered by hand. */
  function LeftAsTheyAre(entries: seq<Entry>, cards: map<int, Card>, s: Settings): nat
    requires Known(entries, cards)
  {
    if entries == [] then 0
    else
      var entry := entries[|entries| - 1];
      var verdict := VerdictOn(entry, cards[entry.part], s);
      LeftAsTheyAre(entries[..|entries| - 1], cards, s) + One(verdict.LeaveAlone? || verdict.Unverify?)
  }

  function ChangedPrices(entries: seq<Entry>, before: map<int, Card>, after: map<int, Card>): nat
    requires Known(entries, before) && Known(entries, after)
  {
    if entries == [] then 0
    else
      var part := entries[|entries| - 1].part;
      ChangedPrices(entries[..|entries| - 1], before, after) + One(before[part].price != after[part].price)
  }

  function LinkRows(entries: seq<Entry>): nat {
    if entries == [] then 0 else LinkRows(entries[..|entries| - 1]) + One(!entries[|entries| - 1].Unlinked?)
  }

  predicate AddUp(c: Counters, links: nat, left: nat) {
    c.brp + c.polaris + c.aftermarket + c.arcticCat == links && c.calculated + c.skipped + left == links
  }

  lemma OneRowAddsUp(plan: Plan, entry: Entry, s: Settings, links: nat, left: nat)
    requires entry.part in plan.cards && AddUp(plan.counters, links, left)
    ensures var verdict := VerdictOn(entry, plan.cards[entry.part], s);
      AddUp(Step(plan, entry, s).counters, links + One(!entry.Unlinked?), left + One(verdict.LeaveAlone? || verdict.Unverify?))
    ensures Step(plan, entry, s).counters.overridden == plan.counters.overridden
  {
  }

  lemma {:induction false} CountersAddUp(cards: map<int, Card>, entries: seq<Entry>, s: Settings)
    requires Known(entries, cards) && OneEntryEach(entries)
    ensures AddUp(Planned(FreshPlan(cards), entries, s).counters, LinkRows(entries), LeftAsTheyAre(entries, cards, s))
    ensures Planned(FreshPlan(cards), entries, s).counters.overridden == 0
  {
    if entries != [] {
      var before, entry := entries[..|entries| - 1], entries[|entries| - 1];
      CountersAddUp(cards, before, s);
      OthersAreUntouched(FreshPlan(cards), before, s, entry.part);
      OneRowAddsUp(Planned(FreshPlan(cards), before, s), entry, s, LinkRows(before), LeftAsTheyAre(before, cards, s));
    }
  }

  lemma {:induction false} ChangesAreOfTheFirst(a: seq<Entry>, before: map<int, Card>, after: map<int, Card>, other: map<int, Card>)
    requires Known(a, before) && Known(a, after) && Known(a, other)
    requires forall k :: 0 <= k < |a| ==> after[a[k].part] == other[a[k].part]
    ensures ChangedPrices(a, before, after) == ChangedPrices(a, before, other)
  {
    if a != [] {
      ChangesAreOfTheFirst(a[..|a| - 1], before, after, other);
    }
  }

  lemma {:induction false} ChangesAreCounted(cards: map<int, Card>, entries: seq<Entry>, s: Settings)
    requires Known(entries, cards) && OneEntryEach(entries)
    ensures Planned(FreshPlan(cards), entries, s).counters.pricesChanged
         == ChangedPrices(entries, cards, Planned(FreshPlan(cards), entries, s).cards)
  {
    if entries != [] {
      var before, entry := entries[..|entries| - 1], entries[|entries| - 1];
      var first, last := Planned(FreshPlan(cards), before, s), Planned(FreshPlan(cards), entries, s);
      ChangesAreCounted(cards, before, s);
      OthersAreUntouched(FreshPlan(cards), before, s, entry.part);
      ChangesAreOfTheFirst(before, cards, first.cards, last.cards);
    }
  }

  /**
   Every link is calculated, skipped for want of a source, or left as it is; the number reported is the
   number of cards whose price changed; and no manual price is ever counted as overridden.
   */
  lemma TheReportIsTrue(shop: Shop, s: Settings, catalogs: set<string>)
    requires Proper(shop) && OneEntryEach(Links(shop))
    ensures Known(Entries(shop, catalogs), shop.cards)
    ensures var plan, entries := Refresh(shop, s, catalogs), Entries(shop, catalogs);
      && AddUp(plan.counters, LinkRows(entries), LeftAsTheyAre(entries, shop.cards, s))
      && plan.counters.pricesChanged == ChangedPrices(entries, shop.cards, plan.cards)
      && plan.counters.overridden == 0
  {
    EntriesKnown(shop, catalogs);
    EntriesAreOneEach(shop, catalogs);
    CountersAddUp(shop.cards, Entries(shop, catalogs), s);
    ChangesAreCounted(shop.cards, Entries(shop, catalogs), s);
  }
}
