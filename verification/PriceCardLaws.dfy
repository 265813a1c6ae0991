/** What a refresh leaves on each card, said of its catalogue row and the price formula alone. */
module PriceCardLaws {
  import opened Basics
  import opened Pricing
  import opened PriceRefresh
  import opened PriceRefreshLaws
  import opened PriceAudit

  // ---------------------------------------------------------------- the formula

  /** The nearest whole rouble to cents times rate times one and the markup, a half away from zero. */
  predicate IsPriceOf(roubles: int, cents: int, rate: int, markup: int) {
    var exact := cents * rate * (10_000 + markup);
    var off := exact - roubles * 10_000_000_000;
    if exact >= 0 then -10_000_000_000 <= 2 * off < 10_000_000_000 else -10_000_000_000 < 2 * off <= 10_000_000_000
  }

  lemma CustomerPriceIff(roubles: int, cents: int, rate: int, markup: int)
    ensures CustomerPrice(Some(cents), rate, markup) == Some(roubles) <==> IsPriceOf(roubles, cents, rate, markup)
  {
    RoundedIff(roubles, RawPrice(cents, rate, markup), UNIT);
  }

  /** VIN in letters of either case, with white space around it. */
  predicate ReadsVin(status: string) {
    var text := Strip(status);
    |text| == 3 && text[0] in {'V', 'v'} && text[1] in {'I', 'i', '\U{131}'} && text[2] in {'N', 'n'}
  }

  lemma {:induction false} UpperLetterByLetter(text: string)
    ensures |UpperLatin(text)| == |text|
    ensures forall k :: 0 <= k < |text| ==> UpperLatin(text)[k] == Upper(text[k])
  {
    if text != "" {
      UpperLetterByLetter(text[1..]);
    }
  }

  lemma VinIsThreeLetters(text: string, upper: string)
    requires |upper| == |text| && forall k :: 0 <= k < |text| ==> upper[k] == Upper(text[k])
    ensures upper == ['V', 'I', 'N'] <==>
      |text| == 3 && text[0] in {'V', 'v'} && text[1] in {'I', 'i', '\U{131}'} && text[2] in {'N', 'n'}
  {
  }

  lemma SurchargeIff(status: string)
    ensures StatusSurcharge(status) == if ReadsVin(status) then 2500 else 0
  {
    UpperLetterByLetter(Strip(status));
    VinIsThreeLetters(Strip(status), UpperLatin(Strip(status)));
  }

  // ---------------------------------------------------------------- one row

  predicate ByHand(entry: Entry) {
    (entry.Brp? || entry.Polaris?) && entry.manual
  }

  /** A confirmed exception, which only an aftermarket row may touch. */
  predicate IsKept(entry: Entry, card: Card) {
    card.provenance == ValidManualException && !entry.Aftermarket?
  }

  predicate IsDiscontinued(entry: Entry) {
    entry.Brp? && !entry.manual && !entry.current
  }

  /** The cents a price of the card may rest on: those of its own row, positive ones, with the surcharge on VIN. */
  function OwnCents(entry: Entry): Option<int> {
    match entry
    case Brp(_, manual, current, own, _) =>
      if !manual && current && own.wholesale.Some? && own.wholesale.value > 0
      then Some(own.wholesale.value + if ReadsVin(own.status) then 2500 else 0) else None
    case Polaris(_, manual, own, _) =>
      if !manual && own.wholesale.Some? && own.wholesale.value > 0 then own.wholesale else None
    case Aftermarket(_, dealerCost) => dealerCost
    case ArcticCat(_, dealerPrice) => if dealerPrice.Some? && dealerPrice.value > 0 then dealerPrice else None
    case Unlinked(_) => None
  }

  function OwnMarkup(entry: Entry, s: Settings): int {
    if entry.Polaris? then s.polarisMarkup else s.brpMarkup
  }

  /** What becomes of a card when its row makes no positive price. */
  function LeftWithout(entry: Entry, card: Card): Card {
    if card.provenance == ValidManualException then card
    else if ByHand(entry) then Card(card.price, None, Unverified)
    else if IsDiscontinued(entry) then Card(None, None, SourceMissing)
    else if entry.Unlinked? then Card(card.price, None, NotApplicable)
    else Card(card.price, None, SourceMissing)
  }

  lemma OwnRowDecides(entry: Entry, card: Card, s: Settings, roubles: int)
    requires OwnCents(entry).Some? && IsPriceOf(roubles, OwnCents(entry).value, s.rate, OwnMarkup(entry, s)) && !IsKept(entry, card)
    ensures After(card, VerdictOn(entry, card, s)) ==
      if roubles > 0 then Card(Some(100 * roubles), Some(100 * roubles), FormulaCertified) else LeftWithout(entry, card)
  {
    CustomerPriceIff(roubles, OwnCents(entry).value, s.rate, OwnMarkup(entry, s));
    if entry.Brp? {
      SurchargeIff(entry.own.status);
    }
  }

  lemma NoOwnPriceDecides(entry: Entry, card: Card, s: Settings)
    requires OwnCents(entry).None? || IsKept(entry, card)
    ensures After(card, VerdictOn(entry, card, s)) == LeftWithout(entry, card)
  {
  }

  // ---------------------------------------------------------------- the rows a refresh is about

  /** The catalogue is asked for, or none is, which asks for all of them. */
  predicate IsAsked(catalogs: set<string>, name: string) {
    catalogs == {} || name in catalogs
  }

  /** A refresh is about the rows of the catalogues asked for and every card that no catalogue names. */
  lemma EntryIsRefreshedIff(shop: Shop, catalogs: set<string>, entry: Entry)
    ensures entry in Entries(shop, catalogs) <==>
      || (IsAsked(catalogs, "brp") && entry in shop.brp)
      || (IsAsked(catalogs, "polaris") && entry in shop.polaris)
      || (IsAsked(catalogs, "aftermarket") && entry in shop.aftermarket)
      || (IsAsked(catalogs, "arctic_cat") && entry in shop.arcticCat)
      || (entry.Unlinked? && entry.part in shop.parts && !IsLinked(Links(shop), entry.part))
  {
    UnlinkedMember(shop.parts, Links(shop), entry);
  }

  // ---------------------------------------------------------------- the refreshed card

  /** A positive price of the own row is set and certified; a price that rounds to nothing is no price. */
  lemma PricedCardIsCertified(shop: Shop, s: Settings, catalogs: set<string>, entry: Entry, card: Card, roubles: int)
    requires IsEntryOf(shop, catalogs, entry, card) && !IsKept(entry, card)
    requires OwnCents(entry).Some? && IsPriceOf(roubles, OwnCents(entry).value, s.rate, OwnMarkup(entry, s))
    ensures entry.part in Refreshed(shop, s, catalogs)
    ensures Refreshed(shop, s, catalogs)[entry.part] ==
      if roubles > 0 then Card(Some(100 * roubles), Some(100 * roubles), FormulaCertified) else LeftWithout(entry, card)
  {
    WrittenByItsRow(shop, s, catalogs, entry, card);
    OwnRowDecides(entry, card, s, roubles);
  }

  /**
   Without a price of its own row: a confirmed exception stays, a price by hand loses its certificate, a part that
   is no longer current loses its price, and any other card keeps its price and says why it has no certificate.
   */
  lemma UnpricedCardIsMarked(shop: Shop, s: Settings, catalogs: set<string>, entry: Entry, card: Card)
    requires IsEntryOf(shop, catalogs, entry, card) && (OwnCents(entry).None? || IsKept(entry, card))
    ensures entry.part in Refreshed(shop, s, catalogs)
    ensures Refreshed(shop, s, catalogs)[entry.part] == LeftWithout(entry, card)
  {
    WrittenByItsRow(shop, s, catalogs, entry, card);
    NoOwnPriceDecides(entry, card, s);
  }

  /** A refresh takes a price away if and only if the part is no longer current and its price neither by hand nor confirmed. */
  lemma PriceIsTakenAwayIff(shop: Shop, s: Settings, catalogs: set<string>, entry: Entry, card: Card)
    requires IsEntryOf(shop, catalogs, entry, card) && card.price.Some?
    ensures entry.part in Refreshed(shop, s, catalogs)
    ensures Refreshed(shop, s, catalogs)[entry.part].price.None? <==> IsDiscontinued(entry) && card.provenance != ValidManualException
  {
    if OwnCents(entry).None? || IsKept(entry, card) {
      UnpricedCardIsMarked(shop, s, catalogs, entry, card);
    } else {
      var cents := OwnCents(entry).value;
      var roubles := CustomerPrice(Some(cents), s.rate, OwnMarkup(entry, s)).value;
      CustomerPriceIff(roubles, cents, s.rate, OwnMarkup(entry, s));
      PricedCardIsCertified(shop, s, catalogs, entry, card, roubles);
    }
  }

  /** A card that no row of the refresh is about is left alone. */
  lemma OtherCardsAreLeftAlone(shop: Shop, s: Settings, catalogs: set<string>, part: int)
    requires Proper(shop) && OneEntryEach(Links(shop)) && part in shop.cards
    requires forall entry :: entry in Entries(shop, catalogs) ==> entry.part != part
    ensures part in Refreshed(shop, s, catalogs) && Refreshed(shop, s, catalogs)[part] == shop.cards[part]
  {
    var entries := Entries(shop, catalogs);
    EntriesKnown(shop, catalogs);
    OnlyChangedCardsAreWritten(shop, s, catalogs);
    forall k | 0 <= k < |entries| ensures entries[k].part != part {
      assert entries[k] in entries;
    }
    OthersAreUntouched(FreshPlan(shop.cards), entries, s, part);
  }
}
