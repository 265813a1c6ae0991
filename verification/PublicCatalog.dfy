/**
 The public result list: availability-first ranking, filters, facets and pages.

 Case folding of manufacturer names is a given function. Available quantities are thousandths.
 */
module PublicCatalog {
  import opened Basics
  import opened Ordering
  import opened SearchMerge

  datatype Attributes = Attributes(
    manufacturer: string, applications: set<string>, original: bool, analog: bool, available: int)

  datatype Filters = Filters(application: string, manufacturer: string, relation: string, inStock: bool)

  const APPLICATIONS: seq<string> := ["ГИДРОЦИКЛ", "КВАДРОЦИКЛ", "СНЕГОХОД", "ЛОДОЧНЫЙ МОТОР", "КАТЕР"]
  const ORIGINAL := "original"
  const ANALOG := "analog"

  // ---------------------------------------------------------------- ranking

  /** A visible hit with what its place depends on. */
  datatype Placed = Placed(part: int, exact: bool, inStock: bool)

  function PlacedKey(p: Placed): Key {
    Key(if p.exact then 0 else 1, if p.inStock then 0 else 1, 0)
  }

  function PlaceOf(hit: Hit, attributes: Attributes): Placed {
    Placed(hit.part, hit.rank in {1, 2}, attributes.available > 0)
  }

  /** The visible hits in search order. */
  function Visible(hits: seq<Hit>, attributes: map<int, Attributes>): seq<Placed> {
    if hits == [] then []
    else
      var last := hits[|hits| - 1];
      Visible(hits[..|hits| - 1], attributes)
      + (if last.part in attributes then [PlaceOf(last, attributes[last.part])] else [])
  }

  function Ranking(hits: seq<Hit>, attributes: map<int, Attributes>): seq<Placed> {
    Sort(PlacedKey, Visible(hits, attributes))
  }

  // ---------------------------------------------------------------- filters

  datatype Facet = NoFacet | ApplicationFacet | ManufacturerFacet | RelationFacet | StockFacet

  predicate Passes(a: Attributes, f: Filters, skip: Facet, fold: string -> string) {
    && (skip == ApplicationFacet || f.application == "" || f.application in a.applications)
    && (skip == ManufacturerFacet || f.manufacturer == "" || fold(a.manufacturer) == fold(f.manufacturer))
    && (skip == RelationFacet || f.relation == "" || RelationHolds(a, f.relation))
    && (skip == StockFacet || !f.inStock || a.available > 0)
  }

  predicate RelationHolds(a: Attributes, relation: string) {
    (relation == ORIGINAL ==> a.original) && (relation == ANALOG ==> a.analog)
  }

  function Matched(ranked: seq<Placed>, attributes: map<int, Attributes>, f: Filters, fold: string -> string): seq<int>
    requires forall p :: p in ranked ==> p.part in attributes
  {
    if ranked == [] then []
    else
      var last := ranked[|ranked| - 1];
      Matched(ranked[..|ranked| - 1], attributes, f, fold)
      + (if Passes(attributes[last.part], f, NoFacet, fold) then [last.part] else [])
  }

  // ---------------------------------------------------------------- facets

  function Tally<K>(counts: map<K, nat>, key: K): nat {
    if key in counts then counts[key] else 0
  }

  /** The counts beside the options, each with every other filter applied. */
  datatype Facets = Facets(
    applications: map<string, nat>, labels: seq<string>, manufacturers: map<string, nat>,
    originals: nat, analogs: nat, inStock: nat)

  function One(condition: bool): nat {
    if condition then 1 else 0
  }

  function HowMany(values: seq<Attributes>, counted: Attributes -> bool): nat {
    if values == [] then 0 else HowMany(values[..|values| - 1], counted) + One(counted(values[|values| - 1]))
  }

  /** How many results the filters leave. */
  function Total(values: seq<Attributes>, f: Filters, fold: string -> string): nat {
    if values == [] then 0
    else Total(values[..|values| - 1], f, fold) + One(Passes(values[|values| - 1], f, NoFacet, fold))
  }

  function CountedApplications(counts: map<string, nat>, a: Attributes, options: seq<string>): map<string, nat> {
    if options == [] then counts
    else
      var before, value := CountedApplications(counts, a, options[..|options| - 1]), options[|options| - 1];
      if value in a.applications then before[value := Tally(before, value) + 1] else before
  }

  function CountOne(c: Facets, a: Attributes, f: Filters, fold: string -> string): Facets {
    var named := Passes(a, f, ManufacturerFacet, fold) && a.manufacturer != "";
    Facets(
      if Passes(a, f, ApplicationFacet, fold) then CountedApplications(c.applications, a, APPLICATIONS) else c.applications,
      if named && a.manufacturer !in c.manufacturers then c.labels + [a.manufacturer] else c.labels,
      if named then c.manufacturers[a.manufacturer := Tally(c.manufacturers, a.manufacturer) + 1] else c.manufacturers,
      c.originals + One(Passes(a, f, RelationFacet, fold) && a.original),
      c.analogs + One(Passes(a, f, RelationFacet, fold) && a.analog),
      c.inStock + One(Passes(a, f, StockFacet, fold) && a.available > 0))
  }

  function FacetsOf(values: seq<Attributes>, f: Filters, fold: string -> string): Facets {
    if values == [] then Facets(map[], [], map[], 0, 0, 0)
    else CountOne(FacetsOf(values[..|values| - 1], f, fold), values[|values| - 1], f, fold)
  }

  method CountApplications(counts: map<string, nat>, a: Attributes) returns (counted: map<string, nat>)
    ensures counted == CountedApplications(counts, a, APPLICATIONS)
  {
    counted := counts;
    for k := 0 to |APPLICATIONS|
      invariant counted == CountedApplications(counts, a, APPLICATIONS[..k])
    {
      assert APPLICATIONS[..k + 1][..k] == APPLICATIONS[..k];
      if APPLICATIONS[k] in a.applications {
        counted := counted[APPLICATIONS[k] := Tally(counted, APPLICATIONS[k]) + 1];
      }
    }
    assert APPLICATIONS[..|APPLICATIONS|] == APPLICATIONS;
  }

  method CountValue(c: Facets, a: Attributes, f: Filters, fold: string -> string) returns (counted: Facets)
    ensures counted == CountOne(c, a, f, fold)
  {
    var applications, labels, manufacturers := c.applications, c.labels, c.manufacturers;
    var originals, analogs, inStock := c.originals, c.analogs, c.inStock;
    if Passes(a, f, ApplicationFacet, fold) {
      applications := CountApplications(applications, a);
    }
    if Passes(a, f, ManufacturerFacet, fold) && a.manufacturer != "" {
      if a.manufacturer !in manufacturers {
        labels := labels + [a.manufacturer];
      }
      manufacturers := manufacturers[a.manufacturer := Tally(manufacturers, a.manufacturer) + 1];
    }
    if Passes(a, f, RelationFacet, fold) {
      originals := originals + One(a.original);
      analogs := analogs + One(a.analog);
    }
    if Passes(a, f, StockFacet, fold) && a.available > 0 {
      inStock := inStock + 1;
    }
    counted := Facets(applications, labels, manufacturers, originals, analogs, inStock);
  }

  method CountFacets(values: seq<Attributes>, f: Filters, fold: string -> string) returns (c: Facets)
    ensures c == FacetsOf(values, f, fold)
  {
    c := Facets(map[], [], map[], 0, 0, 0);
    for k := 0 to |values|
      invariant c == FacetsOf(values[..k], f, fold)
    {
      assert values[..k + 1][..k] == values[..k];
      c := CountValue(c, values[k], f, fold);
    }
    assert values[..|values|] == values;
  }

  // ---------------------------------------------------------------- the page

  /** `pages` counts full and started pages, and there is always one. */
  function Pages(total: nat, size: nat): nat
    requires size >= 1
  {
    Max(1, (total + size - 1) / size)
  }

  function Values(placed: seq<Placed>, attributes: map<int, Attributes>): (values: seq<Attributes>)
    requires forall p :: p in placed ==> p.part in attributes
    ensures |values| == |placed| && forall k :: 0 <= k < |placed| ==> values[k] == attributes[placed[k].part]
  {
    if placed == [] then []
    else Values(placed[..|placed| - 1], attributes) + [attributes[placed[|placed| - 1].part]]
  }

  datatype CatalogPage = CatalogPage(shown: seq<int>, facets: Facets, total: nat, rankedTotal: nat, page: nat, pages: nat)

  lemma {:induction false} VisibleHasAttributes(hits: seq<Hit>, attributes: map<int, Attributes>)
    ensures forall p :: p in Visible(hits, attributes) ==> p.part in attributes
    ensures forall p :: p in Ranking(hits, attributes) ==> p.part in attributes
  {
    if hits != [] {
      VisibleHasAttributes(hits[..|hits| - 1], attributes);
    }
    forall p | p in Ranking(hits, attributes) ensures p.part in attributes {
      SortKeepsMembers(PlacedKey, Visible(hits, attributes), p);
    }
  }

  method SearchCatalog(hits: seq<Hit>, attributes: map<int, Attributes>, f: Filters, asked: nat, size: nat, fold: string -> string)
      returns (shown: CatalogPage)
    requires size >= 1
    ensures forall p :: p in Ranking(hits, attributes) ==> p.part in attributes
    ensures forall p :: p in Visible(hits, attributes) ==> p.part in attributes
    ensures var matched := Matched(Ranking(hits, attributes), attributes, f, fold);
      && shown.total == |matched| && shown.pages == Pages(|matched|, size)
      && shown.page == Min(Max(1, asked), shown.pages)
      && shown.shown == Window(matched, shown.page, size)
      && shown.rankedTotal == |Ranking(hits, attributes)|
      && shown.facets == FacetsOf(Values(Visible(hits, attributes), attributes), f, fold)
  {
    VisibleHasAttributes(hits, attributes);
    var visible := Visible(hits, attributes);
    var ranked := Sort(PlacedKey, visible);
    var matched := [];
    for k := 0 to |ranked|
      invariant forall p :: p in ranked[..k] ==> p.part in attributes
      invariant matched == Matched(ranked[..k], attributes, f, fold)
    {
      assert ranked[..k + 1][..k] == ranked[..k];
      assert ranked[k] in ranked;
      if Passes(attributes[ranked[k].part], f, NoFacet, fold) {
        matched := matched + [ranked[k].part];
      }
    }
    assert ranked[..|ranked|] == ranked;
    var pages := Pages(|matched|, size);
    var page := Min(Max(1, asked), pages);
    var facets := CountFacets(Values(visible, attributes), f, fold);
    shown := CatalogPage(Window(matched, page, size), facets, |matched|, |ranked|, page, pages);
  }

  // ---------------------------------------------------------------- laws of the ranking

  /** The list is the visible hits, rearranged. */
  lemma RankingKeepsTheHits(hits: seq<Hit>, attributes: map<int, Attributes>)
    ensures multiset(Ranking(hits, attributes)) == multiset(Visible(hits, attributes))
    ensures |Ranking(hits, attributes)| == |Visible(hits, attributes)|
  {
    SortPermutes(PlacedKey, Visible(hits, attributes));
  }

  /** Exact articles come first, and within each half what is in stock comes first. */
  lemma AvailabilityLeadsWithinExactness(hits: seq<Hit>, attributes: map<int, Attributes>, i: nat, j: nat)
    requires i < j < |Ranking(hits, attributes)|
    ensures var a, b := Ranking(hits, attributes)[i], Ranking(hits, attributes)[j];
      (b.exact ==> a.exact) && (a.exact == b.exact && b.inStock ==> a.inStock)
  {
    SortOrders(PlacedKey, Visible(hits, attributes));
    assert !Before(PlacedKey(Ranking(hits, attributes)[j]), PlacedKey(Ranking(hits, attributes)[i]));
  }

  /**
   Hits alike in both respects keep their search order, and that fixes the list: any arrangement with
   these three properties is this one.
   */
  lemma TheRankingIsTheOnlyOne(hits: seq<Hit>, attributes: map<int, Attributes>, other: seq<Placed>)
    ensures forall k :: SameWithKey(PlacedKey, k, Ranking(hits, attributes), Visible(hits, attributes))
    ensures Ordered(PlacedKey, other) && (forall k :: SameWithKey(PlacedKey, k, other, Visible(hits, attributes))) ==>
      other == Ranking(hits, attributes)
  {
    var visible, ranking := Visible(hits, attributes), Ranking(hits, attributes);
    forall k: Key ensures SameWithKey(PlacedKey, k, ranking, visible) {
      SortIsStable(PlacedKey, k, visible);
    }
    if Ordered(PlacedKey, other) && (forall k :: SameWithKey(PlacedKey, k, other, visible)) {
      SortOrders(PlacedKey, visible);
      forall k: Key ensures SameWithKey(PlacedKey, k, other, ranking) {
        assert SameWithKey(PlacedKey, k, other, visible) && SameWithKey(PlacedKey, k, ranking, visible);
      }
      StableOrderIsUnique(PlacedKey, other, ranking);
    }
  }

  // ---------------------------------------------------------------- laws of the pages

  /** The pages the reader can turn to are the whole matched list, nothing twice and nothing lost. */
  lemma PagesAreTheWholeList(matched: seq<int>, size: nat)
    requires size >= 1
    ensures FirstPages(matched, Pages(|matched|, size), size) == matched
  {
    PagesLieEndToEnd(matched, Pages(|matched|, size), size);
    EnoughPages(|matched|, size);
  }

  lemma EnoughPages(total: nat, size: nat)
    requires size >= 1
    ensures Pages(total, size) * size >= total
  {
    var full := (total + size - 1) / size;
    assert full * size + (total + size - 1) % size == total + size - 1;
    assert Pages(total, size) >= full;
    assert (Pages(total, size) - full) * size == Pages(total, size) * size - full * size;
    assert (Pages(total, size) - full) * size >= 0;
  }

  // ---------------------------------------------------------------- laws of the facets

  lemma {:induction false} MatchedPlaced(placed: seq<Placed>, p: Placed, attributes: map<int, Attributes>, f: Filters, fold: string -> string)
    requires p.part in attributes && forall q :: q in placed ==> q.part in attributes
    ensures forall q :: q in Place(PlacedKey, placed, p) ==> q.part in attributes
    ensures |Matched(Place(PlacedKey, placed, p), attributes, f, fold)|
         == |Matched(placed, attributes, f, fold)| + One(Passes(attributes[p.part], f, NoFacet, fold))
  {
    if placed != [] && Before(PlacedKey(p), PlacedKey(placed[|placed| - 1])) {
      MatchedPlaced(placed[..|placed| - 1], p, attributes, f, fold);
      var rest := Place(PlacedKey, placed[..|placed| - 1], p);
      assert Place(PlacedKey, placed, p)[..|rest|] == rest;
    } else {
      assert (placed + [p])[..|placed|] == placed;
    }
  }

  lemma {:induction false} TotalOfSorted(placed: seq<Placed>, attributes: map<int, Attributes>, f: Filters, fold: string -> string)
    requires forall p :: p in placed ==> p.part in attributes
    ensures forall p :: p in Sort(PlacedKey, placed) ==> p.part in attributes
    ensures |Matched(Sort(PlacedKey, placed), attributes, f, fold)| == Total(Values(placed, attributes), f, fold)
  {
    if placed != [] {
      var before, last := placed[..|placed| - 1], placed[|placed| - 1];
      TotalOfSorted(before, attributes, f, fold);
      MatchedPlaced(Sort(PlacedKey, before), last, attributes, f, fold);
      assert Values(placed, attributes)[..|before|] == Values(before, attributes);
    }
  }

  /** The number of results is the number of visible parts that pass the filters. */
  lemma TotalIsWhatPasses(hits: seq<Hit>, attributes: map<int, Attributes>, f: Filters, fold: string -> string)
    ensures forall p :: p in Ranking(hits, attributes) ==> p.part in attributes
    ensures forall p :: p in Visible(hits, attributes) ==> p.part in attributes
    ensures |Matched(Ranking(hits, attributes), attributes, f, fold)|
         == Total(Values(Visible(hits, attributes), attributes), f, fold)
  {
    VisibleHasAttributes(hits, attributes);
    TotalOfSorted(Visible(hits, attributes), attributes, f, fold);
  }

  lemma {:induction false} OneApplicationCounted(counts: map<string, nat>, a: Attributes, options: seq<string>, value: string)
    requires NoRepeats(options)
    ensures Tally(CountedApplications(counts, a, options), value)
         == Tally(counts, value) + One(value in options && value in a.applications)
  {
    if options != [] {
      var before, last := options[..|options| - 1], options[|options| - 1];
      OneApplicationCounted(counts, a, before, value);
      assert options == before + [last];
      if value == last {
        assert value !in before;
      }
    }
  }

  /** The count beside an application is the total its choice would give. */
  lemma {:induction false} ApplicationCountIsTheTotal(values: seq<Attributes>, f: Filters, fold: string -> string, value: string)
    requires value in APPLICATIONS
    ensures Tally(FacetsOf(values, f, fold).applications, value) == Total(values, f.(application := value), fold)
  {
    if values != [] {
      var before, a := values[..|values| - 1], values[|values| - 1];
      ApplicationCountIsTheTotal(before, f, fold, value);
      assert NoRepeats(APPLICATIONS);
      OneApplicationCounted(FacetsOf(before, f, fold).applications, a, APPLICATIONS, value);
      assert value != "";
    }
  }

  /** The counts beside the relations and the stock box are the totals their choice would give. */
  lemma {:induction false} RelationAndStockCountsAreTheTotals(values: seq<Attributes>, f: Filters, fold: string -> string)
    ensures FacetsOf(values, f, fold).originals == Total(values, f.(relation := ORIGINAL), fold)
    ensures FacetsOf(values, f, fold).analogs == Total(values, f.(relation := ANALOG), fold)
    ensures FacetsOf(values, f, fold).inStock == Total(values, f.(inStock := true), fold)
  {
    if values != [] {
      RelationAndStockCountsAreTheTotals(values[..|values| - 1], f, fold);
      assert ORIGINAL[0] != ANALOG[0];
    }
  }

  /** The counts of all labels that read the same when case is ignored. */
  function SameNameCount(labels: seq<string>, counts: map<string, nat>, name: string, fold: string -> string): nat {
    if labels == [] then 0
    else
      var last := labels[|labels| - 1];
      SameNameCount(labels[..|labels| - 1], counts, name, fold) + (if fold(last) == fold(name) then Tally(counts, last) else 0)
  }

  lemma {:induction false} OtherCountsDoNotMatter(labels: seq<string>, counts: map<string, nat>, other: map<string, nat>, name: string, fold: string -> string)
    requires forall spelling :: spelling in labels ==> Tally(counts, spelling) == Tally(other, spelling)
    ensures SameNameCount(labels, counts, name, fold) == SameNameCount(labels, other, name, fold)
  {
    if labels != [] {
      OtherCountsDoNotMatter(labels[..|labels| - 1], counts, other, name, fold);
    }
  }

  lemma {:induction false} CountAnother(labels: seq<string>, counts: map<string, nat>, spelling: string, name: string, fold: string -> string)
    requires NoRepeats(labels) && spelling in labels
    ensures SameNameCount(labels, counts[spelling := Tally(counts, spelling) + 1], name, fold)
         == SameNameCount(labels, counts, name, fold) + One(fold(spelling) == fold(name))
  {
    var before, last := labels[..|labels| - 1], labels[|labels| - 1];
    var updated := counts[spelling := Tally(counts, spelling) + 1];
    if last == spelling {
      assert spelling !in before;
      OtherCountsDoNotMatter(before, counts, updated, name, fold);
    } else {
      assert labels == before + [last];
      CountAnother(before, counts, spelling, name, fold);
    }
  }

  ghost predicate LabelsSound(c: Facets) {
    && NoRepeats(c.labels)
    && (forall spelling :: spelling in c.labels <==> spelling in c.manufacturers)
  }

  lemma {:induction false} LabelsAreSound(values: seq<Attributes>, f: Filters, fold: string -> string)
    ensures LabelsSound(FacetsOf(values, f, fold))
  {
    if values != [] {
      LabelsAreSound(values[..|values| - 1], f, fold);
    }
  }

  lemma NewLabelCounted(labels: seq<string>, counts: map<string, nat>, spelling: string, name: string, fold: string -> string)
    requires spelling !in labels && spelling !in counts
    ensures SameNameCount(labels + [spelling], counts[spelling := 1], name, fold)
         == SameNameCount(labels, counts, name, fold) + One(fold(spelling) == fold(name))
  {
    var updated := counts[spelling := 1];
    assert (labels + [spelling])[..|labels|] == labels;
    OtherCountsDoNotMatter(labels, counts, updated, name, fold);
  }

  /** With its own filter set to a name, a part counts exactly when the others pass and its name reads the same. */
  lemma ChosenName(a: Attributes, f: Filters, fold: string -> string, name: string)
    requires name != "" && fold(name) != fold("")
    ensures Passes(a, f.(manufacturer := name), NoFacet, fold)
        <==> Passes(a, f, ManufacturerFacet, fold) && a.manufacturer != "" && fold(a.manufacturer) == fold(name)
  {
  }

  /** Counting one more part changes the counts of its own name only. */
  lemma ManufacturerStep(labels: seq<string>, counts: map<string, nat>, spelling: string, name: string, fold: string -> string)
    requires NoRepeats(labels) && forall text :: text in labels <==> text in counts
    ensures var more := if spelling !in counts then labels + [spelling] else labels;
      SameNameCount(more, counts[spelling := Tally(counts, spelling) + 1], name, fold)
        == SameNameCount(labels, counts, name, fold) + One(fold(spelling) == fold(name))
  {
    if spelling in counts {
      CountAnother(labels, counts, spelling, name, fold);
    } else {
      NewLabelCounted(labels, counts, spelling, name, fold);
    }
  }

  function NameCount(c: Facets, name: string, fold: string -> string): nat {
    SameNameCount(c.labels, c.manufacturers, name, fold)
  }

  lemma OneMoreNamed(c: Facets, a: Attributes, f: Filters, fold: string -> string, name: string)
    requires LabelsSound(c) && name != "" && fold(name) != fold("")
    ensures NameCount(CountOne(c, a, f, fold), name, fold)
         == NameCount(c, name, fold) + One(Passes(a, f.(manufacturer := name), NoFacet, fold))
  {
    ChosenName(a, f, fold, name);
    if Passes(a, f, ManufacturerFacet, fold) && a.manufacturer != "" {
      ManufacturerStep(c.labels, c.manufacturers, a.manufacturer, name, fold);
    }
  }

  /** The counts beside the spellings of a manufacturer add up to the total its choice would give. */
  lemma {:induction false} ManufacturerCountsAreTheTotal(values: seq<Attributes>, f: Filters, fold: string -> string, name: string)
    requires name != "" && fold(name) != fold("")
    ensures NameCount(FacetsOf(values, f, fold), name, fold) == Total(values, f.(manufacturer := name), fold)
  {
    if values != [] {
      var before, a := values[..|values| - 1], values[|values| - 1];
      ManufacturerCountsAreTheTotal(before, f, fold, name);
      LabelsAreSound(before, f, fold);
      OneMoreNamed(FacetsOf(before, f, fold), a, f, fold, name);
    }
  }

  // ---------------------------------------------------------------- what is listed

  /** The hit is on a visible card; ranks one and two are those of an exact article. */
  predicate IsPlaceOf(hit: Hit, attributes: map<int, Attributes>, p: Placed) {
    && hit.part in attributes && p.part == hit.part
    && (p.exact <==> hit.rank == 1 || hit.rank == 2)
    && (p.inStock <==> attributes[hit.part].available > 0)
  }

  lemma {:induction false} VisibleIff(hits: seq<Hit>, attributes: map<int, Attributes>, p: Placed)
    ensures p in Visible(hits, attributes) <==> exists k :: 0 <= k < |hits| && IsPlaceOf(hits[k], attributes, p)
  {
    if hits != [] {
      var before, last := hits[..|hits| - 1], hits[|hits| - 1];
      VisibleIff(before, attributes, p);
      if k :| 0 <= k < |before| && IsPlaceOf(before[k], attributes, p) {
        assert IsPlaceOf(hits[k], attributes, p);
      }
      if k :| 0 <= k < |hits| && IsPlaceOf(hits[k], attributes, p) {
        assert k < |before| ==> IsPlaceOf(before[k], attributes, p);
      }
    }
  }

  /** Every filter that is set holds of the card. */
  predicate Fulfils(a: Attributes, f: Filters, fold: string -> string) {
    && (f.application != "" ==> f.application in a.applications)
    && (f.manufacturer != "" ==> fold(a.manufacturer) == fold(f.manufacturer))
    && (f.relation == "original" ==> a.original) && (f.relation == "analog" ==> a.analog)
    && (f.inStock ==> a.available > 0)
  }

  lemma {:induction false} MatchedIff(ranked: seq<Placed>, attributes: map<int, Attributes>, f: Filters, fold: string -> string, part: int)
    requires forall p :: p in ranked ==> p.part in attributes
    ensures part in Matched(ranked, attributes, f, fold)
       <==> part in attributes && Fulfils(attributes[part], f, fold) && exists p :: p in ranked && p.part == part
  {
    if ranked != [] {
      var before, last := ranked[..|ranked| - 1], ranked[|ranked| - 1];
      MatchedIff(before, attributes, f, fold, part);
      assert ranked == before + [last];
    }
  }

  /** A part is in the list if and only if a hit names it, its card is visible, and it fulfils the filters. */
  lemma ListedIff(hits: seq<Hit>, attributes: map<int, Attributes>, f: Filters, fold: string -> string, part: int)
    ensures forall p :: p in Ranking(hits, attributes) ==> p.part in attributes
    ensures part in Matched(Ranking(hits, attributes), attributes, f, fold)
       <==> part in attributes && Fulfils(attributes[part], f, fold) && exists k :: 0 <= k < |hits| && hits[k].part == part
  {
    VisibleHasAttributes(hits, attributes);
    MatchedIff(Ranking(hits, attributes), attributes, f, fold, part);
    forall p: Placed ensures p in Ranking(hits, attributes) <==> p in Visible(hits, attributes) {
      SortKeepsMembers(PlacedKey, Visible(hits, attributes), p);
    }
    if k :| 0 <= k < |hits| && hits[k].part == part && part in attributes {
      var p := PlaceOf(hits[k], attributes[part]);
      assert IsPlaceOf(hits[k], attributes, p);
      VisibleIff(hits, attributes, p);
    }
    if p :| p in Visible(hits, attributes) && p.part == part {
      VisibleIff(hits, attributes, p);
    }
  }

  /** What stands earlier in the list stands earlier in the ranking. */
  lemma {:induction false} MatchedKeepsOrder(ranked: seq<Placed>, attributes: map<int, Attributes>, f: Filters, fold: string -> string, i: nat, j: nat)
    requires forall p :: p in ranked ==> p.part in attributes
    requires i < j < |Matched(ranked, attributes, f, fold)|
    ensures var matched := Matched(ranked, attributes, f, fold);
      exists a, b :: 0 <= a < b < |ranked| && ranked[a].part == matched[i] && ranked[b].part == matched[j]
  {
    var before, matched := ranked[..|ranked| - 1], Matched(ranked, attributes, f, fold);
    var earlier := Matched(before, attributes, f, fold);
    if j < |earlier| {
      MatchedKeepsOrder(before, attributes, f, fold, i, j);
      var a, b :| 0 <= a < b < |before| && before[a].part == earlier[i] && before[b].part == earlier[j];
      assert ranked[a].part == matched[i] && ranked[b].part == matched[j];
    } else {
      assert earlier[i] in earlier;
      MatchedIff(before, attributes, f, fold, earlier[i]);
      var p :| p in before && p.part == earlier[i];
      var a :| 0 <= a < |before| && before[a] == p;
      assert ranked[a].part == matched[i] && ranked[|before|].part == matched[j];
    }
  }

  lemma BeforeTheLast(total: nat, size: nat, full: nat)
    requires size >= 1 && full >= 1 && full * size <= total + size - 1
    ensures (full - 1) * size < total
  {
    assert (full - 1) * size == full * size - size;
  }

  /** There is one page, or as many as it takes and none empty. */
  lemma NoPageIsEmpty(total: nat, size: nat)
    requires size >= 1
    ensures Pages(total, size) >= 1 && Pages(total, size) * size >= total
    ensures Pages(total, size) > 1 ==> (Pages(total, size) - 1) * size < total
  {
    EnoughPages(total, size);
    if Pages(total, size) > 1 {
      var full := (total + size - 1) / size;
      assert full * size + (total + size - 1) % size == total + size - 1;
      BeforeTheLast(total, size, full);
    }
  }
}
