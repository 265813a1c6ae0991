/**
 The tiered search: each tier is asked for at most `limit` answers, tiers below a full list are skipped,
 and a part keeps the best tier that returned it.

 What a query returns without its limit is a given sequence; the score of a fuzzy answer shows only in
 the order of its tier.
 */
module SearchMerge {
  import opened Basics
  import opened Ordering

  const MIN_PREFIX := 3
  const MIN_PARTIAL := 4
  const MIN_FUZZY := 4
  const RESULT_CAP := 300

  datatype Hit = Hit(part: int, rank: nat)

  function PartsOf(hits: seq<Hit>): set<int> {
    set hit | hit in hits :: hit.part
  }

  // ---------------------------------------------------------------- one tier

  /** Takes answers in order, each part once, until the list is full. */
  function Taken(hits: seq<Hit>, ids: seq<int>, rank: nat, limit: nat): seq<Hit> {
    if ids == [] then hits
    else
      var before, part := Taken(hits, ids[..|ids| - 1], rank, limit), ids[|ids| - 1];
      if |before| >= limit || part in PartsOf(before) then before else before + [Hit(part, rank)]
  }

  /** A number that equals the query when separators are dropped, and whether it was typed exactly so. */
  datatype NumberRow = NumberRow(part: int, typed: bool)

  datatype Query =
    | TypedNumbers(numbers: seq<NumberRow>)
    | EqualNumbers(numbers: seq<NumberRow>)
    | Rows(ids: seq<int>)
    | Names(english: seq<int>, russian: seq<int>)

  function Typed(numbers: seq<NumberRow>): seq<int> {
    if numbers == [] then []
    else
      var last := numbers[|numbers| - 1];
      Typed(numbers[..|numbers| - 1]) + (if last.typed then [last.part] else [])
  }

  function NumberParts(numbers: seq<NumberRow>): (parts: seq<int>)
    ensures |parts| == |numbers| && forall k :: 0 <= k < |parts| ==> parts[k] == numbers[k].part
  {
    seq(|numbers|, k requires 0 <= k < |numbers| => numbers[k].part)
  }

  function FirstOnly(ids: seq<int>): seq<int> {
    if ids == [] then []
    else
      var before, last := FirstOnly(ids[..|ids| - 1]), ids[|ids| - 1];
      if last in before then before else before + [last]
  }

  function IdKey(id: int): Key {
    Key(id, 0, 0)
  }

  /** The union of two answers by ascending primary key. */
  function SortedUnion(a: seq<int>, b: seq<int>): seq<int> {
    Sort(IdKey, FirstOnly(a + b))
  }

  /** What a tier gets: the limit cuts each underlying query, not the tier as a whole. */
  function Fetched(query: Query, limit: nat): seq<int> {
    match query
    case TypedNumbers(numbers) => Typed(Cut(numbers, limit))
    case EqualNumbers(numbers) => NumberParts(Cut(numbers, limit))
    case Rows(ids) => Cut(ids, limit)
    case Names(english, russian) => Cut(SortedUnion(Cut(english, limit), Cut(russian, limit)), limit)
  }

  function Whole(query: Query): seq<int> {
    match query
    case TypedNumbers(numbers) => Typed(numbers)
    case EqualNumbers(numbers) => NumberParts(numbers)
    case Rows(ids) => ids
    case Names(english, russian) => SortedUnion(english, russian)
  }

  // ---------------------------------------------------------------- the tiers in order

  datatype Tier = Tier(rank: nat, asked: bool, query: Query)

  /** What the query looks like once cleaned and folded. */
  datatype Request = Request(empty: bool, length: nat, normalized: nat, compact: nat, manyWords: bool, hasLetter: bool)

  datatype Answers = Answers(
    numbers: seq<NumberRow>, articlePrefix: seq<int>, articlePartial: seq<int>,
    exactName: Query, compactExact: Query, namePrefix: Query, compactPrefix: Query,
    namePartial: Query, compactPartial: Query, allWords: Query, fuzzy: seq<int>)

  function Tiers(r: Request, a: Answers): seq<Tier> {
    [ Tier(1, r.normalized > 0, TypedNumbers(a.numbers)),
      Tier(2, r.normalized > 0, EqualNumbers(a.numbers)),
      Tier(3, r.normalized >= MIN_PREFIX, Rows(a.articlePrefix)),
      Tier(4, r.normalized >= MIN_PARTIAL, Rows(a.articlePartial)),
      Tier(5, true, a.exactName),
      Tier(6, r.compact > 0, a.compactExact),
      Tier(7, r.length >= MIN_PREFIX, a.namePrefix),
      Tier(7, r.length >= MIN_PREFIX && r.compact >= MIN_PREFIX, a.compactPrefix),
      Tier(8, r.length >= MIN_PARTIAL, a.namePartial),
      Tier(8, r.length >= MIN_PARTIAL && r.compact >= MIN_PARTIAL, a.compactPartial),
      Tier(9, r.manyWords, a.allWords),
      Tier(10, r.length >= MIN_FUZZY && r.hasLetter, Rows(a.fuzzy)) ]
  }

  function TierTaken(hits: seq<Hit>, tier: Tier, limit: nat): seq<Hit> {
    if tier.asked && |hits| < limit then Taken(hits, Fetched(tier.query, limit), tier.rank, limit) else hits
  }

  function Merged(tiers: seq<Tier>, limit: nat): seq<Hit> {
    if tiers == [] then [] else TierTaken(Merged(tiers[..|tiers| - 1], limit), tiers[|tiers| - 1], limit)
  }

  function Limit(asked: int): nat {
    Max(1, Min(asked, RESULT_CAP))
  }

  lemma {:induction false} FullTakesNothing(hits: seq<Hit>, ids: seq<int>, rank: nat, limit: nat)
    requires |hits| >= limit
    ensures Taken(hits, ids, rank, limit) == hits
  {
    if ids != [] {
      FullTakesNothing(hits, ids[..|ids| - 1], rank, limit);
    }
  }

  class TieredSearch {
    var hits: seq<Hit>
    var seen: set<int>
    const limit: nat

    ghost predicate Valid()
      reads this
    {
      seen == PartsOf(hits)
    }

    constructor (asked: int)
      ensures Valid() && hits == [] && limit == Limit(asked)
    {
      hits, seen, limit := [], {}, Max(1, Min(asked, RESULT_CAP));
    }

    method Take(ids: seq<int>, rank: nat)
      requires Valid()
      modifies this
      ensures Valid() && hits == Taken(old(hits), ids, rank, limit)
    {
      for k := 0 to |ids|
        invariant Valid() && hits == Taken(old(hits), ids[..k], rank, limit)
      {
        assert ids[..k + 1][..k] == ids[..k];
        if |hits| >= limit {
          TakenInParts(old(hits), ids[..k], ids[k..], rank, limit);
          assert ids == ids[..k] + ids[k..];
          FullTakesNothing(hits, ids[k..], rank, limit);
          return;
        }
        if ids[k] !in seen {
          seen := seen + {ids[k]};
          hits := hits + [Hit(ids[k], rank)];
        }
      }
      assert ids[..|ids|] == ids;
    }

    /** Asks one tier unless the list is already full or the query does not qualify. */
    method Ask(tier: Tier)
      requires Valid()
      modifies this
      ensures Valid() && hits == TierTaken(old(hits), tier, limit)
    {
      if |hits| < limit && tier.asked {
        Take(Fetched(tier.query, limit), tier.rank);
      }
    }
  }

  lemma {:induction false} TakenInParts(hits: seq<Hit>, a: seq<int>, b: seq<int>, rank: nat, limit: nat)
    ensures Taken(hits, a + b, rank, limit) == Taken(Taken(hits, a, rank, limit), b, rank, limit)
  {
    if b == [] {
      assert a + b == a;
    } else {
      TakenInParts(hits, a, b[..|b| - 1], rank, limit);
      assert (a + b)[..|a + b| - 1] == a + b[..|b| - 1];
    }
  }

  function Search(r: Request, a: Answers, asked: int): seq<Hit> {
    if r.empty then [] else Merged(Tiers(r, a), Limit(asked))
  }

  method SearchPartIds(r: Request, a: Answers, asked: int) returns (hits: seq<Hit>)
    ensures hits == Search(r, a, asked)
  {
    if r.empty {
      return [];
    }
    var search := new TieredSearch(asked);
    var tiers := Tiers(r, a);
    for k := 0 to |tiers|
      invariant search.Valid() && search.hits == Merged(tiers[..k], search.limit)
      invariant search.limit == Limit(asked)
      invariant fresh(search)
    {
      assert tiers[..k + 1][..k] == tiers[..k];
      search.Ask(tiers[k]);
    }
    assert tiers[..|tiers|] == tiers;
    hits := search.hits;
  }

  // ---------------------------------------------------------------- pages of the search

  datatype Page = Page(hits: seq<Hit>, page: nat, size: nat, total: nat, hasMore: bool, truncated: bool)

  const MAX_PAGE_SIZE := 50
  const DEFAULT_PAGE_SIZE := 20

  function PageSize(asked: int): nat {
    Max(1, Min(if asked == 0 then DEFAULT_PAGE_SIZE else asked, MAX_PAGE_SIZE))
  }

  function Window<T>(s: seq<T>, page: nat, size: nat): seq<T>
    requires page >= 1 && size >= 1
  {
    var start := (page - 1) * size;
    assert start >= 0;
    if start >= |s| then [] else if start + size >= |s| then s[start..] else s[start..start + size]
  }

  method SearchParts(r: Request, a: Answers, page: int, size: int) returns (shown: Page)
    ensures var ranked, p, n := Search(r, a, RESULT_CAP), Max(1, page), PageSize(size);
      shown == Page(Window(ranked, p, n), p, n, |ranked|, |ranked| > p * n, |ranked| >= RESULT_CAP)
  {
    var ranked := SearchPartIds(r, a, RESULT_CAP);
    var p, n := Max(1, page), PageSize(size);
    assert (p - 1) * n + n == p * n;
    shown := Page(Window(ranked, p, n), p, n, |ranked|, |ranked| > (p - 1) * n + n, |ranked| >= RESULT_CAP);
  }

  /** The first pages laid end to end are the beginning of the list. */
  function FirstPages<T>(s: seq<T>, pages: nat, size: nat): seq<T>
    requires size >= 1
  {
    if pages == 0 then [] else FirstPages(s, pages - 1, size) + Window(s, pages, size)
  }

  lemma NextWindow<T>(s: seq<T>, start: nat, page: nat, size: nat)
    requires page >= 1 && size >= 1 && start == (page - 1) * size
    ensures Cut(s, start) + Window(s, page, size) == Cut(s, start + size)
  {
  }

  lemma {:induction false} PagesLieEndToEnd<T>(s: seq<T>, pages: nat, size: nat)
    requires size >= 1
    ensures FirstPages(s, pages, size) == Cut(s, pages * size)
  {
    if pages > 0 {
      PagesLieEndToEnd(s, pages - 1, size);
      NextWindow(s, (pages - 1) * size, pages, size);
      assert (pages - 1) * size + size == pages * size;
    }
  }
}
