/** When asking each tier for at most `limit` answers loses nothing: exact conditions for a tier and for a whole search. */
module SearchLimitLaws {
  import opened Basics
  import opened Ordering
  import opened SearchMerge
  import opened SearchMergeLaws

  // ---------------------------------------------------------------- skipping a tier

  /** A tier below a full list is skipped; asking it all the same would give the same list, whatever it answers. */
  lemma SkippingLosesNothing(hits: seq<Hit>, tier: Tier, limit: nat)
    ensures TierTaken(hits, tier, limit)
         == if tier.asked then Taken(hits, Fetched(tier.query, limit), tier.rank, limit) else hits
  {
    if |hits| >= limit {
      FullTakesNothing(hits, Fetched(tier.query, limit), tier.rank, limit);
    }
  }

  function MergedWithoutSkipping(tiers: seq<Tier>, limit: nat): seq<Hit> {
    if tiers == [] then []
    else
      var before, last := MergedWithoutSkipping(tiers[..|tiers| - 1], limit), tiers[|tiers| - 1];
      if last.asked then Taken(before, Fetched(last.query, limit), last.rank, limit) else before
  }

  /** Over a whole search the skipped tiers make no difference at all. */
  lemma {:induction false} SkippedTiersMakeNoDifference(tiers: seq<Tier>, limit: nat)
    ensures Merged(tiers, limit) == MergedWithoutSkipping(tiers, limit)
  {
    if tiers != [] {
      SkippedTiersMakeNoDifference(tiers[..|tiers| - 1], limit);
      SkippingLosesNothing(Merged(tiers[..|tiers| - 1], limit), tiers[|tiers| - 1], limit);
    }
  }

  // ---------------------------------------------------------------- names: two ascending answers

  ghost predicate Ascending(ids: seq<int>) {
    forall i, j :: 0 <= i < j < |ids| ==> ids[i] < ids[j]
  }

  lemma {:induction false} FirstOnlyFacts(ids: seq<int>)
    ensures NoRepeats(FirstOnly(ids))
    ensures forall id :: id in FirstOnly(ids) <==> id in ids
  {
    if ids != [] {
      FirstOnlyFacts(ids[..|ids| - 1]);
      assert ids == ids[..|ids| - 1] + [ids[|ids| - 1]];
    }
  }

  lemma SortedUnionFacts(a: seq<int>, b: seq<int>)
    ensures Ascending(SortedUnion(a, b))
    ensures forall id :: id in SortedUnion(a, b) <==> id in a || id in b
  {
    var once := FirstOnly(a + b);
    FirstOnlyFacts(a + b);
    DistinctKeysAreStrict(IdKey, once);
    var sorted := SortedUnion(a, b);
    forall i, j | 0 <= i < j < |sorted| ensures sorted[i] < sorted[j] {
      assert Before(IdKey(sorted[i]), IdKey(sorted[j]));
    }
    forall id ensures id in sorted <==> id in a || id in b {
      SortKeepsMembers(IdKey, once, id);
    }
  }

  /** An element of an ascending list stands no further along in a part of it. */
  lemma {:induction false} NoFurtherAlong(part: seq<int>, all: seq<int>, i: nat, k: nat)
    requires Ascending(part) && Ascending(all) && i < |part| && k < |all| && part[i] == all[k]
    requires forall id :: id in part ==> id in all
    ensures i <= k
  {
    if i > 0 {
      var id := part[i - 1];
      assert id in all;
      var k': nat :| k' < |all| && all[k'] == id;
      assert all[k'] < all[k];
      NoFurtherAlong(part, all, i - 1, k');
    }
  }

  /** Ascending lists that agree on the first members agree on the first places. */
  lemma {:induction false} FirstPlacesAgree(part: seq<int>, all: seq<int>, m: nat)
    requires Ascending(part) && Ascending(all) && m <= |all|
    requires forall id :: id in part ==> id in all
    requires forall k :: 0 <= k < m ==> all[k] in part
    ensures m <= |part| && part[..m] == all[..m]
  {
    if m > 0 {
      FirstPlacesAgree(part, all, m - 1);
      var p: nat :| p < |part| && part[p] == all[m - 1];
      NoFurtherAlong(part, all, p, m - 1);
      forall q | 0 <= q < m - 1 ensures part[q] == all[q] {
        assert part[..m - 1][q] == all[..m - 1][q];
      }
    }
  }

  lemma FewerMembers(part: seq<int>, all: seq<int>)
    requires Ascending(part) && Ascending(all) && |part| >= |all| && part[..|all|] == all
    requires forall id :: id in part ==> id in all
    ensures part == all
  {
    if part != [] {
      assert part[|part| - 1] in part;
      var k: nat :| k < |all| && all[k] == part[|part| - 1];
      NoFurtherAlong(part, all, |part| - 1, k);
    }
  }

  predicate EarlyNames(english: seq<int>, russian: seq<int>, limit: nat) {
    forall id | id in Cut(SortedUnion(english, russian), limit) :: id in Cut(english, limit) || id in Cut(russian, limit)
  }

  /**
   Cutting both answers before merging them gives the first names of the whole merge if and only if
   each of those first names stands among the first of its own answer.
   */
  lemma NamesCutIff(english: seq<int>, russian: seq<int>, limit: nat)
    ensures Fetched(Names(english, russian), limit) == Cut(Whole(Names(english, russian)), limit)
       <==> EarlyNames(english, russian, limit)
  {
    var all, part := SortedUnion(english, russian), SortedUnion(Cut(english, limit), Cut(russian, limit));
    SortedUnionFacts(english, russian);
    SortedUnionFacts(Cut(english, limit), Cut(russian, limit));
    if EarlyNames(english, russian, limit) {
      var m := if |all| <= limit then |all| else limit;
      forall k: nat | k < m ensures all[k] in part {
        assert all[k] == Cut(all, limit)[k] && all[k] in Cut(all, limit);
      }
      FirstPlacesAgree(part, all, m);
      if |all| <= limit {
        FewerMembers(part, all);
      }
    } else {
      var id :| id in Cut(all, limit) && id !in Cut(english, limit) && id !in Cut(russian, limit);
      assert id !in part && id !in Cut(part, limit);
    }
  }

  /** Answers that fit the limit need no order. */
  lemma UncutNamesAreEarly(english: seq<int>, russian: seq<int>, limit: nat)
    requires |english| <= limit && |russian| <= limit
    ensures EarlyNames(english, russian, limit)
  {
    SortedUnionFacts(english, russian);
  }

  /** Answers read by primary key may be cut. */
  lemma AscendingNamesAreEarly(english: seq<int>, russian: seq<int>, limit: nat)
    requires Ascending(english) && Ascending(russian)
    ensures EarlyNames(english, russian, limit)
  {
    var all := SortedUnion(english, russian);
    SortedUnionFacts(english, russian);
    forall id | id in Cut(all, limit) ensures id in Cut(english, limit) || id in Cut(russian, limit) {
      var k: nat :| k < |Cut(all, limit)| && Cut(all, limit)[k] == id;
      if id in english {
        var i: nat :| i < |english| && english[i] == id;
        NoFurtherAlong(english, all, i, k);
        assert Cut(english, limit)[i] == id;
      } else {
        var i: nat :| i < |russian| && russian[i] == id;
        NoFurtherAlong(russian, all, i, k);
        assert Cut(russian, limit)[i] == id;
      }
    }
  }

  // ---------------------------------------------------------------- one tier

  /** The parts of an answer that the list does not hold yet, each once. */
  function NewParts(parts: set<int>, ids: seq<int>): seq<int> {
    if ids == [] then []
    else
      var before, last := NewParts(parts, ids[..|ids| - 1]), ids[|ids| - 1];
      if last in parts || last in before then before else before + [last]
  }

  function Room(hits: seq<Hit>, limit: nat): nat {
    if |hits| < limit then limit - |hits| else 0
  }

  lemma {:induction false} NewPartsFacts(parts: set<int>, ids: seq<int>)
    ensures NoRepeats(NewParts(parts, ids))
    ensures forall id :: id in NewParts(parts, ids) <==> id in ids && id !in parts
  {
    if ids != [] {
      NewPartsFacts(parts, ids[..|ids| - 1]);
      MembersOfPrefix(ids);
    }
  }

  ghost function Members(ids: seq<int>): set<int> {
    set id | id in ids
  }

  lemma PartsOfLabelled(hits: seq<Hit>, ids: seq<int>, rank: nat)
    ensures PartsOf(hits + Labelled(ids, rank)) == PartsOf(hits) + Members(ids)
  {
    var all := hits + Labelled(ids, rank);
    forall part ensures part in PartsOf(all) <==> part in PartsOf(hits) || part in ids {
      if part in PartsOf(hits) {
        var hit :| hit in hits && hit.part == part;
        assert hit in all;
      }
      if part in ids {
        var k: nat :| k < |ids| && ids[k] == part;
        assert all[|hits| + k] == Hit(part, rank);
      }
    }
  }

  lemma AddOneMore(hits: seq<Hit>, before: seq<int>, last: int, rank: nat, room: nat, limit: nat)
    requires room == Room(hits, limit)
    ensures var list := hits + Labelled(Cut(before, room), rank);
      var after := if last in PartsOf(hits) || last in before then before else before + [last];
      hits + Labelled(Cut(after, room), rank) == if |list| >= limit || last in PartsOf(list) then list else list + [Hit(last, rank)]
  {
    PartsOfLabelled(hits, Cut(before, room), rank);
    if last !in PartsOf(hits) && last !in before {
      CutOfCut(before, last, room);
      assert hits + Labelled(before + [last], rank) == hits + Labelled(before, rank) + [Hit(last, rank)];
    }
  }

  /** What a tier adds: its new parts, as many as there is room for. */
  lemma {:induction false} TakenIsNew(hits: seq<Hit>, ids: seq<int>, rank: nat, limit: nat)
    ensures Taken(hits, ids, rank, limit)
         == hits + Labelled(Cut(NewParts(PartsOf(hits), ids), Room(hits, limit)), rank)
  {
    if ids == [] {
      assert hits + Labelled(Cut([], Room(hits, limit)), rank) == hits;
    } else {
      var first := ids[..|ids| - 1];
      TakenIsNew(hits, first, rank, limit);
      AddOneMore(hits, NewParts(PartsOf(hits), first), ids[|ids| - 1], rank, Room(hits, limit), limit);
    }
  }

  lemma {:induction false} NewPartsOfPrefix(parts: set<int>, ids: seq<int>, rest: seq<int>)
    ensures NewParts(parts, ids) <= NewParts(parts, ids + rest)
  {
    if rest == [] {
      assert ids + rest == ids;
    } else {
      NewPartsOfPrefix(parts, ids, rest[..|rest| - 1]);
      assert (ids + rest)[..|ids + rest| - 1] == ids + rest[..|rest| - 1];
    }
  }

  lemma {:induction false} NewPartsAscend(parts: set<int>, ids: seq<int>)
    requires Ascending(ids)
    ensures Ascending(NewParts(parts, ids))
  {
    if ids != [] {
      var first, last := ids[..|ids| - 1], ids[|ids| - 1];
      NewPartsAscend(parts, first);
      NewPartsFacts(parts, first);
      forall id | id in first ensures id < last {
        var k: nat :| k < |first| && first[k] == id;
        assert ids[k] == id;
      }
      assert forall k :: 0 <= k < |NewParts(parts, first)| ==> NewParts(parts, first)[k] in first;
    }
  }

  lemma {:induction false} TypedPrefix(numbers: seq<NumberRow>, limit: nat)
    ensures Typed(Cut(numbers, limit)) <= Typed(numbers)
  {
    if |numbers| > limit {
      var first := numbers[..|numbers| - 1];
      TypedPrefix(first, limit);
      assert Cut(first, limit) == Cut(numbers, limit);
    }
  }

  /** A query over one table is cut at its end. */
  lemma FetchedIsFirst(query: Query, limit: nat)
    requires !query.Names?
    ensures Fetched(query, limit) <= Whole(query)
  {
    if query.TypedNumbers? {
      TypedPrefix(query.numbers, limit);
    }
  }

  lemma FetchedNames(query: Query, limit: nat)
    requires query.Names?
    ensures Ascending(Fetched(query, limit)) && Ascending(Whole(query))
    ensures forall id :: id in Fetched(query, limit) ==> id in Whole(query)
  {
    SortedUnionFacts(query.english, query.russian);
    SortedUnionFacts(Cut(query.english, limit), Cut(query.russian, limit));
    var union := SortedUnion(Cut(query.english, limit), Cut(query.russian, limit));
    forall id | id in Fetched(query, limit) ensures id in Whole(query) {
      assert id in union;
    }
  }

  /** The new parts that would fill the list are among those the limited query returned. */
  ghost predicate FetchesEnough(hits: seq<Hit>, query: Query, limit: nat) {
    forall id | id in Cut(NewParts(PartsOf(hits), Whole(query)), Room(hits, limit)) :: id in Fetched(query, limit)
  }

  lemma NextIsNew(part: seq<int>, all: seq<int>)
    requires part < all && NoRepeats(all)
    ensures all[|part|] !in part
  {
    assert forall k :: 0 <= k < |part| ==> part[k] == all[k];
  }

  lemma PrefixIsEnough(part: seq<int>, all: seq<int>, room: nat)
    requires part <= all && NoRepeats(all)
    requires forall id :: id in Cut(all, room) ==> id in part
    ensures Cut(part, room) == Cut(all, room)
  {
    if part < all {
      NextIsNew(part, all);
    }
    forall k | 0 <= k < |Cut(all, room)| ensures all[k] in part {
      assert Cut(all, room)[k] == all[k];
    }
  }

  lemma AscendingIsEnough(part: seq<int>, all: seq<int>, room: nat)
    requires Ascending(part) && Ascending(all)
    requires forall id :: id in part ==> id in all
    requires forall id :: id in Cut(all, room) ==> id in part
    ensures Cut(part, room) == Cut(all, room)
  {
    var m := if |all| <= room then |all| else room;
    forall k: nat | k < m ensures all[k] in part {
      assert all[k] == Cut(all, room)[k] && all[k] in Cut(all, room);
    }
    FirstPlacesAgree(part, all, m);
    if |all| <= room {
      FewerMembers(part, all);
    }
  }

  lemma EnoughIsTheSame(parts: set<int>, query: Query, limit: nat, room: nat)
    requires forall id :: id in Cut(NewParts(parts, Whole(query)), room) ==> id in Fetched(query, limit)
    ensures Cut(NewParts(parts, Fetched(query, limit)), room) == Cut(NewParts(parts, Whole(query)), room)
  {
    var few, all := Fetched(query, limit), Whole(query);
    NewPartsFacts(parts, few);
    NewPartsFacts(parts, all);
    if query.Names? {
      FetchedNames(query, limit);
      NewPartsAscend(parts, few);
      NewPartsAscend(parts, all);
      AscendingIsEnough(NewParts(parts, few), NewParts(parts, all), room);
    } else {
      FetchedIsFirst(query, limit);
      assert all == few + all[|few|..];
      NewPartsOfPrefix(parts, few, all[|few|..]);
      PrefixIsEnough(NewParts(parts, few), NewParts(parts, all), room);
    }
  }

  lemma LabelledApart(hits: seq<Hit>, a: seq<int>, b: seq<int>, rank: nat)
    requires hits + Labelled(a, rank) == hits + Labelled(b, rank)
    ensures a == b
  {
    var both := hits + Labelled(a, rank);
    assert |a| == |b|;
    forall k | 0 <= k < |a| ensures a[k] == b[k] {
      assert both[|hits| + k] == Hit(a[k], rank);
      assert both[|hits| + k] == Hit(b[k], rank);
    }
  }

  /** For any list and any query: the limit loses nothing if and only if the query fetches enough. */
  lemma TierLosesNothingIff(hits: seq<Hit>, query: Query, rank: nat, limit: nat)
    ensures Taken(hits, Fetched(query, limit), rank, limit) == Taken(hits, Whole(query), rank, limit)
       <==> FetchesEnough(hits, query, limit)
  {
    var parts, room := PartsOf(hits), Room(hits, limit);
    var few, all := Cut(NewParts(parts, Fetched(query, limit)), room), Cut(NewParts(parts, Whole(query)), room);
    TakenIsNew(hits, Fetched(query, limit), rank, limit);
    TakenIsNew(hits, Whole(query), rank, limit);
    if FetchesEnough(hits, query, limit) {
      EnoughIsTheSame(parts, query, limit, room);
    } else if hits + Labelled(few, rank) == hits + Labelled(all, rank) {
      LabelledApart(hits, few, all, rank);
      NewPartsFacts(parts, Fetched(query, limit));
      assert false;
    }
  }

  // ---------------------------------------------------------------- the whole search

  /** The search as it would be if no query had a limit: each part at its first place, cut at the limit. */
  function WholeSearch(tiers: seq<Tier>, limit: nat): seq<Hit> {
    Cut(FirstOccurrences(Everything(tiers)), limit)
  }

  lemma WholeStep(tiers: seq<Tier>, limit: nat)
    requires tiers != []
    ensures var before, last := WholeSearch(tiers[..|tiers| - 1], limit), tiers[|tiers| - 1];
      WholeSearch(tiers, limit) == if last.asked then Taken(before, Whole(last.query), last.rank, limit) else before
  {
    var last := tiers[|tiers| - 1];
    TakingWholeIsFirstOccurrences(Everything(tiers[..|tiers| - 1]), Whole(last.query), last.rank, limit);
    assert !last.asked ==> Everything(tiers) == Everything(tiers[..|tiers| - 1]);
  }

  /** The tier, if it is asked, fetches enough for the list it finds. */
  ghost predicate EnoughAt(tiers: seq<Tier>, k: nat, limit: nat)
    requires k < |tiers|
  {
    tiers[k].asked ==> FetchesEnough(Merged(tiers[..k], limit), tiers[k].query, limit)
  }

  ghost predicate EachFetchesEnough(tiers: seq<Tier>, limit: nat) {
    forall k | 0 <= k < |tiers| :: EnoughAt(tiers, k, limit)
  }

  lemma EnoughEarlier(tiers: seq<Tier>, n: nat, k: nat, limit: nat)
    requires k < n <= |tiers|
    ensures EnoughAt(tiers[..n], k, limit) <==> EnoughAt(tiers, k, limit)
  {
    assert tiers[..n][..k] == tiers[..k];
  }

  lemma EnoughBefore(tiers: seq<Tier>, n: nat, limit: nat)
    requires EachFetchesEnough(tiers, limit) && n <= |tiers|
    ensures EachFetchesEnough(tiers[..n], limit)
  {
    forall k | 0 <= k < n ensures EnoughAt(tiers[..n], k, limit) {
      EnoughEarlier(tiers, n, k, limit);
    }
  }

  /** Where a tier fetches enough, it adds what it would without a limit. */
  lemma EnoughStep(hits: seq<Hit>, tier: Tier, limit: nat)
    requires tier.asked ==> FetchesEnough(hits, tier.query, limit)
    ensures TierTaken(hits, tier, limit) == if tier.asked then Taken(hits, Whole(tier.query), tier.rank, limit) else hits
  {
    SkippingLosesNothing(hits, tier, limit);
    TierLosesNothingIff(hits, tier.query, tier.rank, limit);
  }

  lemma {:induction false} EnoughIsTheWholeSearch(tiers: seq<Tier>, limit: nat)
    requires EachFetchesEnough(tiers, limit)
    ensures Merged(tiers, limit) == WholeSearch(tiers, limit)
  {
    if tiers != [] {
      var n := |tiers| - 1;
      EnoughBefore(tiers, n, limit);
      EnoughIsTheWholeSearch(tiers[..n], limit);
      WholeStep(tiers, limit);
      assert EnoughAt(tiers, n, limit);
      EnoughStep(Merged(tiers[..n], limit), tiers[n], limit);
    }
  }

  lemma {:induction false} MergedGrows(tiers: seq<Tier>, k: nat, limit: nat)
    requires k <= |tiers|
    ensures Merged(tiers[..k], limit) <= Merged(tiers, limit)
    decreases |tiers|
  {
    if k == |tiers| {
      assert tiers[..k] == tiers;
    } else {
      var before, last := tiers[..|tiers| - 1], tiers[|tiers| - 1];
      MergedGrows(before, k, limit);
      assert before[..k] == tiers[..k];
      TakenKeeps(Merged(before, limit), Fetched(last.query, limit), last.rank, limit);
    }
  }

  lemma {:induction false} WholeGrows(tiers: seq<Tier>, k: nat, limit: nat)
    requires k <= |tiers|
    ensures WholeSearch(tiers[..k], limit) <= WholeSearch(tiers, limit)
    decreases |tiers|
  {
    if k == |tiers| {
      assert tiers[..k] == tiers;
    } else {
      var before, last := tiers[..|tiers| - 1], tiers[|tiers| - 1];
      WholeGrows(before, k, limit);
      assert before[..k] == tiers[..k];
      WholeStep(tiers, limit);
      TakenKeeps(WholeSearch(before, limit), Whole(last.query), last.rank, limit);
    }
  }

  predicate IsLaterRank(tiers: seq<Tier>, k: nat, rank: nat) {
    exists j | k <= j < |tiers| :: tiers[j].asked && tiers[j].rank == rank
  }

  lemma TakenRanks(hits: seq<Hit>, ids: seq<int>, rank: nat, limit: nat, p: nat)
    requires |hits| <= p < |Taken(hits, ids, rank, limit)|
    ensures Taken(hits, ids, rank, limit)[p].rank == rank
  {
    TakenIsNew(hits, ids, rank, limit);
  }

  lemma LaterInMoreTiers(tiers: seq<Tier>, k: nat, rank: nat)
    requires tiers != [] && IsLaterRank(tiers[..|tiers| - 1], k, rank)
    ensures IsLaterRank(tiers, k, rank)
  {
    var before := tiers[..|tiers| - 1];
    var j :| k <= j < |before| && before[j].asked && before[j].rank == rank;
    assert tiers[j] == before[j];
  }

  /** What the list gains after its first tiers carries the rank of a later tier. */
  lemma {:induction false} LaterHits(tiers: seq<Tier>, k: nat, limit: nat, p: nat)
    requires k <= |tiers| && |Merged(tiers[..k], limit)| <= p < |Merged(tiers, limit)|
    ensures IsLaterRank(tiers, k, Merged(tiers, limit)[p].rank)
    decreases |tiers|
  {
    assert tiers[..|tiers|] == tiers;
    if k < |tiers| {
      var before, last := tiers[..|tiers| - 1], tiers[|tiers| - 1];
      assert before[..k] == tiers[..k];
      MergedGrows(tiers, |before|, limit);
      if p < |Merged(before, limit)| {
        LaterHits(before, k, limit, p);
        LaterInMoreTiers(tiers, k, Merged(before, limit)[p].rank);
      } else {
        TakenRanks(Merged(before, limit), Fetched(last.query, limit), last.rank, limit, p);
        assert tiers[|before|].asked;
      }
    }
  }

  // ---------------------------------------------------------------- a loss is never made up

  /** No answer of the query names a part twice. */
  ghost predicate Steady(query: Query) {
    match query
    case TypedNumbers(_) => false
    case EqualNumbers(_) => false
    case Rows(ids) => NoRepeats(ids)
    case Names(english, russian) => NoRepeats(english) && NoRepeats(russian)
  }

  lemma {:induction false} MembersAreFew(ids: seq<int>)
    ensures |Members(ids)| <= |ids|
  {
    if ids == [] {
      assert Members(ids) == {};
    } else {
      MembersAreFew(ids[..|ids| - 1]);
      MembersOfPrefix(ids);
      assert Members(ids) == Members(ids[..|ids| - 1]) + {ids[|ids| - 1]};
    }
  }

  lemma DistinctSubset(part: seq<int>, all: seq<int>)
    requires NoRepeats(part) && forall id :: id in part ==> id in all
    ensures |part| <= |all|
  {
    DistinctIdsAreMany(part, Members(all));
    MembersAreFew(all);
  }

  lemma ShortUnionIsUncut(english: seq<int>, russian: seq<int>, limit: nat)
    requires NoRepeats(english) && NoRepeats(russian)
    requires |Fetched(Names(english, russian), limit)| < limit
    ensures Fetched(Names(english, russian), limit) == Whole(Names(english, russian))
  {
    var union := SortedUnion(Cut(english, limit), Cut(russian, limit));
    SortedUnionFacts(Cut(english, limit), Cut(russian, limit));
    DistinctSubset(Cut(english, limit), union);
    DistinctSubset(Cut(russian, limit), union);
  }

  /** Unless it fills the list, a query whose answers repeat nothing was not cut. */
  lemma SteadyIsUncut(hits: seq<Hit>, query: Query, rank: nat, limit: nat)
    requires Steady(query) && |Taken(hits, Fetched(query, limit), rank, limit)| < limit
    ensures Fetched(query, limit) == Whole(query)
  {
    var few := Fetched(query, limit);
    var taken := Taken(hits, few, rank, limit);
    TakenParts(hits, few, rank, limit);
    PartsAreFew(taken);
    if query.Names? {
      FetchedNames(query, limit);
      DistinctIdsAreMany(few, PartsOf(taken));
      ShortUnionIsUncut(query.english, query.russian, limit);
    } else {
      assert NoRepeats(Cut(query.ids, limit));
      DistinctIdsAreMany(few, PartsOf(taken));
    }
  }

  lemma FewerNewParts(parts: set<int>, query: Query, limit: nat)
    ensures |NewParts(parts, Fetched(query, limit))| <= |NewParts(parts, Whole(query))|
  {
    NewPartsFacts(parts, Fetched(query, limit));
    NewPartsFacts(parts, Whole(query));
    if query.Names? {
      FetchedNames(query, limit);
    } else {
      FetchedIsFirst(query, limit);
      assert forall id :: id in Fetched(query, limit) ==> id in Whole(query);
    }
    DistinctSubset(NewParts(parts, Fetched(query, limit)), NewParts(parts, Whole(query)));
  }

  lemma LimitedTierIsShorter(hits: seq<Hit>, query: Query, rank: nat, limit: nat)
    ensures |Taken(hits, Fetched(query, limit), rank, limit)| <= |Taken(hits, Whole(query), rank, limit)|
  {
    TakenIsNew(hits, Fetched(query, limit), rank, limit);
    TakenIsNew(hits, Whole(query), rank, limit);
    FewerNewParts(PartsOf(hits), query, limit);
  }

  /** Where two tiers share a rank, the earlier one repeats no part. */
  ghost predicate SharedRanksAreSteady(tiers: seq<Tier>) {
    forall i, j | 0 <= i < j < |tiers| && tiers[i].asked && tiers[j].asked && tiers[i].rank == tiers[j].rank ::
      Steady(tiers[i].query)
  }

  lemma DifferentPrefixes<T>(a: seq<T>, b: seq<T>, s: seq<T>)
    requires a <= s && b <= s && |a| == |b|
    ensures a == b
  {
  }

  /** The first tier that fetches too little leaves a mark that no later tier removes. */
  lemma FirstLossStays(tiers: seq<Tier>, k: nat, limit: nat, few: seq<Hit>, all: seq<Hit>)
    requires k < |tiers| && tiers[k].asked && SharedRanksAreSteady(tiers)
    requires var hits, tier := Merged(tiers[..k], limit), tiers[k];
      && few == Taken(hits, Fetched(tier.query, limit), tier.rank, limit)
      && all == Taken(hits, Whole(tier.query), tier.rank, limit)
      && few != all
    requires few == Merged(tiers[..k + 1], limit) && all == WholeSearch(tiers[..k + 1], limit)
    ensures Merged(tiers, limit) != WholeSearch(tiers, limit)
  {
    var hits, tier, p := Merged(tiers[..k], limit), tiers[k], |few|;
    MergedGrows(tiers, k + 1, limit);
    WholeGrows(tiers, k + 1, limit);
    LimitedTierIsShorter(hits, tier.query, tier.rank, limit);
    if p == |all| {
      if Merged(tiers, limit) == WholeSearch(tiers, limit) {
        DifferentPrefixes(few, all, Merged(tiers, limit));
      }
    } else {
      TakenKeeps(hits, Fetched(tier.query, limit), tier.rank, limit);
      TakenKeeps(hits, Whole(tier.query), tier.rank, limit);
      TakenRanks(hits, Whole(tier.query), tier.rank, limit, p);
      if p < |Merged(tiers, limit)| {
        LaterHits(tiers, k + 1, limit, p);
        if Steady(tier.query) {
          TooShortToBeFull(hits, all, p, limit, tier);
          SteadyIsUncut(hits, tier.query, tier.rank, limit);
        }
      }
    }
  }

  lemma TooShortToBeFull(hits: seq<Hit>, all: seq<Hit>, p: nat, limit: nat, tier: Tier)
    requires all == Taken(hits, Whole(tier.query), tier.rank, limit) && |hits| <= p < |all|
    ensures p < limit
  {
    TakenKeeps(hits, Whole(tier.query), tier.rank, limit);
  }

  lemma {:induction false} FirstTierThatLoses(tiers: seq<Tier>, limit: nat) returns (k: nat)
    requires !EachFetchesEnough(tiers, limit)
    ensures k < |tiers| && !EnoughAt(tiers, k, limit) && EachFetchesEnough(tiers[..k], limit)
  {
    var late :| 0 <= late < |tiers| && !EnoughAt(tiers, late, limit);
    k := late;
    if !EachFetchesEnough(tiers[..late], limit) {
      k := FirstTierThatLoses(tiers[..late], limit);
      EnoughEarlier(tiers, late, k, limit);
      assert tiers[..late][..k] == tiers[..k];
    }
  }

  /** The limited search is the whole search, cut, if and only if every tier fetches enough in its turn. */
  lemma LimitedSearchIsTheWholeSearchIff(tiers: seq<Tier>, limit: nat)
    requires SharedRanksAreSteady(tiers)
    ensures Merged(tiers, limit) == WholeSearch(tiers, limit) <==> EachFetchesEnough(tiers, limit)
  {
    if EachFetchesEnough(tiers, limit) {
      EnoughIsTheWholeSearch(tiers, limit);
    } else {
      var k := FirstTierThatLoses(tiers, limit);
      var hits, tier, upTo := Merged(tiers[..k], limit), tiers[k], tiers[..k + 1];
      EnoughIsTheWholeSearch(tiers[..k], limit);
      assert upTo[..k] == tiers[..k] && upTo[k] == tier;
      WholeStep(upTo, limit);
      SkippingLosesNothing(hits, tier, limit);
      TierLosesNothingIff(hits, tier.query, tier.rank, limit);
      FirstLossStays(tiers, k, limit, Merged(upTo, limit), WholeSearch(upTo, limit));
    }
  }

  /** The search as documented: every applicable tier in full, each part at its best place, cut at the limit. */
  function WholeAnswer(r: Request, a: Answers, asked: int): seq<Hit> {
    if r.empty then [] else WholeSearch(Tiers(r, a), Limit(asked))
  }

  lemma TiersShareRanks(r: Request, a: Answers)
    requires Steady(a.namePrefix) && Steady(a.namePartial)
    ensures SharedRanksAreSteady(Tiers(r, a))
  {
    var tiers := Tiers(r, a);
    forall i, j | 0 <= i < j < |tiers| && tiers[i].rank == tiers[j].rank ensures Steady(tiers[i].query) {
      assert i == 6 || i == 8;
    }
  }

  /** The two name tiers followed by one of the same rank read keys, so each names a part at most once. */
  lemma SearchIsTheWholeSearchIff(r: Request, a: Answers, asked: int)
    requires Steady(a.namePrefix) && Steady(a.namePartial)
    ensures Search(r, a, asked) == WholeAnswer(r, a, asked) <==> r.empty || EachFetchesEnough(Tiers(r, a), Limit(asked))
  {
    TiersShareRanks(r, a);
    LimitedSearchIsTheWholeSearchIff(Tiers(r, a), Limit(asked));
  }

  // ---------------------------------------------------------------- answers that may always be cut

  /** What can be told from the answer alone, whatever list it meets. */
  ghost predicate Orderly(query: Query, limit: nat) {
    match query
    case TypedNumbers(numbers) => |numbers| <= limit
    case EqualNumbers(numbers) => |numbers| <= limit || NoRepeats(NumberParts(numbers))
    case Rows(ids) => |ids| <= limit || NoRepeats(ids)
    case Names(english, russian) => EarlyNames(english, russian, limit)
  }

  lemma OrderlyIsCut(query: Query, limit: nat)
    requires Orderly(query, limit)
    ensures Fetched(query, limit) == Whole(query) || NoRepeats(Whole(query))
    ensures Fetched(query, limit) == Cut(Whole(query), limit)
  {
    if query.Names? {
      NamesCutIff(query.english, query.russian, limit);
      SortedUnionFacts(query.english, query.russian);
    } else if query.TypedNumbers? {
      TypedAreFew(query.numbers);
    }
  }

  lemma {:induction false} TypedAreFew(numbers: seq<NumberRow>)
    ensures |Typed(numbers)| <= |numbers|
  {
    if numbers != [] {
      TypedAreFew(numbers[..|numbers| - 1]);
    }
  }

  lemma OrderlyFetchesEnough(hits: seq<Hit>, query: Query, limit: nat)
    requires Orderly(query, limit)
    ensures FetchesEnough(hits, query, limit)
  {
    OrderlyIsCut(query, limit);
    if NoRepeats(Whole(query)) {
      LimitingADistinctTier(hits, Whole(query), 0, limit);
    }
    TierLosesNothingIff(hits, query, 0, limit);
  }

  /** When every asked tier gives an orderly answer, the limits change nothing. */
  lemma LimitedSearchIsTheWholeSearch(tiers: seq<Tier>, limit: nat)
    requires forall k | 0 <= k < |tiers| && tiers[k].asked :: Orderly(tiers[k].query, limit)
    ensures Merged(tiers, limit) == WholeSearch(tiers, limit)
  {
    forall k | 0 <= k < |tiers| ensures EnoughAt(tiers, k, limit) {
      if tiers[k].asked {
        OrderlyFetchesEnough(Merged(tiers[..k], limit), tiers[k].query, limit);
      }
    }
    EnoughIsTheWholeSearch(tiers, limit);
  }

  // ---------------------------------------------------------------- two searches that lose a part

  /** The tier is asked in vain, or not at all. */
  predicate IsSilent(tier: Tier, limit: nat) {
    tier.asked ==> Whole(tier.query) == [] && Fetched(tier.query, limit) == []
  }

  lemma {:induction false} SilentTiers(tiers: seq<Tier>, n: nat, limit: nat)
    requires n <= |tiers|
    requires forall k | n <= k < |tiers| :: IsSilent(tiers[k], limit)
    ensures Merged(tiers, limit) == Merged(tiers[..n], limit) && Everything(tiers) == Everything(tiers[..n])
    decreases |tiers|
  {
    assert tiers[..|tiers|] == tiers;
    if n < |tiers| {
      var before, last := tiers[..|tiers| - 1], tiers[|tiers| - 1];
      SilentTiers(before, n, limit);
      assert before[..n] == tiers[..n];
      assert last.asked ==> Labelled(Whole(last.query), last.rank) == [];
    }
  }

  lemma SilentNames(limit: nat)
    ensures Whole(Names([], [])) == [] && Fetched(Names([], []), limit) == []
  {
    assert FirstOnly([] + []) == [];
  }

  const NOTHING := Names([], [])

  lemma AskedOnce(tier: Tier, limit: nat)
    requires tier.asked
    ensures Merged([tier], limit) == Taken([], Fetched(tier.query, limit), tier.rank, limit)
    ensures Everything([tier]) == Labelled(Whole(tier.query), tier.rank)
  {
    SkippingLosesNothing([], tier, limit);
    assert [tier][..0] == [];
    assert Everything([]) + Labelled(Whole(tier.query), tier.rank) == Labelled(Whole(tier.query), tier.rank);
  }

  lemma AskedNext(tiers: seq<Tier>, tier: Tier, limit: nat)
    requires tier.asked
    ensures Merged(tiers + [tier], limit) == Taken(Merged(tiers, limit), Fetched(tier.query, limit), tier.rank, limit)
    ensures Everything(tiers + [tier]) == Everything(tiers) + Labelled(Whole(tier.query), tier.rank)
  {
    SkippingLosesNothing(Merged(tiers, limit), tier, limit);
    assert (tiers + [tier])[..|tiers|] == tiers;
  }

  lemma TakeNext(hits: seq<Hit>, ids: seq<int>, part: int, rank: nat, limit: nat)
    ensures var before := Taken(hits, ids, rank, limit);
      Taken(hits, ids + [part], rank, limit) == if |before| >= limit || part in PartsOf(before) then before else before + [Hit(part, rank)]
  {
    assert (ids + [part])[..|ids|] == ids;
  }

  lemma {:induction false} NoneTyped(numbers: seq<NumberRow>)
    requires forall k :: 0 <= k < |numbers| ==> !numbers[k].typed
    ensures Typed(numbers) == []
  {
    if numbers != [] {
      NoneTyped(numbers[..|numbers| - 1]);
    }
  }

  /** Part 1 has the number under two kinds, part 2 once; none is written the way the user typed it. */
  const TWICE_AND_ONCE := [NumberRow(1, false), NumberRow(1, false), NumberRow(2, false)]

  lemma NumbersOfTwo(numbers: seq<NumberRow>, first: seq<NumberRow>)
    requires numbers == TWICE_AND_ONCE && first == Cut(numbers, 2)
    ensures Typed(numbers) == [] && Typed(first) == []
    ensures NumberParts(numbers) == [1, 1, 2] && NumberParts(first) == [1, 1]
  {
    NoneTyped(numbers);
    NoneTyped(first);
  }

  lemma TakenAgain(hits: seq<Hit>, ids: seq<int>, part: int, rank: nat, limit: nat)
    requires part in PartsOf(Taken(hits, ids, rank, limit))
    ensures Taken(hits, ids + [part], rank, limit) == Taken(hits, ids, rank, limit)
  {
    TakeNext(hits, ids, part, rank, limit);
  }

  lemma TakenAnew(hits: seq<Hit>, ids: seq<int>, part: int, rank: nat, limit: nat)
    requires part !in PartsOf(Taken(hits, ids, rank, limit)) && |Taken(hits, ids, rank, limit)| < limit
    ensures Taken(hits, ids + [part], rank, limit) == Taken(hits, ids, rank, limit) + [Hit(part, rank)]
  {
    TakeNext(hits, ids, part, rank, limit);
  }

  lemma OneIsTaken(one: seq<int>)
    requires one == [1]
    ensures Taken([], one, 2, 2) == [Hit(1, 2)] && PartsOf(Taken([], one, 2, 2)) == {1}
  {
    var nothing: seq<int> := [];
    TakenAnew([], nothing, 1, 2, 2);
    assert nothing + [1] == one;
    assert [] + [Hit(1, 2)] == [Hit(1, 2)];
    PartsAppend([], Hit(1, 2));
  }

  lemma OneIsTakenOnce(one: seq<int>, two: seq<int>, three: seq<int>)
    requires one == [1] && two == [1, 1] && three == [1, 1, 2]
    ensures Taken([], two, 2, 2) == [Hit(1, 2)]
    ensures Taken([], three, 2, 2) == [Hit(1, 2), Hit(2, 2)]
  {
    OneIsTaken(one);
    TakenAgain([], one, 1, 2, 2);
    assert one + [1] == two;
    TakenAnew([], two, 2, 2, 2);
    assert two + [2] == three;
  }

  /**
   A two-character number that one part has twice takes both places of a search for two: the second part is
   lost although the list is not full, and so short a query reaches no prefix or substring tier.
   */
  lemma RepeatedNumbersHideAPart(r: Request, a: Answers)
    requires r == Request(false, 2, 2, 2, false, false)
    requires a == Answers(TWICE_AND_ONCE, [], [], NOTHING, NOTHING, NOTHING, NOTHING, NOTHING, NOTHING, NOTHING, [])
    ensures Search(r, a, 2) == [Hit(1, 2)]
    ensures WholeAnswer(r, a, 2) == [Hit(1, 2), Hit(2, 2)]
  {
    var tiers := Tiers(r, a);
    NumbersOfTwo(TWICE_AND_ONCE, Cut(TWICE_AND_ONCE, 2));
    OneIsTakenOnce([1], [1, 1], [1, 1, 2]);
    SilentNames(2);
    SilentTiers(tiers, 2, 2);
    AskedOnce(tiers[0], 2);
    AskedNext([tiers[0]], tiers[1], 2);
    assert tiers[..2] == [tiers[0]] + [tiers[1]];
    TakingWholeIsFirstOccurrences([], [1, 1, 2], 2, 2);
    assert Everything(tiers) == [] + Labelled([1, 1, 2], 2);
  }

  lemma SameMembersAscending(ids: seq<int>, all: seq<int>)
    requires Ascending(ids) && Ascending(all) && forall id :: id in ids <==> id in all
    ensures ids == all
  {
    forall k | 0 <= k < |all| ensures all[k] in ids {
      assert all[k] in all;
    }
    FirstPlacesAgree(ids, all, |all|);
    assert all[..|all|] == all;
    FewerMembers(ids, all);
  }

  lemma OnlyFive(cut: seq<int>)
    requires cut == [5]
    ensures SortedUnion(cut, []) == [5]
  {
    SortedUnionFacts(cut, []);
    SameMembersAscending(SortedUnion(cut, []), [5]);
  }

  lemma ThreeAndFive(names: seq<int>)
    requires names == [5, 3]
    ensures SortedUnion(names, []) == [3, 5]
  {
    SortedUnionFacts(names, []);
    SameMembersAscending(SortedUnion(names, []), [3, 5]);
  }

  lemma FiveAndThree()
    ensures Fetched(Names([5, 3], []), 1) == [5] && Whole(Names([5, 3], [])) == [3, 5]
  {
    assert Cut([5, 3], 1) == [5];
    OnlyFive(Cut([5, 3], 1));
    ThreeAndFive([5, 3]);
  }

  lemma FirstFillsTheList(part: int, ids: seq<int>, rank: nat)
    requires ids == [part] || (|ids| == 2 && ids[0] == part)
    ensures Taken([], ids, rank, 1) == [Hit(part, rank)]
  {
    TakeNext([], [], part, rank, 1);
    assert [] + [part] == [part];
    if |ids| == 2 {
      TakeNext([], [part], ids[1], rank, 1);
      assert [part] + [ids[1]] == ids;
    }
  }

  lemma NamesAreTheFirstToAnswer(tiers: seq<Tier>)
    requires |tiers| == 6 && forall k | 0 <= k < 4 :: IsSilent(tiers[k], 1)
    requires tiers[4] == Tier(5, true, Names([5, 3], [])) && tiers[5].asked
    ensures Merged(tiers, 1) == [Hit(5, 5)] && WholeSearch(tiers, 1) == [Hit(3, 5)]
  {
    var upTo := tiers[..5];
    assert upTo[..4] == tiers[..4];
    FiveAndThree();
    SilentTiers(tiers[..4], 0, 1);
    FirstFillsTheList(5, [5], 5);
    FirstFillsTheList(3, [3, 5], 5);
    AskedNext(tiers[..4], tiers[4], 1);
    assert tiers[..4] + [tiers[4]] == upTo;
    WholeStep(upTo, 1);
    WholeStep(tiers, 1);
    FullTakesNothing([Hit(3, 5)], Whole(tiers[5].query), tiers[5].rank, 1);
  }

  lemma OtherTiersAreSilent(r: Request, a: Answers, k: nat, limit: nat)
    requires a.numbers == [] && a.articlePrefix == [] && a.articlePartial == [] && a.fuzzy == []
    requires a.namePrefix == a.compactPrefix == a.namePartial == a.compactPartial == a.allWords == NOTHING
    requires k < 12 && k != 4 && k != 5
    ensures IsSilent(Tiers(r, a)[k], limit)
  {
    SilentNames(limit);
  }

  /**
   Two cards of one name, read in the order of their names: a search for one part keeps the card read first,
   the whole answer the one with the smaller key.
   */
  lemma NamesReadByNameMissTheFirst(r: Request, a: Answers)
    requires r == Request(false, 2, 2, 2, false, true)
    requires a == Answers([], [], [], Names([5, 3], []), Names([5, 3], []), NOTHING, NOTHING, NOTHING, NOTHING, NOTHING, [])
    ensures Search(r, a, 1) == [Hit(5, 5)]
    ensures WholeAnswer(r, a, 1) == [Hit(3, 5)]
  {
    var tiers := Tiers(r, a);
    forall k | 0 <= k < |tiers| && k != 4 && k != 5 ensures IsSilent(tiers[k], 1) {
      OtherTiersAreSilent(r, a, k, 1);
    }
    SilentTiers(tiers, 6, 1);
    NamesAreTheFirstToAnswer(tiers[..6]);
  }
}
