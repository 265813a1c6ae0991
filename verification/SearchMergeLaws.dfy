/** What the merged list promises: the reference it is measured by, what cutting one tier does, and the ranks. */
module SearchMergeLaws {
  import opened Basics
  import opened Ordering
  import opened SearchMerge

  // ---------------------------------------------------------------- the reference: first occurrences

  function Labelled(ids: seq<int>, rank: nat): (all: seq<Hit>)
    ensures |all| == |ids| && forall k :: 0 <= k < |ids| ==> all[k] == Hit(ids[k], rank)
  {
    seq(|ids|, k requires 0 <= k < |ids| => Hit(ids[k], rank))
  }

  /** Everything every applicable tier has to say, in tier order. */
  function Everything(tiers: seq<Tier>): seq<Hit> {
    if tiers == [] then []
    else
      var last := tiers[|tiers| - 1];
      Everything(tiers[..|tiers| - 1]) + (if last.asked then Labelled(Whole(last.query), last.rank) else [])
  }

  /** Each part only where it is named first. */
  function FirstOccurrences(all: seq<Hit>): seq<Hit> {
    if all == [] then []
    else
      var before, last := FirstOccurrences(all[..|all| - 1]), all[|all| - 1];
      if last.part in PartsOf(all[..|all| - 1]) then before else before + [last]
  }

  lemma {:induction false} SameParts(all: seq<Hit>)
    ensures PartsOf(FirstOccurrences(all)) == PartsOf(all)
  {
    if all != [] {
      var before, last := all[..|all| - 1], all[|all| - 1];
      SameParts(before);
      assert all == before + [last];
      assert PartsOf(all) == PartsOf(before) + {last.part};
      if last.part !in PartsOf(before) {
        assert PartsOf(FirstOccurrences(before) + [last]) == PartsOf(FirstOccurrences(before)) + {last.part};
      }
    }
  }

  lemma {:induction false} FirstOccurrencesAppend(all: seq<Hit>, hit: Hit)
    ensures FirstOccurrences(all + [hit]) == if hit.part in PartsOf(all) then FirstOccurrences(all) else FirstOccurrences(all) + [hit]
  {
    assert (all + [hit])[..|all|] == all;
  }

  // ---------------------------------------------------------------- taking whole tiers

  lemma CutOfCut<T>(s: seq<T>, x: T, limit: nat)
    ensures Cut(s + [x], limit) == if |s| >= limit then Cut(s, limit) else s + [x]
  {
  }

  lemma PartsOfCut(s: seq<Hit>, limit: nat)
    requires |s| <= limit
    ensures PartsOf(Cut(s, limit)) == PartsOf(s)
  {
  }

  lemma {:induction false} TakingWholeIsFirstOccurrences(all: seq<Hit>, ids: seq<int>, rank: nat, limit: nat)
    ensures Taken(Cut(FirstOccurrences(all), limit), ids, rank, limit)
         == Cut(FirstOccurrences(all + Labelled(ids, rank)), limit)
  {
    if ids == [] {
      assert all + Labelled(ids, rank) == all;
    } else {
      var before, hit := ids[..|ids| - 1], Hit(ids[|ids| - 1], rank);
      TakingWholeIsFirstOccurrences(all, before, rank, limit);
      var earlier := all + Labelled(before, rank);
      assert all + Labelled(ids, rank) == earlier + [hit];
      FirstOccurrencesAppend(earlier, hit);
      SameParts(earlier);
      CutOfCut(FirstOccurrences(earlier), hit, limit);
      if |FirstOccurrences(earlier)| <= limit {
        PartsOfCut(FirstOccurrences(earlier), limit);
      }
    }
  }

  // ---------------------------------------------------------------- limiting a tier

  lemma PartsAppend(hits: seq<Hit>, hit: Hit)
    ensures PartsOf(hits + [hit]) == PartsOf(hits) + {hit.part}
  {
    var after := hits + [hit];
    assert forall h :: h in after <==> h in hits || h == hit;
  }

  lemma MembersOfPrefix(ids: seq<int>)
    requires ids != []
    ensures forall id :: id in ids <==> id in ids[..|ids| - 1] || id == ids[|ids| - 1]
  {
    assert ids == ids[..|ids| - 1] + [ids[|ids| - 1]];
  }

  lemma TakenStep(before: seq<Hit>, id: int, rank: nat, limit: nat, after: seq<Hit>)
    requires after == if |before| >= limit || id in PartsOf(before) then before else before + [Hit(id, rank)]
    ensures PartsOf(before) <= PartsOf(after) <= PartsOf(before) + {id}
    ensures |after| < limit ==> id in PartsOf(after)
  {
    PartsAppend(before, Hit(id, rank));
  }

  lemma {:induction false} TakenKeeps(hits: seq<Hit>, ids: seq<int>, rank: nat, limit: nat)
    ensures |hits| <= |Taken(hits, ids, rank, limit)| <= Max(|hits|, limit)
    ensures Taken(hits, ids, rank, limit)[..|hits|] == hits
  {
    if ids != [] {
      TakenKeeps(hits, ids[..|ids| - 1], rank, limit);
    }
  }

  /** The parts in the list are old ones and taken ones; all of them are there while it is not full. */
  lemma {:induction false} TakenParts(hits: seq<Hit>, ids: seq<int>, rank: nat, limit: nat)
    ensures forall part :: part in PartsOf(Taken(hits, ids, rank, limit)) ==> part in PartsOf(hits) || part in ids
    ensures |Taken(hits, ids, rank, limit)| < limit ==> forall id :: id in ids ==> id in PartsOf(Taken(hits, ids, rank, limit))
  {
    if ids != [] {
      var earlier, last := ids[..|ids| - 1], ids[|ids| - 1];
      TakenParts(hits, earlier, rank, limit);
      MembersOfPrefix(ids);
      TakenStep(Taken(hits, earlier, rank, limit), last, rank, limit, Taken(hits, ids, rank, limit));
    }
  }

  lemma {:induction false} NothingNewIsTaken(hits: seq<Hit>, ids: seq<int>, rank: nat, limit: nat)
    requires forall id :: id in ids ==> id in PartsOf(hits)
    ensures Taken(hits, ids, rank, limit) == hits
  {
    if ids != [] {
      NothingNewIsTaken(hits, ids[..|ids| - 1], rank, limit);
    }
  }

  /**
   Leaving off the rest of a tier changes nothing if and only if the list is full by then or the rest
   names no new part.
   */
  lemma CuttingLosesNothingIff(hits: seq<Hit>, ids: seq<int>, rest: seq<int>, rank: nat, limit: nat)
    ensures Taken(hits, ids, rank, limit) == Taken(hits, ids + rest, rank, limit) <==>
      || |Taken(hits, ids, rank, limit)| >= limit
      || forall id :: id in rest ==> id in PartsOf(Taken(hits, ids, rank, limit))
  {
    var taken := Taken(hits, ids, rank, limit);
    TakenInParts(hits, ids, rest, rank, limit);
    TakenParts(taken, rest, rank, limit);
    if |taken| >= limit {
      FullTakesNothing(taken, rest, rank, limit);
    } else if forall id :: id in rest ==> id in PartsOf(taken) {
      NothingNewIsTaken(taken, rest, rank, limit);
    }
  }

  lemma {:induction false} DistinctIdsAreMany(ids: seq<int>, parts: set<int>)
    requires NoRepeats(ids) && forall id :: id in ids ==> id in parts
    ensures |ids| <= |parts|
  {
    if ids != [] {
      var last := ids[|ids| - 1];
      DistinctIdsAreMany(ids[..|ids| - 1], parts - {last});
    }
  }

  lemma {:induction false} PartsAreFew(hits: seq<Hit>)
    ensures |PartsOf(hits)| <= |hits|
  {
    if hits != [] {
      PartsAreFew(hits[..|hits| - 1]);
      assert hits == hits[..|hits| - 1] + [hits[|hits| - 1]];
      assert PartsOf(hits) == PartsOf(hits[..|hits| - 1]) + {hits[|hits| - 1].part};
    } else {
      assert PartsOf(hits) == {};
    }
  }

  /** A tier without repeats need not be asked for more than the list can hold. */
  lemma LimitingADistinctTier(hits: seq<Hit>, ids: seq<int>, rank: nat, limit: nat)
    requires NoRepeats(ids)
    ensures Taken(hits, Cut(ids, limit), rank, limit) == Taken(hits, ids, rank, limit)
  {
    if |ids| > limit {
      var first := ids[..limit];
      var taken := Taken(hits, first, rank, limit);
      TakenParts(hits, first, rank, limit);
      if |taken| < limit {
        assert NoRepeats(first);
        DistinctIdsAreMany(first, PartsOf(taken));
        PartsAreFew(taken);
      }
      assert ids == first + ids[limit..];
      CuttingLosesNothingIff(hits, first, ids[limit..], rank, limit);
    }
  }

  // ---------------------------------------------------------------- what every search promises

  ghost predicate Ranked(hits: seq<Hit>) {
    && (forall i, j :: 0 <= i < j < |hits| ==> hits[i].part != hits[j].part)
    && (forall i, j :: 0 <= i < j < |hits| ==> hits[i].rank <= hits[j].rank)
  }

  lemma {:induction false} TakenStaysRanked(hits: seq<Hit>, ids: seq<int>, rank: nat, limit: nat)
    requires Ranked(hits) && forall k :: 0 <= k < |hits| ==> hits[k].rank <= rank
    ensures Ranked(Taken(hits, ids, rank, limit))
    ensures forall k :: 0 <= k < |Taken(hits, ids, rank, limit)| ==> Taken(hits, ids, rank, limit)[k].rank <= rank
  {
    if ids != [] {
      TakenStaysRanked(hits, ids[..|ids| - 1], rank, limit);
    }
  }

  predicate InTierOrder(tiers: seq<Tier>) {
    forall i, j :: 0 <= i < j < |tiers| ==> tiers[i].rank <= tiers[j].rank
  }

  lemma {:induction false} MergedIsRanked(tiers: seq<Tier>, limit: nat, rank: nat)
    requires InTierOrder(tiers) && forall k :: 0 <= k < |tiers| ==> tiers[k].rank <= rank
    ensures Ranked(Merged(tiers, limit)) && |Merged(tiers, limit)| <= limit
    ensures forall k :: 0 <= k < |Merged(tiers, limit)| ==> Merged(tiers, limit)[k].rank <= rank
    decreases |tiers|
  {
    if tiers != [] {
      var before, tier := tiers[..|tiers| - 1], tiers[|tiers| - 1];
      MergedIsRanked(before, limit, tier.rank);
      if tier.asked {
        TakenStaysRanked(Merged(before, limit), Fetched(tier.query, limit), tier.rank, limit);
        TakenKeeps(Merged(before, limit), Fetched(tier.query, limit), tier.rank, limit);
      }
    }
  }

  /** Every search lists different parts, never lowers a rank, and holds at most the limit. */
  lemma SearchIsRanked(r: Request, a: Answers, asked: int)
    ensures Ranked(Search(r, a, asked)) && |Search(r, a, asked)| <= Limit(asked)
  {
    MergedIsRanked(Tiers(r, a), Limit(asked), 10);
  }

  lemma {:induction false} TakenSource(hits: seq<Hit>, ids: seq<int>, rank: nat, limit: nat, hit: Hit)
    requires hit in Taken(hits, ids, rank, limit)
    ensures hit in hits || (hit.rank == rank && hit.part in ids && hit.part !in PartsOf(hits))
  {
    if ids != [] {
      var before := Taken(hits, ids[..|ids| - 1], rank, limit);
      if hit in before {
        TakenSource(hits, ids[..|ids| - 1], rank, limit, hit);
      } else {
        TakenKeeps(hits, ids[..|ids| - 1], rank, limit);
        assert hits == before[..|hits|];
        assert forall h :: h in hits ==> h in before;
      }
    }
  }

  /** The tier returned the part to this search. */
  predicate Returned(tier: Tier, limit: nat, part: int) {
    tier.asked && part in Fetched(tier.query, limit)
  }

  /** The tier that gave a hit its rank: it returned the part and no tier above it did. */
  ghost predicate IsBestTier(tiers: seq<Tier>, limit: nat, hit: Hit, k: nat) {
    && k < |tiers| && tiers[k].rank == hit.rank && Returned(tiers[k], limit, hit.part)
    && forall j :: 0 <= j < k ==> !Returned(tiers[j], limit, hit.part)
  }

  lemma {:induction false} EachPartKeepsItsBestTier(tiers: seq<Tier>, limit: nat, hit: Hit)
    requires hit in Merged(tiers, limit)
    ensures exists k: nat :: IsBestTier(tiers, limit, hit, k)
    decreases |tiers|
  {
    var before, tier := tiers[..|tiers| - 1], tiers[|tiers| - 1];
    if hit in Merged(before, limit) {
      EachPartKeepsItsBestTier(before, limit, hit);
      var k: nat :| IsBestTier(before, limit, hit, k);
      assert forall j :: 0 <= j < |before| ==> tiers[j] == before[j];
      assert IsBestTier(tiers, limit, hit, k);
    } else {
      TakenSource(Merged(before, limit), Fetched(tier.query, limit), tier.rank, limit, hit);
      forall j | 0 <= j < |before| ensures !Returned(tiers[j], limit, hit.part) {
        if Returned(tiers[j], limit, hit.part) {
          ReturnedIsListed(before, limit, j, hit.part);
        }
      }
      assert IsBestTier(tiers, limit, hit, |before|);
    }
  }

  lemma PartsOfPrefix(hits: seq<Hit>, all: seq<Hit>)
    requires hits <= all
    ensures PartsOf(hits) <= PartsOf(all)
  {
    assert forall hit :: hit in hits ==> hit in all;
  }

  /** While the list is not full, whatever a tier returned is in it. */
  lemma {:induction false} ReturnedIsListed(tiers: seq<Tier>, limit: nat, j: nat, part: int)
    requires j < |tiers| && Returned(tiers[j], limit, part) && |Merged(tiers, limit)| < limit
    ensures part in PartsOf(Merged(tiers, limit))
    decreases |tiers|
  {
    var before, tier := tiers[..|tiers| - 1], tiers[|tiers| - 1];
    var hits := Merged(before, limit);
    TakenKeeps(hits, Fetched(tier.query, limit), tier.rank, limit);
    if j < |before| {
      ReturnedIsListed(before, limit, j, part);
      PartsOfPrefix(hits, Merged(tiers, limit));
    } else {
      TakenParts(hits, Fetched(tier.query, limit), tier.rank, limit);
    }
  }

  // ---------------------------------------------------------------- which tier a rank stands for

  /** What a query of a tier may return to this search. */
  predicate Answered(query: Query, limit: nat, part: int) {
    part in Fetched(query, limit)
  }

  predicate HasNumber(a: Answers, limit: nat, part: int, exact: bool) {
    exists k | 0 <= k < |a.numbers| && k < limit :: a.numbers[k].part == part && (exact ==> a.numbers[k].typed)
  }

  /** The part answers the request at this rank: by number, article, name, words or likeness, each with its floor. */
  predicate QualifiesAt(r: Request, a: Answers, limit: nat, part: int, rank: nat) {
    || (rank == 1 && r.normalized > 0 && HasNumber(a, limit, part, true))
    || (rank == 2 && r.normalized > 0 && HasNumber(a, limit, part, false))
    || (rank == 3 && r.normalized >= 3 && part in Cut(a.articlePrefix, limit))
    || (rank == 4 && r.normalized >= 4 && part in Cut(a.articlePartial, limit))
    || (rank == 5 && Answered(a.exactName, limit, part))
    || (rank == 6 && r.compact > 0 && Answered(a.compactExact, limit, part))
    || (rank == 7 && r.length >= 3 && Answered(a.namePrefix, limit, part))
    || (rank == 7 && r.length >= 3 && r.compact >= 3 && Answered(a.compactPrefix, limit, part))
    || (rank == 8 && r.length >= 4 && Answered(a.namePartial, limit, part))
    || (rank == 8 && r.length >= 4 && r.compact >= 4 && Answered(a.compactPartial, limit, part))
    || (rank == 9 && r.manyWords && Answered(a.allWords, limit, part))
    || (rank == 10 && r.length >= 4 && r.hasLetter && part in Cut(a.fuzzy, limit))
  }

  lemma {:induction false} TypedIff(numbers: seq<NumberRow>, part: int)
    ensures part in Typed(numbers) <==> exists k :: 0 <= k < |numbers| && numbers[k].part == part && numbers[k].typed
  {
    if numbers != [] {
      var before := numbers[..|numbers| - 1];
      TypedIff(before, part);
      if k :| 0 <= k < |before| && before[k].part == part && before[k].typed {
        assert numbers[k] == before[k];
      }
      if k :| 0 <= k < |numbers| && numbers[k].part == part && numbers[k].typed {
        assert k < |before| ==> before[k] == numbers[k];
      }
    }
  }

  lemma NumbersFetched(a: Answers, limit: nat, part: int)
    ensures part in Fetched(TypedNumbers(a.numbers), limit) <==> HasNumber(a, limit, part, true)
    ensures part in Fetched(EqualNumbers(a.numbers), limit) <==> HasNumber(a, limit, part, false)
  {
    var cut := Cut(a.numbers, limit);
    TypedIff(cut, part);
    assert forall k :: 0 <= k < |cut| ==> cut[k] == a.numbers[k];
    if part in NumberParts(cut) {
      var k :| 0 <= k < |cut| && NumberParts(cut)[k] == part;
      assert a.numbers[k].part == part;
    }
    if k :| 0 <= k < |a.numbers| && k < limit && a.numbers[k].part == part {
      assert NumberParts(cut)[k] == part;
    }
  }

  /** The tier stands at this rank and returned the part. */
  predicate ReturnedAt(tier: Tier, limit: nat, part: int, rank: nat) {
    tier.rank == rank && Returned(tier, limit, part)
  }

  ghost predicate SomeTierReturned(tiers: seq<Tier>, limit: nat, part: int, rank: nat) {
    exists k :: 0 <= k < |tiers| && ReturnedAt(tiers[k], limit, part, rank)
  }

  lemma OneOfTwelve(tiers: seq<Tier>, limit: nat, part: int, rank: nat)
    requires |tiers| == 12
    ensures SomeTierReturned(tiers, limit, part, rank) <==>
      || ReturnedAt(tiers[0], limit, part, rank) || ReturnedAt(tiers[1], limit, part, rank) || ReturnedAt(tiers[2], limit, part, rank)
      || ReturnedAt(tiers[3], limit, part, rank) || ReturnedAt(tiers[4], limit, part, rank) || ReturnedAt(tiers[5], limit, part, rank)
      || ReturnedAt(tiers[6], limit, part, rank) || ReturnedAt(tiers[7], limit, part, rank) || ReturnedAt(tiers[8], limit, part, rank)
      || ReturnedAt(tiers[9], limit, part, rank) || ReturnedAt(tiers[10], limit, part, rank) || ReturnedAt(tiers[11], limit, part, rank)
  {
  }

  lemma QualifiesByNumber(r: Request, a: Answers, limit: nat, part: int, first: Tier, second: Tier)
    requires first == Tier(1, r.normalized > 0, TypedNumbers(a.numbers)) && second == Tier(2, r.normalized > 0, EqualNumbers(a.numbers))
    ensures Returned(first, limit, part) <==> QualifiesAt(r, a, limit, part, 1)
    ensures Returned(second, limit, part) <==> QualifiesAt(r, a, limit, part, 2)
  {
    NumbersFetched(a, limit, part);
  }

  lemma QualifiesOtherwise(r: Request, a: Answers, limit: nat, part: int, rank: nat, tiers: seq<Tier>)
    requires |tiers| == 12 && tiers == Tiers(r, a) && rank > 2
    ensures QualifiesAt(r, a, limit, part, rank) <==>
      || ReturnedAt(tiers[2], limit, part, rank) || ReturnedAt(tiers[3], limit, part, rank) || ReturnedAt(tiers[4], limit, part, rank)
      || ReturnedAt(tiers[5], limit, part, rank) || ReturnedAt(tiers[6], limit, part, rank) || ReturnedAt(tiers[7], limit, part, rank)
      || ReturnedAt(tiers[8], limit, part, rank) || ReturnedAt(tiers[9], limit, part, rank) || ReturnedAt(tiers[10], limit, part, rank)
      || ReturnedAt(tiers[11], limit, part, rank)
  {
  }

  lemma RanksOfTiers(r: Request, a: Answers, tiers: seq<Tier>)
    requires tiers == Tiers(r, a)
    ensures |tiers| == 12 && tiers[0] == Tier(1, r.normalized > 0, TypedNumbers(a.numbers))
    ensures tiers[1] == Tier(2, r.normalized > 0, EqualNumbers(a.numbers))
    ensures forall k :: 2 <= k < 12 ==> tiers[k].rank > 2
  {
  }

  lemma ReturnedBy(r: Request, a: Answers, limit: nat, part: int, rank: nat, tiers: seq<Tier>)
    requires tiers == Tiers(r, a)
    ensures SomeTierReturned(tiers, limit, part, rank) <==> QualifiesAt(r, a, limit, part, rank)
  {
    RanksOfTiers(r, a, tiers);
    OneOfTwelve(tiers, limit, part, rank);
    if rank <= 2 {
      QualifiesByNumber(r, a, limit, part, tiers[0], tiers[1]);
    } else {
      QualifiesOtherwise(r, a, limit, part, rank, tiers);
    }
  }

  /** The twelve tiers return, rank by rank, just what the ten rules say. */
  lemma ReturnedIff(r: Request, a: Answers, limit: nat, part: int, rank: nat)
    ensures SomeTierReturned(Tiers(r, a), limit, part, rank) <==> QualifiesAt(r, a, limit, part, rank)
  {
    ReturnedBy(r, a, limit, part, rank, Tiers(r, a));
  }

  lemma SearchedTiersAreInOrder(r: Request, a: Answers)
    ensures InTierOrder(Tiers(r, a))
  {
  }

  /** Over tiers in order: no tier of a better rank returned the part of a hit. */
  lemma NoneReturned(tiers: seq<Tier>, limit: nat, hit: Hit, k: nat, rank: nat)
    requires InTierOrder(tiers) && IsBestTier(tiers, limit, hit, k) && rank < hit.rank
    ensures !SomeTierReturned(tiers, limit, hit.part, rank)
  {
    forall j | 0 <= j < |tiers| && tiers[j].rank == rank ensures !Returned(tiers[j], limit, hit.part) {
      assert j < k;
    }
  }

  /** A hit stands at the first rank at which its part answers the request. */
  lemma HitStandsAtItsFirstRank(r: Request, a: Answers, asked: int, hit: Hit, rank: nat)
    requires hit in Search(r, a, asked)
    ensures !r.empty && QualifiesAt(r, a, Limit(asked), hit.part, hit.rank)
    ensures rank < hit.rank ==> !QualifiesAt(r, a, Limit(asked), hit.part, rank)
  {
    var tiers, limit := Tiers(r, a), Limit(asked);
    EachPartKeepsItsBestTier(tiers, limit, hit);
    var k: nat :| IsBestTier(tiers, limit, hit, k);
    assert ReturnedAt(tiers[k], limit, hit.part, hit.rank);
    ReturnedIff(r, a, limit, hit.part, hit.rank);
    if rank < hit.rank {
      SearchedTiersAreInOrder(r, a);
      NoneReturned(tiers, limit, hit, k, rank);
      ReturnedIff(r, a, limit, hit.part, rank);
    }
  }

  /** A search that is not full lists every part that answers the request at any rank. */
  lemma EveryAnswerIsListed(r: Request, a: Answers, asked: int, part: int, rank: nat)
    requires !r.empty && |Search(r, a, asked)| < Limit(asked) && QualifiesAt(r, a, Limit(asked), part, rank)
    ensures part in PartsOf(Search(r, a, asked))
  {
    var tiers, limit := Tiers(r, a), Limit(asked);
    ReturnedIff(r, a, limit, part, rank);
    var j :| 0 <= j < |tiers| && ReturnedAt(tiers[j], limit, part, rank);
    ReturnedIsListed(tiers, limit, j, part);
  }

  /** What is asked for is kept within one and three hundred parts, and one and fifty on a page; nothing asked is twenty. */
  lemma SizesAreKeptWithin(asked: int)
    ensures 1 <= Limit(asked) <= 300 && (1 <= asked <= 300 ==> Limit(asked) == asked)
    ensures asked < 1 ==> Limit(asked) == 1
    ensures asked > 300 ==> Limit(asked) == 300
    ensures 1 <= PageSize(asked) <= 50 && (1 <= asked <= 50 ==> PageSize(asked) == asked)
    ensures asked < 0 ==> PageSize(asked) == 1
    ensures asked > 50 ==> PageSize(asked) == 50
    ensures PageSize(0) == 20
  {
  }
}
