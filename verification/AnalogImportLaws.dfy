/** The index stays true row by row, and a second run of a file creates no part twice. */
module AnalogImportLaws {
  import opened Basics
  import opened Ordering
  import opened AnalogImport

  // ---------------------------------------------------------------- cleaning text

  lemma {:induction false} SeparatorsOfTwoParts(a: string, b: string)
    ensures WithoutSeparators(a + b) == WithoutSeparators(a) + WithoutSeparators(b)
  {
    if b == "" {
      assert a + b == a;
    } else {
      SeparatorsOfTwoParts(a, b[..|b| - 1]);
      assert (a + b)[..|a + b| - 1] == a + b[..|b| - 1];
    }
  }

  lemma {:induction false} TrimLeftIsTrue(s: string)
    ensures WithoutSeparators(TrimLeft(s)) == WithoutSeparators(s)
  {
    if s != "" && IsSpace(s[0]) {
      TrimLeftIsTrue(s[1..]);
      SeparatorsOfTwoParts([s[0]], s[1..]);
      assert [s[0]] + s[1..] == s;
      assert [s[0]][..0] == "";
    }
  }

  lemma {:induction false} TrimRightIsTrue(s: string)
    ensures WithoutSeparators(TrimRight(s)) == WithoutSeparators(s)
  {
    if s != "" && IsSpace(s[|s| - 1]) {
      TrimRightIsTrue(s[..|s| - 1]);
    }
  }

  /** White space around a number changes nothing in what it is searched by. */
  lemma StrippedReadsTheSame(s: string, f: Folding)
    ensures Normal(Strip(s), f) == Normal(s, f)
  {
    TrimLeftIsTrue(s);
    TrimRightIsTrue(TrimLeft(s));
  }

  predicate Tight(s: string) {
    s == "" || (!IsSpace(s[0]) && !IsSpace(s[|s| - 1]))
  }

  lemma {:induction false} SqueezedFacts(s: string)
    ensures var words := Squeezed(s);
      words != "" ==>
        && !IsSpace(words[0])
        && (IsSpace(words[|words| - 1]) ==> words[|words| - 1] == ' ' && |words| >= 2 && !IsSpace(words[|words| - 2]))
  {
    if s != "" {
      SqueezedFacts(s[..|s| - 1]);
    }
  }

  /** A collapsed text has nothing left to strip. */
  lemma CollapsedIsTight(s: string)
    ensures Tight(Collapsed(s)) && Strip(Collapsed(s)) == Collapsed(s)
  {
    SqueezedFacts(s);
  }

  // ---------------------------------------------------------------- alike lists

  /** The same parts, each once, in any order. */
  ghost predicate Alike(a: seq<nat>, b: seq<nat>) {
    NoRepeats(a) && NoRepeats(b) && forall x :: x in a <==> x in b
  }

  lemma AlikeLengths(a: seq<nat>, b: seq<nat>)
    requires Alike(a, b)
    ensures |a| == |b| && (|a| == 1 ==> a == b)
  {
    SameMembersSameCounts(a, b);
    assert |a| == |multiset(a)| == |multiset(b)| == |b|;
    if |a| == 1 {
      assert a[0] in b;
    }
  }

  lemma {:induction false} KeptFacts(parts: seq<nat>, keep: nat -> bool)
    requires NoRepeats(parts)
    ensures NoRepeats(Kept(parts, keep))
    ensures forall x :: x in Kept(parts, keep) <==> x in parts && keep(x)
  {
    if parts != [] {
      var before, last := parts[..|parts| - 1], parts[|parts| - 1];
      KeptFacts(before, keep);
      assert parts == before + [last];
    }
  }

  lemma KeptAlike(a: seq<nat>, b: seq<nat>, keep: nat -> bool)
    requires Alike(a, b)
    ensures Alike(Kept(a, keep), Kept(b, keep))
  {
    KeptFacts(a, keep);
    KeptFacts(b, keep);
  }

  lemma NarrowedAlike(db: Db, a: seq<nat>, b: seq<nat>, maker: string, f: Folding)
    requires Alike(a, b)
    ensures Alike(Narrowed(db, a, maker, f), Narrowed(db, b, maker, f))
  {
    KeptAlike(a, b, MadeBy(db, maker, f));
    AlikeLengths(Kept(a, MadeBy(db, maker, f)), Kept(b, MadeBy(db, maker, f)));
  }

  lemma PreferredAlike(a: seq<nat>, b: seq<nat>, known: set<nat>)
    requires Alike(a, b)
    ensures Alike(Preferred(a, known), Preferred(b, known))
  {
    KeptAlike(a, b, NotAnAnalog(known));
    AlikeLengths(a, b);
    AlikeLengths(Kept(a, NotAnAnalog(known)), Kept(b, NotAnAnalog(known)));
  }

  // ---------------------------------------------------------------- the index and the tables

  ghost predicate DbSound(db: Db) {
    && (forall number :: number in db.numbers ==> number.part < |db.parts|)
    && (forall link :: link in db.links ==> LinkSound(db, link))
  }

  /** Both ends exist, they differ, and the same fact is not recorded from the other side. */
  ghost predicate LinkSound(db: Db, link: Link) {
    && link.original < |db.parts| && link.analog < |db.parts| && link.original != link.analog
    && Link(link.analog, link.original, link.relation) !in db.links
  }

  /** The parts under one article are those the tables have under it. */
  ghost predicate BucketAgrees(bucket: seq<nat>, db: Db, article: string) {
    NoRepeats(bucket) && forall part: nat :: part in bucket <==> Number(part, article) in db.numbers
  }

  ghost predicate Agrees(index: Index, db: Db, articles: set<string>) {
    && (forall article :: article in articles ==> BucketAgrees(Bucket(index.byArticle, article), db, article))
    && index.knownAnalogs == AnalogsIn(db.links) && index.links == db.links
  }

  lemma {:induction false} BuiltBucket(numbers: seq<Number>, articles: set<string>, article: string)
    requires article in articles
    ensures NoRepeats(Bucket(ByArticle(numbers, articles), article))
    ensures forall part: nat :: part in Bucket(ByArticle(numbers, articles), article) <==> Number(part, article) in numbers
  {
    if numbers != [] {
      var before, last := numbers[..|numbers| - 1], numbers[|numbers| - 1];
      BuiltBucket(before, articles, article);
      assert numbers == before + [last];
      if last.normal == article {
        var bucket := Bucket(ByArticle(before, articles), article);
        assert Bucket(ByArticle(numbers, articles), article) == Added(bucket, last.part);
      }
    }
  }

  lemma BuiltAgrees(db: Db, articles: set<string>)
    ensures Agrees(Built(db, articles), db, articles)
  {
    forall article | article in articles ensures BucketAgrees(Bucket(Built(db, articles).byArticle, article), db, article) {
      BuiltBucket(db.numbers, articles, article);
    }
  }

  lemma {:induction false} FileAsksAbout(rows: seq<Row>, f: Folding, k: nat)
    requires k < |rows|
    ensures Normal(rows[k].originalArticle, f) != "" ==> Normal(rows[k].originalArticle, f) in ArticlesOf(rows, f)
    ensures Normal(rows[k].analogArticle, f) != "" ==> Normal(rows[k].analogArticle, f) in ArticlesOf(rows, f)
  {
    if k < |rows| - 1 {
      FileAsksAbout(rows[..|rows| - 1], f, k);
    }
  }

  lemma {:induction false} NoEmptyArticle(rows: seq<Row>, f: Folding)
    ensures "" !in ArticlesOf(rows, f)
  {
    if rows != [] {
      NoEmptyArticle(rows[..|rows| - 1], f);
    }
  }

  ghost predicate AsksWithin(row: Row, articles: set<string>, f: Folding) {
    && (Normal(row.originalArticle, f) != "" ==> Normal(row.originalArticle, f) in articles)
    && (Normal(row.analogArticle, f) != "" ==> Normal(row.analogArticle, f) in articles)
  }

  lemma FoundAlike(a: Index, b: Index, db: Db, articles: set<string>, article: string, f: Folding)
    requires Agrees(a, db, articles) && Agrees(b, db, articles)
    requires Normal(article, f) != "" ==> Normal(article, f) in articles
    ensures Alike(PartsByArticle(a, article, f), PartsByArticle(b, article, f))
  {
    if Normal(article, f) != "" {
      assert BucketAgrees(Bucket(a.byArticle, Normal(article, f)), db, Normal(article, f));
      assert BucketAgrees(Bucket(b.byArticle, Normal(article, f)), db, Normal(article, f));
    }
  }

  lemma OriginalsAlike(a: Index, b: Index, db: Db, articles: set<string>, row: Row, analog: Option<nat>, f: Folding)
    requires Agrees(a, db, articles) && Agrees(b, db, articles) && AsksWithin(row, articles, f)
    ensures Alike(Originals(db, row, a, analog, f), Originals(db, row, b, analog, f))
  {
    FoundAlike(a, b, db, articles, row.originalArticle, f);
    var first, second := PartsByArticle(a, row.originalArticle, f), PartsByArticle(b, row.originalArticle, f);
    NarrowedAlike(db, first, second, row.originalMaker, f);
    var x, y := Narrowed(db, first, row.originalMaker, f), Narrowed(db, second, row.originalMaker, f);
    if analog.Some? {
      KeptAlike(x, y, OtherThan(analog.value));
      PreferredAlike(Kept(x, OtherThan(analog.value)), Kept(y, OtherThan(analog.value)), a.knownAnalogs);
    } else {
      PreferredAlike(x, y, a.knownAnalogs);
    }
  }

  /** Two indexes that agree with the tables decide every row alike. */
  lemma AgreeingIndexesDecideAlike(a: Index, b: Index, db: Db, articles: set<string>, row: Row, f: Folding)
    requires Agrees(a, db, articles) && Agrees(b, db, articles) && AsksWithin(row, articles, f)
    ensures Resolve(db, row, a, f) == Resolve(db, row, b, f)
  {
    var first, second := Matched(db, row, a, f), Matched(db, row, b, f);
    FoundAlike(a, b, db, articles, row.analogArticle, f);
    KeptAlike(PartsByArticle(a, row.analogArticle, f), PartsByArticle(b, row.analogArticle, f), IsMatch(db, row, f));
    AlikeLengths(first, second);
    if |first| <= 1 {
      var analog := if first == [] then None else Some(first[0]);
      OriginalsAlike(a, b, db, articles, row, analog, f);
      AlikeLengths(Originals(db, row, a, analog, f), Originals(db, row, b, analog, f));
    }
  }

  // ---------------------------------------------------------------- one row

  predicate ShortArticle(row: Row) {
    |Strip(row.analogArticle)| <= ARTICLE_LENGTH
  }

  lemma {:induction false} LinksAgree(links: set<Link>, link: Link)
    ensures AnalogsIn(links + {link}) == AnalogsIn(links) + {link.analog}
  {
  }

  lemma LinkedKeepsAll(s: State, link: Link, articles: set<string>)
    requires Agrees(s.index, s.db, articles) && DbSound(s.db)
    requires link.original < |s.db.parts| && link.analog < |s.db.parts|
    ensures Agrees(Linked(s, link).index, Linked(s, link).db, articles) && DbSound(Linked(s, link).db)
  {
    var after := Linked(s, link);
    LinksAgree(s.db.links, link);
    forall article | article in articles ensures BucketAgrees(Bucket(after.index.byArticle, article), after.db, article) {
      assert BucketAgrees(Bucket(s.index.byArticle, article), s.db, article);
    }
    forall other | other in after.db.links ensures LinkSound(after.db, other) {
      if other in s.db.links {
        assert LinkSound(s.db, other);
      }
    }
  }

  /** What the index holds after a part was created and remembered. */
  function AfterCreation(s: State, row: Row, f: Folding): State
    requires CreateManualPart(s.db, row, f).Ok?
  {
    State(CreateManualPart(s.db, row, f).value, RememberPart(s.index, |s.db.parts|, row.analogArticle, f), s.summary)
  }

  lemma CreatedNumber(db: Db, row: Row, f: Folding, part: nat, article: string)
    requires CreateManualPart(db, row, f).Ok? && DbSound(db) && f.upper("") == "" && article != ""
    ensures Number(part, article) in CreateManualPart(db, row, f).value.numbers <==>
      Number(part, article) in db.numbers || (part == |db.parts| && article == Normal(Cut(Strip(row.analogArticle), ARTICLE_LENGTH), f))
  {
  }

  /**
   After a creation the index agrees with the tables if and only if the article still reads the same
   once it has been cut to the length of its column.
   */
  lemma CreationKeepsAgreementIff(s: State, row: Row, articles: set<string>, f: Folding)
    requires CreateManualPart(s.db, row, f).Ok? && DbSound(s.db) && Agrees(s.index, s.db, articles)
    requires f.upper("") == "" && "" !in articles && AsksWithin(row, articles, f)
    requires Normal(row.analogArticle, f) != ""
    ensures Agrees(AfterCreation(s, row, f).index, AfterCreation(s, row, f).db, articles) <==>
      Normal(Cut(Strip(row.analogArticle), ARTICLE_LENGTH), f) == Normal(row.analogArticle, f)
  {
    var after, part := AfterCreation(s, row, f), |s.db.parts|;
    var stored, searched := Normal(Cut(Strip(row.analogArticle), ARTICLE_LENGTH), f), Normal(row.analogArticle, f);
    if stored == searched {
      CreationKeepsAgreement(s, row, articles, f);
    } else {
      CreatedNumber(s.db, row, f, part, searched);
      assert part in Bucket(after.index.byArticle, searched);
      assert Number(part, searched) !in after.db.numbers by {
        assert forall number :: number in s.db.numbers ==> number.part < |s.db.parts|;
      }
      assert !BucketAgrees(Bucket(after.index.byArticle, searched), after.db, searched);
    }
  }

  lemma CreationKeepsAgreement(s: State, row: Row, articles: set<string>, f: Folding)
    requires CreateManualPart(s.db, row, f).Ok? && DbSound(s.db) && Agrees(s.index, s.db, articles)
    requires f.upper("") == "" && "" !in articles
    requires Normal(Cut(Strip(row.analogArticle), ARTICLE_LENGTH), f) == Normal(row.analogArticle, f)
    ensures Agrees(AfterCreation(s, row, f).index, AfterCreation(s, row, f).db, articles)
  {
    var after, newPart := AfterCreation(s, row, f), |s.db.parts|;
    forall article | article in articles ensures BucketAgrees(Bucket(after.index.byArticle, article), after.db, article) {
      var bucket := Bucket(s.index.byArticle, article);
      assert BucketAgrees(bucket, s.db, article);
      forall part: nat ensures part in Bucket(after.index.byArticle, article) <==> Number(part, article) in after.db.numbers {
        CreatedNumber(s.db, row, f, part, article);
      }
      if article == Normal(row.analogArticle, f) {
        assert newPart !in bucket;
        assert Bucket(after.index.byArticle, article) == bucket + [newPart];
      }
    }
  }

  lemma CreationKeepsTheTables(db: Db, row: Row, f: Folding)
    requires CreateManualPart(db, row, f).Ok? && DbSound(db)
    ensures DbSound(CreateManualPart(db, row, f).value)
  {
    var after := CreateManualPart(db, row, f).value;
    forall link | link in after.links ensures LinkSound(after, link) {
      assert LinkSound(db, link);
    }
  }

  /** What a decision names exists, and the analog named was found under the row's article. */
  lemma DecisionIsAboutKnownParts(db: Db, row: Row, index: Index, articles: set<string>, f: Folding)
    requires Agrees(index, db, articles) && DbSound(db) && AsksWithin(row, articles, f)
    ensures var decision := Resolve(db, row, index, f);
      && (!decision.Attention? ==> decision.original < |db.parts|)
      && (decision.Reuse? ==> IsLanded(db, row, f, decision.analog))
  {
    var matched := Matched(db, row, index, f);
    ArticleFacts(db, index, articles, row.analogArticle, f);
    ArticleFacts(db, index, articles, row.originalArticle, f);
    KeptFacts(PartsByArticle(index, row.analogArticle, f), IsMatch(db, row, f));
    if Unreadable(row).None? && |matched| <= 1 {
      if matched != [] {
        assert matched[0] in matched;
      }
      var analog := if matched == [] then None else Some(matched[0]);
      OriginalsAreFound(db, row, index, analog, articles, f);
      var originals := Originals(db, row, index, analog, f);
      if originals != [] {
        assert originals[0] in originals;
      }
    }
  }

  lemma ArticleFacts(db: Db, index: Index, articles: set<string>, article: string, f: Folding)
    requires Agrees(index, db, articles) && DbSound(db)
    requires Normal(article, f) != "" ==> Normal(article, f) in articles
    ensures NoRepeats(PartsByArticle(index, article, f))
    ensures forall part :: part in PartsByArticle(index, article, f) ==> part < |db.parts| && Number(part, Normal(article, f)) in db.numbers
  {
    if Normal(article, f) != "" {
      assert BucketAgrees(Bucket(index.byArticle, Normal(article, f)), db, Normal(article, f));
    }
  }

  lemma OriginalsAreFound(db: Db, row: Row, index: Index, analog: Option<nat>, articles: set<string>, f: Folding)
    requires Agrees(index, db, articles) && DbSound(db) && AsksWithin(row, articles, f)
    ensures forall part :: part in Originals(db, row, index, analog, f) ==> part < |db.parts|
  {
    var found := PartsByArticle(index, row.originalArticle, f);
    ArticleFacts(db, index, articles, row.originalArticle, f);
    KeptFacts(found, MadeBy(db, row.originalMaker, f));
    var narrowed := Narrowed(db, found, row.originalMaker, f);
    if analog.Some? {
      KeptFacts(narrowed, OtherThan(analog.value));
      KeptFacts(Kept(narrowed, OtherThan(analog.value)), NotAnAnalog(index.knownAnalogs));
    } else {
      KeptFacts(narrowed, NotAnAnalog(index.knownAnalogs));
    }
  }

  // ---------------------------------------------------------------- nothing is guessed

  lemma MatchedAreTheLanded(db: Db, row: Row, index: Index, articles: set<string>, f: Folding)
    requires Agrees(index, db, articles) && DbSound(db) && AsksWithin(row, articles, f) && Normal(row.analogArticle, f) != ""
    ensures NoRepeats(Matched(db, row, index, f))
    ensures forall part: nat :: part in Matched(db, row, index, f) <==> IsLanded(db, row, f, part)
  {
    var normal := Normal(row.analogArticle, f);
    assert BucketAgrees(Bucket(index.byArticle, normal), db, normal);
    KeptFacts(PartsByArticle(index, row.analogArticle, f), IsMatch(db, row, f));
  }

  lemma DecidedByMatches(db: Db, row: Row, index: Index, f: Folding)
    ensures var decision, matched := Resolve(db, row, index, f), Matched(db, row, index, f);
      && (decision.Reuse? ==> matched == [decision.analog])
      && (decision.Create? ==> matched == [])
      && (decision == Attention(SeveralAnalogs) ==> |matched| > 1)
  {
  }

  lemma OtherLanded(db: Db, row: Row, f: Folding, matched: seq<nat>, part: nat)
    requires NoRepeats(matched) && |matched| > 1 && forall other: nat :: other in matched ==> IsLanded(db, row, f, other)
    ensures exists other: nat :: other != part && IsLanded(db, row, f, other)
  {
    var other := if matched[0] == part then matched[1] else matched[0];
    assert other in matched;
  }

  /**
   A part is reused only when it is the one part that matches under the row's article, and created only
   when none does; two matches go to a person.
   */
  lemma NoAnalogIsGuessed(db: Db, row: Row, index: Index, articles: set<string>, f: Folding, part: nat)
    requires Agrees(index, db, articles) && DbSound(db) && AsksWithin(row, articles, f) && Normal(row.analogArticle, f) != ""
    ensures var decision := Resolve(db, row, index, f);
      && (decision.Reuse? ==> (IsLanded(db, row, f, part) <==> part == decision.analog))
      && (decision.Create? ==> !IsLanded(db, row, f, part))
      && (decision == Attention(SeveralAnalogs) ==>
           exists other: nat :: other != part && IsLanded(db, row, f, other))
  {
    var matched := Matched(db, row, index, f);
    MatchedAreTheLanded(db, row, index, articles, f);
    DecidedByMatches(db, row, index, f);
    assert part in matched <==> IsLanded(db, row, f, part);
    if |matched| > 1 {
      OtherLanded(db, row, f, matched, part);
    }
  }

  /** Found under the original's article, and made by the maker the row names if any such part is known. */
  predicate IsCandidate(db: Db, row: Row, f: Folding, part: nat) {
    && part < |db.parts| && Number(part, Normal(row.originalArticle, f)) in db.numbers
    && (Wanted(row.originalMaker, f) != "" && (exists other: nat :: other < |db.parts| && MadeUnder(db, row, f, other)) ==>
         MadeUnder(db, row, f, part))
  }

  predicate MadeUnder(db: Db, row: Row, f: Folding, part: nat)
    requires part < |db.parts|
  {
    && Number(part, Normal(row.originalArticle, f)) in db.numbers
    && db.parts[part].maker.Some? && MakerName(db.parts[part], f) == Wanted(row.originalMaker, f)
  }

  lemma MadeAreMadeUnder(db: Db, row: Row, index: Index, articles: set<string>, f: Folding, part: nat)
    requires Agrees(index, db, articles) && DbSound(db) && AsksWithin(row, articles, f) && Normal(row.originalArticle, f) != ""
    ensures var made := Kept(PartsByArticle(index, row.originalArticle, f), MadeBy(db, row.originalMaker, f));
      && NoRepeats(made) && (part in made <==> part < |db.parts| && MadeUnder(db, row, f, part))
      && (part in PartsByArticle(index, row.originalArticle, f) <==> Number(part, Normal(row.originalArticle, f)) in db.numbers)
  {
    var normal := Normal(row.originalArticle, f);
    assert BucketAgrees(Bucket(index.byArticle, normal), db, normal);
    KeptFacts(PartsByArticle(index, row.originalArticle, f), MadeBy(db, row.originalMaker, f));
  }

  lemma NarrowedIsCandidate(db: Db, row: Row, index: Index, articles: set<string>, f: Folding, part: nat)
    requires Agrees(index, db, articles) && DbSound(db) && AsksWithin(row, articles, f) && Normal(row.originalArticle, f) != ""
    ensures part in Narrowed(db, PartsByArticle(index, row.originalArticle, f), row.originalMaker, f) <==> IsCandidate(db, row, f, part)
  {
    var made := Kept(PartsByArticle(index, row.originalArticle, f), MadeBy(db, row.originalMaker, f));
    MadeAreMadeUnder(db, row, index, articles, f, part);
    if made != [] {
      MadeAreMadeUnder(db, row, index, articles, f, made[0]);
    } else {
      forall other: nat ensures !(other < |db.parts| && MadeUnder(db, row, f, other)) {
        MadeAreMadeUnder(db, row, index, articles, f, other);
      }
    }
  }

  lemma NarrowedAreTheCandidates(db: Db, row: Row, index: Index, articles: set<string>, f: Folding)
    requires Agrees(index, db, articles) && DbSound(db) && AsksWithin(row, articles, f) && Normal(row.originalArticle, f) != ""
    ensures var narrowed := Narrowed(db, PartsByArticle(index, row.originalArticle, f), row.originalMaker, f);
      NoRepeats(narrowed) && forall part: nat :: part in narrowed <==> IsCandidate(db, row, f, part)
  {
    MadeAreMadeUnder(db, row, index, articles, f, 0);
    ArticleFacts(db, index, articles, row.originalArticle, f);
    forall part: nat {
      NarrowedIsCandidate(db, row, index, articles, f, part);
    }
  }

  /**
   The original of a decision is a candidate other than the analog, and the only such candidate that is
   not itself recorded as an analog, or the only one at all.
   */
  lemma NoOriginalIsGuessed(db: Db, row: Row, index: Index, articles: set<string>, f: Folding, part: nat)
    requires Agrees(index, db, articles) && DbSound(db) && AsksWithin(row, articles, f) && Normal(row.originalArticle, f) != ""
    requires !Resolve(db, row, index, f).Attention?
    ensures var decision := Resolve(db, row, index, f);
      && IsCandidate(db, row, f, decision.original)
      && (decision.Reuse? ==> decision.original != decision.analog)
      && (IsCandidate(db, row, f, part) && part != decision.original && (decision.Reuse? ==> part != decision.analog) ==>
           part in AnalogsIn(db.links))
  {
    var decision, matched := Resolve(db, row, index, f), Matched(db, row, index, f);
    var analog := if matched == [] then None else Some(matched[0]);
    var found := PartsByArticle(index, row.originalArticle, f);
    var narrowed := Narrowed(db, found, row.originalMaker, f);
    NarrowedAreTheCandidates(db, row, index, articles, f);
    var others := if analog.Some? then Kept(narrowed, OtherThan(analog.value)) else narrowed;
    if analog.Some? {
      KeptFacts(narrowed, OtherThan(analog.value));
    }
    OnlyOneIsPreferred(others, index.knownAnalogs, decision.original, part);
  }

  lemma OnlyOneIsPreferred(parts: seq<nat>, known: set<nat>, original: nat, part: nat)
    requires NoRepeats(parts) && Preferred(parts, known) == [original]
    ensures original in parts
    ensures part in parts && part != original ==> part in known
  {
    KeptFacts(parts, NotAnAnalog(known));
    var free := Kept(parts, NotAnAnalog(known));
    assert original in [original];
    if |parts| >= 2 && |free| == 1 {
      assert free == [original];
      assert part in free ==> part == free[0];
    } else {
      assert parts == [original];
    }
  }

  lemma ShortArticleReadsTheSame(row: Row, f: Folding)
    requires ShortArticle(row)
    ensures Normal(Cut(Strip(row.analogArticle), ARTICLE_LENGTH), f) == Normal(row.analogArticle, f)
  {
    StrippedReadsTheSame(row.analogArticle, f);
  }

  lemma RowKeepsAll(s: State, row: Row, articles: set<string>, f: Folding)
    requires Agrees(s.index, s.db, articles) && DbSound(s.db) && AsksWithin(row, articles, f)
    requires f.upper("") == "" && "" !in articles && ShortArticle(row)
    ensures Agrees(ApplyRow(s, row, f).index, ApplyRow(s, row, f).db, articles) && DbSound(ApplyRow(s, row, f).db)
  {
    DecisionIsAboutKnownParts(s.db, row, s.index, articles, f);
    match Resolve(s.db, row, s.index, f)
    case Attention(_) =>
    case Reuse(original, analog, relation) =>
      LinkedKeepsAll(s.(summary := s.summary.(reusedParts := s.summary.reusedParts + 1)), Link(original, analog, relation), articles);
    case Create(original, relation) =>
      if CreateManualPart(s.db, row, f).Ok? {
        ShortArticleReadsTheSame(row, f);
        CreationKeepsAgreement(s, row, articles, f);
        CreationKeepsTheTables(s.db, row, f);
        var created := AfterCreation(s, row, f);
        LinkedKeepsAll(created.(summary := s.summary.(createdParts := s.summary.createdParts + 1)), Link(original, |s.db.parts|, relation), articles);
      }
  }

  // ---------------------------------------------------------------- every prefix of a file

  ghost predicate ShortArticles(rows: seq<Row>) {
    forall k :: 0 <= k < |rows| ==> ShortArticle(rows[k])
  }

  ghost predicate AllAskWithin(rows: seq<Row>, articles: set<string>, f: Folding) {
    forall k :: 0 <= k < |rows| ==> AsksWithin(rows[k], articles, f)
  }

  lemma {:induction false} PrefixKeepsAll(start: State, rows: seq<Row>, articles: set<string>, f: Folding)
    requires Agrees(start.index, start.db, articles) && DbSound(start.db) && AllAskWithin(rows, articles, f)
    requires f.upper("") == "" && "" !in articles && ShortArticles(rows)
    ensures Agrees(Applied(start, rows, f).index, Applied(start, rows, f).db, articles) && DbSound(Applied(start, rows, f).db)
  {
    if rows != [] {
      PrefixKeepsAll(start, rows[..|rows| - 1], articles, f);
      RowKeepsAll(Applied(start, rows[..|rows| - 1], f), rows[|rows| - 1], articles, f);
    }
  }

  lemma FileIsWellAsked(db: Db, rows: seq<Row>, f: Folding)
    ensures AllAskWithin(rows, ArticlesOf(rows, f), f) && "" !in ArticlesOf(rows, f)
    ensures Agrees(Begun(db, rows, f).index, db, ArticlesOf(rows, f))
  {
    forall k | 0 <= k < |rows| ensures AsksWithin(rows[k], ArticlesOf(rows, f), f) {
      FileAsksAbout(rows, f, k);
    }
    NoEmptyArticle(rows, f);
    BuiltAgrees(db, ArticlesOf(rows, f));
  }

  /**
   After every row the index kept up to date agrees with one rebuilt from the tables, decides the next
   row as that one would, and the links stay irreflexive and one-way.
   */
  lemma IndexIsAlwaysUpToDate(db: Db, rows: seq<Row>, f: Folding, k: nat)
    requires DbSound(db) && ShortArticles(rows) && f.upper("") == "" && k < |rows|
    ensures var s := Applied(Begun(db, rows, f), rows[..k], f);
      && DbSound(s.db) && Agrees(s.index, s.db, ArticlesOf(rows, f))
      && Resolve(s.db, rows[k], s.index, f) == Resolve(s.db, rows[k], Built(s.db, ArticlesOf(rows, f)), f)
  {
    var articles := ArticlesOf(rows, f);
    FileIsWellAsked(db, rows, f);
    PrefixKeepsAll(Begun(db, rows, f), rows[..k], articles, f);
    var s := Applied(Begun(db, rows, f), rows[..k], f);
    BuiltAgrees(s.db, articles);
    AgreeingIndexesDecideAlike(s.index, Built(s.db, articles), s.db, articles, rows[k], f);
  }

  // ---------------------------------------------------------------- the second run

  /** Parts and numbers are only ever added. */
  ghost predicate Extends(later: Db, earlier: Db) {
    && |earlier.parts| <= |later.parts| && later.parts[..|earlier.parts|] == earlier.parts
    && (forall number :: number in earlier.numbers ==> number in later.numbers)
  }

  lemma RowExtends(s: State, row: Row, f: Folding)
    ensures Extends(ApplyRow(s, row, f).db, s.db)
  {
  }

  lemma {:induction false} RowsExtend(start: State, rows: seq<Row>, f: Folding)
    ensures Extends(Applied(start, rows, f).db, start.db)
  {
    if rows != [] {
      var before := Applied(start, rows[..|rows| - 1], f);
      RowsExtend(start, rows[..|rows| - 1], f);
      RowExtends(before, rows[|rows| - 1], f);
      ExtensionsChain(Applied(start, rows, f).db, before.db, start.db);
    }
  }

  lemma ExtensionsChain(c: Db, b: Db, a: Db)
    requires Extends(c, b) && Extends(b, a)
    ensures Extends(c, a)
  {
    assert c.parts[..|a.parts|] == c.parts[..|b.parts|][..|a.parts|];
  }

  lemma {:induction false} LaterRowsExtend(start: State, rows: seq<Row>, f: Folding, k: nat)
    requires k <= |rows|
    ensures Extends(Applied(start, rows, f).db, Applied(start, rows[..k], f).db)
  {
    if k == |rows| {
      assert rows[..k] == rows;
    } else {
      var before := rows[..|rows| - 1];
      LaterRowsExtend(start, before, f, k);
      assert before[..k] == rows[..k];
      RowExtends(Applied(start, before, f), rows[|rows| - 1], f);
      ExtensionsChain(Applied(start, rows, f).db, Applied(start, before, f).db, Applied(start, rows[..k], f).db);
    }
  }

  /** The tables hold the part the row describes, under the row's article. */
  predicate IsLanded(db: Db, row: Row, f: Folding, part: nat) {
    part < |db.parts| && Matches(row, db.parts[part], f) && Number(part, Normal(row.analogArticle, f)) in db.numbers
  }

  lemma LandedStays(later: Db, earlier: Db, row: Row, f: Folding, part: nat)
    requires Extends(later, earlier) && IsLanded(earlier, row, f, part)
    ensures IsLanded(later, row, f, part)
  {
    assert later.parts[..|earlier.parts|][part] == earlier.parts[part];
  }

  /** Fields that fit their columns, and an article with something to search by. */
  predicate Fits(row: Row, f: Folding) {
    && ShortArticle(row) && Normal(row.analogArticle, f) != ""
    && |Collapsed(row.analogName)| <= NAME_LENGTH && |Collapsed(row.analogMaker)| <= MAKER_LENGTH
  }

  lemma NewPartMatchesItsRow(row: Row, f: Folding)
    requires Fits(row, f) && f.lower("") == ""
    ensures Matches(row, NewPart(row), f)
  {
    CollapsedIsTight(row.analogName);
    CollapsedIsTight(row.analogMaker);
  }

  /** The row found its part, or its part was created. */
  predicate Took(s: State, row: Row, f: Folding) {
    var decision := Resolve(s.db, row, s.index, f);
    decision.Reuse? || (decision.Create? && CreateManualPart(s.db, row, f).Ok?)
  }

  lemma TakenRowsLand(s: State, row: Row, articles: set<string>, f: Folding) returns (part: nat)
    requires Agrees(s.index, s.db, articles) && DbSound(s.db) && AsksWithin(row, articles, f)
    requires Fits(row, f) && f.lower("") == "" && f.upper("") == "" && Took(s, row, f)
    ensures IsLanded(ApplyRow(s, row, f).db, row, f, part)
  {
    DecisionIsAboutKnownParts(s.db, row, s.index, articles, f);
    match Resolve(s.db, row, s.index, f)
    case Reuse(original, analog, relation) =>
      part := analog;
    case Create(original, relation) =>
      part := |s.db.parts|;
      var created := CreateManualPart(s.db, row, f).value;
      NewPartMatchesItsRow(row, f);
      ShortArticleReadsTheSame(row, f);
      CreatedNumber(s.db, row, f, part, Normal(row.analogArticle, f));
      assert created.parts[part] == NewPart(row);
  }

  lemma LandedRowsAreNotCreated(db: Db, row: Row, index: Index, articles: set<string>, f: Folding, part: nat)
    requires Agrees(index, db, articles) && AsksWithin(row, articles, f)
    requires Normal(row.analogArticle, f) != "" && IsLanded(db, row, f, part)
    ensures !Resolve(db, row, index, f).Create?
  {
    var normal := Normal(row.analogArticle, f);
    assert BucketAgrees(Bucket(index.byArticle, normal), db, normal);
    KeptFacts(PartsByArticle(index, row.analogArticle, f), IsMatch(db, row, f));
    assert part in Matched(db, row, index, f);
  }

  lemma LandedAtOneRowStays(start: State, rows: seq<Row>, f: Folding, k: nat, part: nat)
    requires k < |rows| && IsLanded(ApplyRow(Applied(start, rows[..k], f), rows[k], f).db, rows[k], f, part)
    ensures IsLanded(Applied(start, rows, f).db, rows[k], f, part)
  {
    assert rows[..k + 1][..k] == rows[..k];
    LaterRowsExtend(start, rows, f, k + 1);
    LandedStays(Applied(start, rows, f).db, Applied(start, rows[..k + 1], f).db, rows[k], f, part);
  }

  lemma FirstRunLands(db: Db, rows: seq<Row>, f: Folding, k: nat) returns (part: nat)
    requires DbSound(db) && ShortArticles(rows) && f.upper("") == "" && f.lower("") == ""
    requires k < |rows| && Fits(rows[k], f)
    requires Took(Applied(Begun(db, rows, f), rows[..k], f), rows[k], f)
    ensures IsLanded(Applied(Begun(db, rows, f), rows, f).db, rows[k], f, part)
  {
    var start := Begun(db, rows, f);
    FileIsWellAsked(db, rows, f);
    IndexIsAlwaysUpToDate(db, rows, f, k);
    part := TakenRowsLand(Applied(start, rows[..k], f), rows[k], ArticlesOf(rows, f), f);
    LandedAtOneRowStays(start, rows, f, k, part);
  }

  lemma LandedRowsStayUncreated(db: Db, rows: seq<Row>, f: Folding, k: nat, part: nat)
    requires DbSound(db) && ShortArticles(rows) && f.upper("") == "" && k < |rows|
    requires Normal(rows[k].analogArticle, f) != "" && IsLanded(db, rows[k], f, part)
    ensures var s := Applied(Begun(db, rows, f), rows[..k], f);
      !Resolve(s.db, rows[k], s.index, f).Create?
  {
    FileIsWellAsked(db, rows, f);
    IndexIsAlwaysUpToDate(db, rows, f, k);
    var s := Applied(Begun(db, rows, f), rows[..k], f);
    RowsExtend(Begun(db, rows, f), rows[..k], f);
    LandedStays(s.db, db, rows[k], f, part);
    LandedRowsAreNotCreated(s.db, rows[k], s.index, ArticlesOf(rows, f), f, part);
  }

  /** A row whose part the first run found or created creates no part in a second run. */
  lemma SecondRunCreatesNoPartAgain(db: Db, rows: seq<Row>, f: Folding, k: nat)
    requires DbSound(db) && ShortArticles(rows) && f.upper("") == "" && f.lower("") == ""
    requires k < |rows| && Fits(rows[k], f)
    requires Took(Applied(Begun(db, rows, f), rows[..k], f), rows[k], f)
    ensures var again := Begun(Applied(Begun(db, rows, f), rows, f).db, rows, f);
      var s := Applied(again, rows[..k], f);
      !Resolve(s.db, rows[k], s.index, f).Create?
  {
    var part := FirstRunLands(db, rows, f, k);
    FileIsWellAsked(db, rows, f);
    PrefixKeepsAll(Begun(db, rows, f), rows, ArticlesOf(rows, f), f);
    LandedRowsStayUncreated(Applied(Begun(db, rows, f), rows, f).db, rows, f, k, part);
  }

  lemma {:induction false} NothingCreatedSoFar(start: State, rows: seq<Row>, f: Folding)
    requires start.summary.createdParts == 0
    requires forall k :: 0 <= k < |rows| ==> !Resolve(Applied(start, rows[..k], f).db, rows[k], Applied(start, rows[..k], f).index, f).Create?
    ensures Applied(start, rows, f).summary.createdParts == 0
  {
    if rows != [] {
      var before := rows[..|rows| - 1];
      forall k | 0 <= k < |before|
        ensures !Resolve(Applied(start, before[..k], f).db, before[k], Applied(start, before[..k], f).index, f).Create?
      {
        assert before[..k] == rows[..k];
      }
      NothingCreatedSoFar(start, before, f);
    }
  }

  /** When every row of a file took, running the file again creates no part at all. */
  lemma SecondRunCreatesNothing(db: Db, rows: seq<Row>, f: Folding)
    requires DbSound(db) && f.upper("") == "" && f.lower("") == ""
    requires forall k :: 0 <= k < |rows| ==> Fits(rows[k], f) && Took(Applied(Begun(db, rows, f), rows[..k], f), rows[k], f)
    ensures Applied(Begun(Applied(Begun(db, rows, f), rows, f).db, rows, f), rows, f).summary.createdParts == 0
  {
    var again := Begun(Applied(Begun(db, rows, f), rows, f).db, rows, f);
    forall k | 0 <= k < |rows|
      ensures !Resolve(Applied(again, rows[..k], f).db, rows[k], Applied(again, rows[..k], f).index, f).Create?
    {
      SecondRunCreatesNoPartAgain(db, rows, f, k);
    }
    NothingCreatedSoFar(again, rows, f);
  }

  // ---------------------------------------------------------------- the summary

  function Outcomes(summary: Summary): nat {
    summary.createdLinks + summary.alreadyLinked + summary.skipped
  }

  lemma OneOutcomeForALink(s: State, link: Link)
    ensures Outcomes(Linked(s, link).summary) == Outcomes(s.summary) + 1
  {
  }

  lemma OneOutcomeForACreation(s: State, row: Row, original: nat, relation: Relation, f: Folding)
    ensures Outcomes(Created(s, row, original, relation, f).summary) == Outcomes(s.summary) + 1
  {
    if CreateManualPart(s.db, row, f).Ok? {
      var after := AfterCreation(s, row, f);
      OneOutcomeForALink(after.(summary := s.summary.(createdParts := s.summary.createdParts + 1)), Link(original, |s.db.parts|, relation));
    }
  }

  lemma OneOutcomeForARow(s: State, row: Row, f: Folding)
    ensures Outcomes(ApplyRow(s, row, f).summary) == Outcomes(s.summary) + 1
  {
    match Resolve(s.db, row, s.index, f)
    case Attention(_) =>
    case Reuse(original, analog, relation) =>
      OneOutcomeForALink(s.(summary := s.summary.(reusedParts := s.summary.reusedParts + 1)), Link(original, analog, relation));
    case Create(original, relation) =>
      OneOutcomeForACreation(s, row, original, relation, f);
  }

  /** Every row is linked, found linked already, or skipped. */
  lemma {:induction false} RowsAddUp(start: State, rows: seq<Row>, f: Folding)
    ensures Outcomes(Applied(start, rows, f).summary) == Outcomes(start.summary) + |rows|
  {
    if rows != [] {
      RowsAddUp(start, rows[..|rows| - 1], f);
      OneOutcomeForARow(Applied(start, rows[..|rows| - 1], f), rows[|rows| - 1], f);
    }
  }
}
