/** What an analog file leaves in the tables and in its summary, row by row and over the whole file. */
module AnalogFileLaws {
  import opened Basics
  import opened Ordering
  import opened AnalogImport
  import opened AnalogImportLaws
  import opened AnalogColumns

  // ---------------------------------------------------------------- the names of a row

  /** The words of a text: what stands between its white space. */
  function Words(s: string): (words: seq<string>)
    ensures s != "" && !IsSpace(s[|s| - 1]) ==> words != []
  {
    if s == "" then []
    else
      var before, c := Words(s[..|s| - 1]), s[|s| - 1];
      if IsSpace(c) then before
      else if |s| >= 2 && !IsSpace(s[|s| - 2]) then before[..|before| - 1] + [before[|before| - 1] + [c]]
      else before + [[c]]
  }

  /** Words in a row with one space between them. */
  function Joined(words: seq<string>): string {
    if words == [] then ""
    else if |words| == 1 then words[0]
    else Joined(words[..|words| - 1]) + " " + words[|words| - 1]
  }

  lemma LongerLastWord(words: seq<string>, c: char)
    requires words != []
    ensures Joined(words[..|words| - 1] + [words[|words| - 1] + [c]]) == Joined(words) + [c]
  {
    var longer := words[..|words| - 1] + [words[|words| - 1] + [c]];
    assert longer[..|longer| - 1] == words[..|words| - 1];
  }

  lemma OneMoreWord(words: seq<string>, c: char)
    ensures Joined(words + [[c]]) == if words == [] then [c] else Joined(words) + " " + [c]
  {
    assert (words + [[c]])[..|words|] == words;
  }

  lemma {:induction false} SqueezedIsJoined(s: string)
    ensures Squeezed(s) == Joined(Words(s)) + if s != "" && IsSpace(s[|s| - 1]) && Words(s) != [] then " " else ""
  {
    if s != "" {
      var before, c := s[..|s| - 1], s[|s| - 1];
      SqueezedIsJoined(before);
      SqueezedFacts(before);
      if !IsSpace(c) {
        if before != "" && !IsSpace(before[|before| - 1]) {
          LongerLastWord(Words(before), c);
        } else {
          OneMoreWord(Words(before), c);
        }
      }
    }
  }

  /** Names and makers are read as their words with one space between them. */
  lemma CollapsedIsItsWords(s: string)
    ensures Collapsed(s) == Joined(Words(s))
  {
    SqueezedIsJoined(s);
    SqueezedFacts(s);
  }

  // ---------------------------------------------------------------- the counters

  /** What a row or a file added to the tables is what its summary says. */
  ghost predicate CountsTrue(before: State, after: State) {
    && |after.db.parts| - |before.db.parts| == after.summary.createdParts - before.summary.createdParts
    && |after.db.links| - |before.db.links| == after.summary.createdLinks - before.summary.createdLinks
  }

  lemma LinkedCountsTrue(s: State, link: Link)
    ensures CountsTrue(s, Linked(s, link))
    ensures Linked(s, link).summary.reusedParts == s.summary.reusedParts
  {
    if link in s.db.links {
      assert s.db.links + {link} == s.db.links;
    }
  }

  lemma CreationCountsTrue(s: State, row: Row, original: nat, relation: Relation, f: Folding)
    ensures CountsTrue(s, Created(s, row, original, relation, f))
    ensures Created(s, row, original, relation, f).summary.reusedParts == s.summary.reusedParts
  {
    if CreateManualPart(s.db, row, f).Ok? {
      var created := AfterCreation(s, row, f).(summary := s.summary.(createdParts := s.summary.createdParts + 1));
      LinkedCountsTrue(created, Link(original, |s.db.parts|, relation));
    }
  }

  lemma RowCountsTrue(s: State, row: Row, f: Folding)
    ensures CountsTrue(s, ApplyRow(s, row, f))
    ensures ApplyRow(s, row, f).summary.reusedParts == s.summary.reusedParts + if Resolve(s.db, row, s.index, f).Reuse? then 1 else 0
  {
    match Resolve(s.db, row, s.index, f)
    case Attention(_) =>
    case Reuse(original, analog, relation) =>
      LinkedCountsTrue(s.(summary := s.summary.(reusedParts := s.summary.reusedParts + 1)), Link(original, analog, relation));
    case Create(original, relation) => CreationCountsTrue(s, row, original, relation, f);
  }

  /** The rows that found their part. */
  function Reusing(start: State, rows: seq<Row>, f: Folding): nat {
    if rows == [] then 0
    else
      var before := Applied(start, rows[..|rows| - 1], f);
      Reusing(start, rows[..|rows| - 1], f)
      + if Resolve(before.db, rows[|rows| - 1], before.index, f).Reuse? then 1 else 0
  }

  lemma {:induction false} FileCountsTrue(start: State, rows: seq<Row>, f: Folding)
    ensures CountsTrue(start, Applied(start, rows, f))
    ensures Applied(start, rows, f).summary.reusedParts == start.summary.reusedParts + Reusing(start, rows, f)
  {
    if rows != [] {
      FileCountsTrue(start, rows[..|rows| - 1], f);
      RowCountsTrue(Applied(start, rows[..|rows| - 1], f), rows[|rows| - 1], f);
    }
  }

  /** The summary of a file counts the parts and links it added and the rows that found their part. */
  lemma SummaryIsTrue(db: Db, rows: seq<Row>, f: Folding)
    ensures var start := Begun(db, rows, f);
      var after := Applied(start, rows, f);
      && after.summary.createdParts == |after.db.parts| - |db.parts|
      && after.summary.createdLinks == |after.db.links| - |db.links|
      && after.summary.reusedParts == Reusing(start, rows, f)
  {
    FileCountsTrue(Begun(db, rows, f), rows, f);
  }

  /** And each row is counted once: its link was created, was there already, or the row was skipped. */
  lemma EveryRowIsCounted(db: Db, rows: seq<Row>, f: Folding)
    ensures Outcomes(Applied(Begun(db, rows, f), rows, f).summary) == |rows|
  {
    RowsAddUp(Begun(db, rows, f), rows, f);
  }

  // ---------------------------------------------------------------- the link of a row

  /** Everything a row needs to be read. */
  predicate IsReadable(row: Row) {
    Strip(row.originalArticle) != "" && Collapsed(row.analogName) != "" && row.priceValid && row.relation.Some? && row.dateValid
  }

  /** The link joins the original the row is about with the part it describes: the one that is there, or a new one. */
  ghost predicate IsLinkOf(db: Db, row: Row, f: Folding, link: Link) {
    && IsReadable(row) && row.relation == Some(link.relation)
    && IsCandidate(db, row, f, link.original)
    && (IsLanded(db, row, f, link.analog) || (link.analog == |db.parts| && !HasLanded(db, row, f)))
  }

  /** What is wrong with a row is looked for in this order. */
  lemma ProblemIff(row: Row)
    ensures Unreadable(row).None? <==> IsReadable(row)
    ensures Unreadable(row) == Some(NoOriginalArticle) <==> Strip(row.originalArticle) == ""
    ensures Strip(row.originalArticle) != "" ==>
      && (Unreadable(row) == Some(NoAnalog) <==> Strip(row.analogArticle) == "" && Collapsed(row.analogName) == "")
      && (Unreadable(row) == Some(NoName) <==> Strip(row.analogArticle) != "" && Collapsed(row.analogName) == "")
      && (Unreadable(row) == Some(BadPrice) <==> Collapsed(row.analogName) != "" && !row.priceValid)
      && (Unreadable(row) == Some(BadRelation) <==> Collapsed(row.analogName) != "" && row.priceValid && row.relation.None?)
  {
  }

  /** A candidate for the original that is not the analog of the row itself. */
  predicate IsOther(db: Db, row: Row, f: Folding, analog: Option<nat>, part: nat) {
    IsCandidate(db, row, f, part) && analog != Some(part)
  }

  lemma OthersAre(db: Db, row: Row, index: Index, analog: Option<nat>, articles: set<string>, f: Folding) returns (others: seq<nat>)
    requires Agrees(index, db, articles) && DbSound(db) && AsksWithin(row, articles, f) && Normal(row.originalArticle, f) != ""
    ensures Originals(db, row, index, analog, f) == Preferred(others, AnalogsIn(db.links)) && NoRepeats(others)
    ensures forall part: nat :: part in others <==> IsOther(db, row, f, analog, part)
  {
    var narrowed := Narrowed(db, PartsByArticle(index, row.originalArticle, f), row.originalMaker, f);
    NarrowedAreTheCandidates(db, row, index, articles, f);
    others := if analog.Some? then Kept(narrowed, OtherThan(analog.value)) else narrowed;
    if analog.Some? {
      KeptFacts(narrowed, OtherThan(analog.value));
    }
  }

  lemma PreferredIff(parts: seq<nat>, known: set<nat>, original: nat)
    requires NoRepeats(parts)
    ensures Preferred(parts, known) == [original] <==>
      && original in parts
      && ((forall part :: part in parts ==> part == original)
          || (original !in known && forall part :: part in parts && part !in known ==> part == original))
  {
    KeptFacts(parts, NotAnAnalog(known));
    var free := Kept(parts, NotAnAnalog(known));
    OnlyElement(parts, original);
    OnlyElement(free, original);
    if |parts| < 2 && original in parts {
      assert parts == [original];
    }
  }

  lemma OnlyElement(parts: seq<nat>, only: nat)
    requires NoRepeats(parts)
    ensures parts == [only] <==> only in parts && forall part :: part in parts ==> part == only
  {
    if only in parts && forall part :: part in parts ==> part == only {
      if |parts| > 1 {
        assert parts[0] in parts && parts[1] in parts;
      }
    }
  }

  /** The only such candidate, or the only one that is not itself known as an analog. */
  ghost predicate IsTheOriginal(db: Db, row: Row, f: Folding, analog: Option<nat>, original: nat) {
    && IsOther(db, row, f, analog, original)
    && ((forall part: nat :: IsOther(db, row, f, analog, part) ==> part == original)
        || (original !in AnalogsIn(db.links)
            && forall part: nat :: IsOther(db, row, f, analog, part) && part !in AnalogsIn(db.links) ==> part == original))
  }

  lemma OriginalIsFoundIff(db: Db, row: Row, index: Index, analog: Option<nat>, articles: set<string>, f: Folding, original: nat)
    requires Agrees(index, db, articles) && DbSound(db) && AsksWithin(row, articles, f) && Normal(row.originalArticle, f) != ""
    ensures Originals(db, row, index, analog, f) == [original] <==> IsTheOriginal(db, row, f, analog, original)
  {
    var others := OthersAre(db, row, index, analog, articles, f);
    PreferredIff(others, AnalogsIn(db.links), original);
  }

  /** How a readable row is decided, by the parts that match it and the originals found then. */
  lemma DecisionByLists(db: Db, row: Row, index: Index, f: Folding, original: nat, analog: nat, relation: Relation)
    ensures Resolve(db, row, index, f) == Reuse(original, analog, relation) <==>
      && IsReadable(row) && row.relation == Some(relation) && Matched(db, row, index, f) == [analog]
      && Originals(db, row, index, Some(analog), f) == [original]
    ensures Resolve(db, row, index, f) == Create(original, relation) <==>
      && IsReadable(row) && row.relation == Some(relation) && Matched(db, row, index, f) == []
      && Originals(db, row, index, None, f) == [original]
  {
    ProblemIff(row);
  }

  lemma MatchedOneIff(db: Db, row: Row, index: Index, articles: set<string>, f: Folding, analog: nat)
    requires Agrees(index, db, articles) && DbSound(db) && AsksWithin(row, articles, f) && Normal(row.analogArticle, f) != ""
    ensures Matched(db, row, index, f) == [analog] <==>
      IsLanded(db, row, f, analog) && forall part: nat :: IsLanded(db, row, f, part) ==> part == analog
    ensures Matched(db, row, index, f) == [] <==> !HasLanded(db, row, f)
  {
    var matched := Matched(db, row, index, f);
    MatchedAreTheLanded(db, row, index, articles, f);
    OnlyElement(matched, analog);
    if matched != [] {
      assert matched[0] in matched;
      assert IsLanded(db, row, f, matched[0]);
    }
  }

  /** A row is given a part and an original just when the tables name exactly one of each; it creates one when they name no part. */
  lemma RowIsDecidedIff(db: Db, row: Row, index: Index, articles: set<string>, f: Folding, original: nat, analog: nat, relation: Relation)
    requires Agrees(index, db, articles) && DbSound(db) && AsksWithin(row, articles, f)
    requires Normal(row.analogArticle, f) != "" && Normal(row.originalArticle, f) != ""
    ensures Resolve(db, row, index, f) == Reuse(original, analog, relation) <==>
      && IsReadable(row) && row.relation == Some(relation)
      && IsLanded(db, row, f, analog) && (forall part: nat :: IsLanded(db, row, f, part) ==> part == analog)
      && IsTheOriginal(db, row, f, Some(analog), original)
    ensures Resolve(db, row, index, f) == Create(original, relation) <==>
      IsReadable(row) && row.relation == Some(relation) && !HasLanded(db, row, f) && IsTheOriginal(db, row, f, None, original)
  {
    MatchedOneIff(db, row, index, articles, f, analog);
    OriginalIsFoundIff(db, row, index, Some(analog), articles, f, original);
    OriginalIsFoundIff(db, row, index, None, articles, f, original);
    DecisionByLists(db, row, index, f, original, analog, relation);
  }

  /** A row without an article for its part never finds one: it creates it as soon as there is one original. */
  lemma RowWithoutArticleIsDecidedIff(db: Db, row: Row, index: Index, articles: set<string>, f: Folding, original: nat, relation: Relation)
    requires Agrees(index, db, articles) && DbSound(db) && AsksWithin(row, articles, f)
    requires Normal(row.analogArticle, f) == "" && Normal(row.originalArticle, f) != ""
    ensures !Resolve(db, row, index, f).Reuse?
    ensures Resolve(db, row, index, f) == Create(original, relation) <==>
      IsReadable(row) && row.relation == Some(relation) && IsTheOriginal(db, row, f, None, original)
  {
    ProblemIff(row);
    OriginalIsFoundIff(db, row, index, None, articles, f, original);
  }

  lemma DecisionIsOfTheRow(db: Db, row: Row, index: Index, articles: set<string>, f: Folding)
    requires Agrees(index, db, articles) && DbSound(db) && AsksWithin(row, articles, f)
    requires Normal(row.analogArticle, f) != "" && Normal(row.originalArticle, f) != ""
    ensures var decision := Resolve(db, row, index, f);
      && (decision.Reuse? ==> IsLinkOf(db, row, f, Link(decision.original, decision.analog, decision.relation)))
      && (decision.Create? ==> IsLinkOf(db, row, f, Link(decision.original, |db.parts|, decision.relation)))
  {
    var decision := Resolve(db, row, index, f);
    if !decision.Attention? {
      NoOriginalIsGuessed(db, row, index, articles, f, 0);
      DecisionIsAboutKnownParts(db, row, index, articles, f);
      CreatesIff(db, row, index, articles, f);
    }
  }

  /** A part is created unless its barcode is taken or there is no unit to count it in; its barcode is taken afterwards. */
  lemma PartIsCreatedIff(db: Db, row: Row, f: Folding, barcode: string)
    ensures var result := CreateManualPart(db, row, f);
      && (result == Err(BarcodeTaken) <==> row.barcode.Some? && row.barcode.value in db.barcodes)
      && (result == Err(NoUnit) <==> !(row.barcode.Some? && row.barcode.value in db.barcodes) && !db.hasUnit)
      && (result.Ok? ==>
            && |result.value.parts| == |db.parts| + 1 && result.value.parts[..|db.parts|] == db.parts
            && result.value.parts[|db.parts|].name == Cut(Collapsed(row.analogName), 200)
            && (result.value.parts[|db.parts|].maker.None? <==> Collapsed(row.analogMaker) == "")
            && result.value.links == db.links
            && (barcode in result.value.barcodes <==> barcode in db.barcodes || row.barcode == Some(barcode)))
  {
  }

  /** The other end of a link is never recorded as its analog, so a part that is new can always be linked. */
  lemma NewPartsCanBeLinked(s: State, row: Row, original: nat, relation: Relation, f: Folding)
    requires DbSound(s.db) && original < |s.db.parts| && CreateManualPart(s.db, row, f).Ok?
    ensures LinkAnalog(CreateManualPart(s.db, row, f).value.links, Link(original, |s.db.parts|, relation)).Ok?
    ensures Link(original, |s.db.parts|, relation) !in s.db.links
  {
    var there, back := Link(original, |s.db.parts|, relation), Link(|s.db.parts|, original, relation);
    assert there in s.db.links ==> LinkSound(s.db, there);
    assert back in s.db.links ==> LinkSound(s.db, back);
  }

  /** One link more, for the row, or none and one row skipped. */
  ghost predicate LinkedOrSkipped(s: State, after: State, row: Row, f: Folding) {
    if after.summary.skipped == s.summary.skipped
    then exists link :: IsLinkOf(s.db, row, f, link) && after.db.links == s.db.links + {link}
    else after.summary.skipped == s.summary.skipped + 1 && after.db.links == s.db.links
  }

  lemma WantedLinkIsRecorded(s: State, link: Link)
    ensures var after := Linked(s, link);
      if LinkAnalog(s.db.links, link).Ok?
      then after.summary.skipped == s.summary.skipped && after.db.links == s.db.links + {link}
      else after.summary.skipped == s.summary.skipped + 1 && after.db.links == s.db.links
  {
  }

  lemma CreatedRowIsLinked(s: State, row: Row, original: nat, relation: Relation, f: Folding)
    requires DbSound(s.db) && original < |s.db.parts| && IsLinkOf(s.db, row, f, Link(original, |s.db.parts|, relation))
    ensures LinkedOrSkipped(s, Created(s, row, original, relation, f), row, f)
  {
    if CreateManualPart(s.db, row, f).Ok? {
      NewPartsCanBeLinked(s, row, original, relation, f);
      var created := AfterCreation(s, row, f).(summary := s.summary.(createdParts := s.summary.createdParts + 1));
      WantedLinkIsRecorded(created, Link(original, |s.db.parts|, relation));
    }
  }

  /** A row adds the link of its two parts and nothing else, or is skipped and adds no link. */
  lemma RowIsLinked(s: State, row: Row, articles: set<string>, f: Folding)
    requires Agrees(s.index, s.db, articles) && DbSound(s.db) && AsksWithin(row, articles, f)
    requires Normal(row.analogArticle, f) != "" && Normal(row.originalArticle, f) != ""
    ensures LinkedOrSkipped(s, ApplyRow(s, row, f), row, f)
  {
    DecisionIsOfTheRow(s.db, row, s.index, articles, f);
    DecisionIsAboutKnownParts(s.db, row, s.index, articles, f);
    match Resolve(s.db, row, s.index, f)
    case Attention(_) =>
    case Reuse(original, analog, relation) =>
      WantedLinkIsRecorded(s.(summary := s.summary.(reusedParts := s.summary.reusedParts + 1)), Link(original, analog, relation));
      assert IsLinkOf(s.db, row, f, Link(original, analog, relation));
    case Create(original, relation) => CreatedRowIsLinked(s, row, original, relation, f);
  }

  /** Once its parts are known, a row is skipped only because the same fact is recorded from the other side. */
  lemma TakenRowIsSkippedIff(s: State, row: Row, articles: set<string>, f: Folding)
    requires Agrees(s.index, s.db, articles) && DbSound(s.db) && AsksWithin(row, articles, f)
    requires Normal(row.analogArticle, f) != "" && Normal(row.originalArticle, f) != "" && Took(s, row, f)
    ensures var decision := Resolve(s.db, row, s.index, f);
      ApplyRow(s, row, f).summary.skipped == s.summary.skipped + 1 <==>
        decision.Reuse? && Link(decision.analog, decision.original, decision.relation) in s.db.links
  {
    NoOriginalIsGuessed(s.db, row, s.index, articles, f, 0);
    var decision := Resolve(s.db, row, s.index, f);
    if decision.Create? {
      DecisionIsAboutKnownParts(s.db, row, s.index, articles, f);
      NewPartsCanBeLinked(s, row, decision.original, decision.relation, f);
    }
  }

  // ---------------------------------------------------------------- the links of a file

  ghost predicate Searchable(rows: seq<Row>, f: Folding) {
    forall k :: 0 <= k < |rows| ==> Normal(rows[k].analogArticle, f) != "" && Normal(rows[k].originalArticle, f) != ""
  }

  ghost predicate IsFromRow(start: State, rows: seq<Row>, f: Folding, link: Link, k: nat) {
    k < |rows| && IsLinkOf(Applied(start, rows[..k], f).db, rows[k], f, link)
  }

  ghost predicate IsFromARow(start: State, rows: seq<Row>, f: Folding, link: Link) {
    exists k: nat :: IsFromRow(start, rows, f, link, k)
  }

  lemma FromAnEarlierRow(start: State, rows: seq<Row>, f: Folding, link: Link)
    requires rows != [] && IsFromARow(start, rows[..|rows| - 1], f, link)
    ensures IsFromARow(start, rows, f, link)
  {
    var before := rows[..|rows| - 1];
    var k: nat :| IsFromRow(start, before, f, link, k);
    assert before[..k] == rows[..k];
    assert IsFromRow(start, rows, f, link, k);
  }

  lemma {:induction false} LinksAreFromRows(start: State, rows: seq<Row>, articles: set<string>, f: Folding, link: Link)
    requires Agrees(start.index, start.db, articles) && DbSound(start.db) && AllAskWithin(rows, articles, f)
    requires f.upper("") == "" && "" !in articles && ShortArticles(rows) && Searchable(rows, f)
    requires link in Applied(start, rows, f).db.links
    ensures link in start.db.links || IsFromARow(start, rows, f, link)
  {
    if rows != [] {
      var before, last := rows[..|rows| - 1], rows[|rows| - 1];
      var s := Applied(start, before, f);
      PrefixKeepsAll(start, before, articles, f);
      RowIsLinked(s, last, articles, f);
      if link in s.db.links {
        LinksAreFromRows(start, before, articles, f, link);
        if link !in start.db.links {
          FromAnEarlierRow(start, rows, f, link);
        }
      } else {
        assert IsFromRow(start, rows, f, link, |before|);
      }
    }
  }

  /** Every link a file adds joins an original and an analog that one of its rows named. */
  lemma NoLinkIsInvented(db: Db, rows: seq<Row>, f: Folding, link: Link)
    requires DbSound(db) && f.upper("") == "" && ShortArticles(rows) && Searchable(rows, f)
    requires link in Applied(Begun(db, rows, f), rows, f).db.links
    ensures link in db.links || IsFromARow(Begun(db, rows, f), rows, f, link)
  {
    FileIsWellAsked(db, rows, f);
    LinksAreFromRows(Begun(db, rows, f), rows, ArticlesOf(rows, f), f, link);
  }

  lemma LinksOnlyGrow(s: State, row: Row, f: Folding)
    ensures s.db.links <= ApplyRow(s, row, f).db.links
  {
  }

  lemma {:induction false} LinkStays(start: State, rows: seq<Row>, f: Folding, k: nat, link: Link)
    requires k <= |rows| && link in Applied(start, rows[..k], f).db.links
    ensures link in Applied(start, rows, f).db.links
  {
    if k == |rows| {
      assert rows[..k] == rows;
    } else {
      var before := rows[..|rows| - 1];
      assert before[..k] == rows[..k];
      LinkStays(start, before, f, k, link);
      LinksOnlyGrow(Applied(start, before, f), rows[|rows| - 1], f);
    }
  }

  /** Every row of a file that was not skipped has its link in the tables at the end. */
  lemma EveryRowIsLinked(db: Db, rows: seq<Row>, f: Folding, k: nat)
    requires DbSound(db) && f.upper("") == "" && ShortArticles(rows) && Searchable(rows, f) && k < |rows|
    requires var start := Begun(db, rows, f);
      Applied(start, rows[..k + 1], f).summary.skipped == Applied(start, rows[..k], f).summary.skipped
    ensures var start := Begun(db, rows, f);
      exists link :: IsLinkOf(Applied(start, rows[..k], f).db, rows[k], f, link) && link in Applied(start, rows, f).db.links
  {
    var start, articles := Begun(db, rows, f), ArticlesOf(rows, f);
    var s := Applied(start, rows[..k], f);
    FileIsWellAsked(db, rows, f);
    PrefixKeepsAll(start, rows[..k], articles, f);
    RowIsLinked(s, rows[k], articles, f);
    assert rows[..k + 1][..k] == rows[..k];
    var link :| IsLinkOf(s.db, rows[k], f, link) && Applied(start, rows[..k + 1], f).db.links == s.db.links + {link};
    assert link in Applied(start, rows[..k + 1], f).db.links;
    LinkStays(start, rows, f, k + 1, link);
  }
}
