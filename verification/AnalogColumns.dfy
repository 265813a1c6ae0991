/** What the lengths of the columns do to a part, to the index, and to a second run of the same file. */
module AnalogColumns {
  import opened Basics
  import opened AnalogImport
  import opened AnalogImportLaws

  // ---------------------------------------------------------------- a part and its own row

  /** No text folds like a proper beginning of it. */
  ghost predicate TellsCutsApart(fold: string -> string) {
    forall a: string, b: string :: a < b ==> fold(a) != fold(b)
  }

  ghost predicate FoldsNothingAway(f: Folding) {
    && f.lower("") == "" && TellsCutsApart(f.lower)
    && f.upper("") == "" && TellsCutsApart(f.upper)
  }

  predicate NamesFit(row: Row) {
    |Collapsed(row.analogName)| <= NAME_LENGTH && |Collapsed(row.analogMaker)| <= MAKER_LENGTH
  }

  lemma {:induction false} TrimRightIsABeginning(s: string)
    ensures TrimRight(s) <= s
  {
    if s != "" && IsSpace(s[|s| - 1]) {
      TrimRightIsABeginning(s[..|s| - 1]);
    }
  }

  /** What is left of a collapsed text once it was cut and stripped is a proper beginning of it. */
  lemma CutTextIsABeginning(s: string, length: nat)
    requires |Collapsed(s)| > length
    ensures Strip(Cut(Collapsed(s), length)) < Collapsed(s)
  {
    CollapsedIsTight(s);
    var cut := Cut(Collapsed(s), length);
    assert TrimLeft(cut) == cut;
    TrimRightIsABeginning(cut);
  }

  /** A text that was cut no longer reads like itself. */
  lemma CutTextReadsTheSameIff(s: string, length: nat, fold: string -> string)
    requires TellsCutsApart(fold)
    ensures fold(Strip(Cut(Collapsed(s), length))) == fold(Collapsed(s)) <==> |Collapsed(s)| <= length
  {
    CollapsedIsTight(s);
    if |Collapsed(s)| > length {
      CutTextIsABeginning(s, length);
    }
  }

  /** The part created for a row is one the row would find again if and only if name and maker fit their columns. */
  lemma NewPartMatchesItsRowIff(row: Row, f: Folding)
    requires f.lower("") == "" && TellsCutsApart(f.lower)
    ensures Matches(row, NewPart(row), f) <==> NamesFit(row)
  {
    CutTextReadsTheSameIff(row.analogName, NAME_LENGTH, f.lower);
    CutTextReadsTheSameIff(row.analogMaker, MAKER_LENGTH, f.lower);
    assert "" < Collapsed(row.analogMaker) || Collapsed(row.analogMaker) == "";
  }

  // ---------------------------------------------------------------- when a row creates a part

  ghost predicate HasLanded(db: Db, row: Row, f: Folding) {
    exists part: nat :: IsLanded(db, row, f, part)
  }

  /** Whatever the tables hold: a readable row creates a part if and only if none matches and one original is found. */
  lemma CreatesIff(db: Db, row: Row, index: Index, articles: set<string>, f: Folding)
    requires Agrees(index, db, articles) && DbSound(db) && AsksWithin(row, articles, f) && Normal(row.analogArticle, f) != ""
    ensures Resolve(db, row, index, f).Create? <==>
      Unreadable(row).None? && !HasLanded(db, row, f) && |Originals(db, row, index, None, f)| == 1
  {
    var matched := Matched(db, row, index, f);
    MatchedAreTheLanded(db, row, index, articles, f);
    if matched != [] {
      assert matched[0] in matched;
      assert IsLanded(db, row, f, matched[0]);
    }
  }

  lemma OneRow(start: State, row: Row, f: Folding)
    ensures Applied(start, [row], f) == ApplyRow(start, row, f)
  {
    assert [row][..0] == [];
  }

  /** After the creation the new part is the only one that can match the row. */
  lemma LandedAfterCreationIff(db: Db, row: Row, f: Folding)
    requires DbSound(db) && ShortArticle(row) && Normal(row.analogArticle, f) != "" && CreateManualPart(db, row, f).Ok?
    requires FoldsNothingAway(f) && !HasLanded(db, row, f)
    ensures HasLanded(CreateManualPart(db, row, f).value, row, f) <==> NamesFit(row)
  {
    var after, normal := CreateManualPart(db, row, f).value, Normal(row.analogArticle, f);
    NewPartMatchesItsRowIff(row, f);
    ShortArticleReadsTheSame(row, f);
    forall part: nat ensures IsLanded(after, row, f, part) <==> part == |db.parts| && NamesFit(row) {
      CreatedNumber(db, row, f, part, normal);
      if part < |db.parts| {
        assert after.parts[part] == db.parts[part];
        assert !IsLanded(db, row, f, part);
      }
    }
    assert NamesFit(row) ==> IsLanded(after, row, f, |db.parts|);
  }

  lemma LandedIgnoresLinks(db: Db, links: set<Link>, row: Row, f: Folding)
    ensures HasLanded(db.(links := links), row, f) <==> HasLanded(db, row, f)
  {
    forall part: nat ensures IsLanded(db.(links := links), row, f, part) <==> IsLanded(db, row, f, part) {
    }
  }

  /** The tables after the one row of a file has created its part. */
  function AfterFirstRun(db: Db, row: Row, f: Folding): Db {
    Applied(Begun(db, [row], f), [row], f).db
  }

  ghost predicate CreatesAtFirst(db: Db, row: Row, f: Folding) {
    Resolve(db, row, Built(db, ArticlesOf([row], f)), f).Create? && CreateManualPart(db, row, f).Ok?
  }

  /** A one-row file with an article that fits creates a part. */
  ghost predicate FileCreatesAPart(db: Db, row: Row, f: Folding) {
    DbSound(db) && ShortArticle(row) && Normal(row.analogArticle, f) != "" && CreatesAtFirst(db, row, f)
  }

  lemma LinkedTables(s: State, link: Link)
    ensures Linked(s, link).db.(links := {}) == s.db.(links := {})
    ensures AnalogsIn(s.db.links) <= AnalogsIn(Linked(s, link).db.links) <= AnalogsIn(s.db.links) + {link.analog}
  {
    LinksAgree(s.db.links, link);
  }

  lemma FirstRunTables(db: Db, row: Row, f: Folding)
    requires CreatesAtFirst(db, row, f)
    ensures AfterFirstRun(db, row, f).(links := {}) == CreateManualPart(db, row, f).value.(links := {})
    ensures AnalogsIn(AfterFirstRun(db, row, f).links) <= AnalogsIn(db.links) + {|db.parts|}
    ensures AnalogsIn(AfterFirstRun(db, row, f).links) >= AnalogsIn(db.links)
  {
    var start := Begun(db, [row], f);
    var decision, created := Resolve(db, row, start.index, f), AfterCreation(start, row, f);
    OneRow(start, row, f);
    LinkedTables(created.(summary := start.summary.(createdParts := 1)), Link(decision.original, |db.parts|, decision.relation));
  }

  lemma LandedAfterFirstRunIff(db: Db, row: Row, f: Folding)
    requires FileCreatesAPart(db, row, f) && FoldsNothingAway(f)
    ensures HasLanded(AfterFirstRun(db, row, f), row, f) <==> NamesFit(row)
  {
    var articles := ArticlesOf([row], f);
    FileIsWellAsked(db, [row], f);
    assert AsksWithin([row][0], articles, f);
    CreatesIff(db, row, Built(db, articles), articles, f);
    LandedAfterCreationIff(db, row, f);
    FirstRunTables(db, row, f);
    LandedIgnoresLinks(AfterFirstRun(db, row, f), {}, row, f);
    LandedIgnoresLinks(CreateManualPart(db, row, f).value, {}, row, f);
  }

  lemma LinkingCreatesNoPart(s: State, link: Link)
    ensures Linked(s, link).summary.createdParts == s.summary.createdParts
  {
  }

  lemma CreationCreatesOnePart(s: State, row: Row, original: nat, relation: Relation, f: Folding)
    ensures Created(s, row, original, relation, f).summary.createdParts
         == s.summary.createdParts + if CreateManualPart(s.db, row, f).Ok? then 1 else 0
  {
    if CreateManualPart(s.db, row, f).Ok? {
      var after := AfterCreation(s, row, f);
      LinkingCreatesNoPart(after.(summary := s.summary.(createdParts := s.summary.createdParts + 1)), Link(original, |s.db.parts|, relation));
    }
  }

  lemma RowCreatesIff(s: State, row: Row, f: Folding)
    ensures ApplyRow(s, row, f).summary.createdParts == s.summary.createdParts + 1 <==>
      Resolve(s.db, row, s.index, f).Create? && CreateManualPart(s.db, row, f).Ok?
  {
    match Resolve(s.db, row, s.index, f)
    case Attention(_) =>
    case Reuse(original, analog, relation) =>
      LinkingCreatesNoPart(s.(summary := s.summary.(reusedParts := s.summary.reusedParts + 1)), Link(original, analog, relation));
    case Create(original, relation) =>
      CreationCreatesOnePart(s, row, original, relation, f);
  }

  /** A one-row file creates its part if and only if the row is readable, none matches, and one original is found. */
  lemma OneRowCreatesIff(db: Db, row: Row, f: Folding)
    requires DbSound(db) && Normal(row.analogArticle, f) != ""
    ensures var start := Begun(db, [row], f);
      Applied(start, [row], f).summary.createdParts == 1 <==>
        && Unreadable(row).None? && !HasLanded(db, row, f) && |Originals(db, row, start.index, None, f)| == 1
        && CreateManualPart(db, row, f).Ok?
  {
    var articles, start := ArticlesOf([row], f), Begun(db, [row], f);
    FileIsWellAsked(db, [row], f);
    assert AsksWithin([row][0], articles, f);
    CreatesIff(db, row, start.index, articles, f);
    OneRow(start, row, f);
    RowCreatesIff(start, row, f);
  }

  lemma FirstRunIsSound(db: Db, row: Row, f: Folding)
    requires DbSound(db) && ShortArticle(row) && f.upper("") == ""
    ensures DbSound(AfterFirstRun(db, row, f))
  {
    FileIsWellAsked(db, [row], f);
    PrefixKeepsAll(Begun(db, [row], f), [row], ArticlesOf([row], f), f);
  }

  /**
   Running a one-row file again creates its part once more if and only if name or maker was cut, no barcode
   stands in the way, and one original is found again.
   */
  lemma SecondRunCreatesAgainIff(db: Db, row: Row, f: Folding)
    requires FileCreatesAPart(db, row, f) && FoldsNothingAway(f)
    ensures var again := Begun(AfterFirstRun(db, row, f), [row], f);
      Applied(again, [row], f).summary.createdParts == 1 <==>
        !NamesFit(row) && row.barcode.None? && |Originals(again.db, row, again.index, None, f)| == 1
  {
    FirstRunIsSound(db, row, f);
    LandedAfterFirstRunIff(db, row, f);
    FirstRunTables(db, row, f);
    OneRowCreatesIff(AfterFirstRun(db, row, f), row, f);
  }

  // ---------------------------------------------------------------- the original is found again

  lemma {:induction false} KeptSame(parts: seq<nat>, a: nat -> bool, b: nat -> bool)
    requires forall part :: part in parts ==> a(part) == b(part)
    ensures Kept(parts, a) == Kept(parts, b)
  {
    if parts != [] {
      KeptSame(parts[..|parts| - 1], a, b);
    }
  }

  lemma NewNumberElsewhere(numbers: seq<Number>, number: Number, articles: set<string>, normal: string)
    requires number.normal != normal
    ensures Bucket(ByArticle(numbers + [number], articles), normal) == Bucket(ByArticle(numbers, articles), normal)
  {
    assert (numbers + [number])[..|numbers|] == numbers;
  }

  lemma OriginalsAfterCreation(db: Db, later: Db, row: Row, articles: set<string>, f: Folding)
    requires DbSound(db) && AsksWithin(row, articles, f)
    requires |later.parts| == |db.parts| + 1 && later.parts[..|db.parts|] == db.parts
    requires PartsByArticle(Built(later, articles), row.originalArticle, f)
          == PartsByArticle(Built(db, articles), row.originalArticle, f)
    requires AnalogsIn(db.links) <= AnalogsIn(later.links) <= AnalogsIn(db.links) + {|db.parts|}
    ensures Originals(later, row, Built(later, articles), None, f) == Originals(db, row, Built(db, articles), None, f)
  {
    var found := PartsByArticle(Built(db, articles), row.originalArticle, f);
    BuiltAgrees(db, articles);
    ArticleFacts(db, Built(db, articles), articles, row.originalArticle, f);
    assert forall part: nat :: part < |db.parts| ==> later.parts[part] == db.parts[part];
    KeptSame(found, MadeBy(db, row.originalMaker, f), MadeBy(later, row.originalMaker, f));
    KeptFacts(found, MadeBy(db, row.originalMaker, f));
    var narrowed := Narrowed(db, found, row.originalMaker, f);
    KeptSame(narrowed, NotAnAnalog(AnalogsIn(db.links)), NotAnAnalog(AnalogsIn(later.links)));
  }

  /** Where original and analog have different articles, the only question is whether the names fit. */
  lemma CutNamesAreCreatedAgainIff(db: Db, row: Row, f: Folding)
    requires FileCreatesAPart(db, row, f) && FoldsNothingAway(f)
    requires Normal(row.originalArticle, f) != Normal(row.analogArticle, f)
    ensures Applied(Begun(AfterFirstRun(db, row, f), [row], f), [row], f).summary.createdParts == 1 <==>
      !NamesFit(row) && row.barcode.None?
  {
    var articles, after := ArticlesOf([row], f), AfterFirstRun(db, row, f);
    SecondRunCreatesAgainIff(db, row, f);
    FirstRunTables(db, row, f);
    FileIsWellAsked(db, [row], f);
    assert AsksWithin([row][0], articles, f);
    ShortArticleReadsTheSame(row, f);
    OriginalArticleAfterCreation(db, row, articles, f);
    CreatesIff(db, row, Built(db, articles), articles, f);
    OriginalsAfterCreation(db, after, row, articles, f);
  }

  lemma OriginalArticleAfterCreation(db: Db, row: Row, articles: set<string>, f: Folding)
    requires CreatesAtFirst(db, row, f) && ShortArticle(row) && Normal(row.originalArticle, f) != Normal(row.analogArticle, f)
    ensures PartsByArticle(Built(AfterFirstRun(db, row, f), articles), row.originalArticle, f)
         == PartsByArticle(Built(db, articles), row.originalArticle, f)
  {
    FirstRunTables(db, row, f);
    ShortArticleReadsTheSame(row, f);
    NewNumberElsewhere(db.numbers, Number(|db.parts|, Normal(row.analogArticle, f)), articles, Normal(row.originalArticle, f));
  }

  // ---------------------------------------------------------------- two inputs

  lemma {:induction false} SolidText(s: string)
    requires forall k :: 0 <= k < |s| ==> !IsSpace(s[k])
    ensures Squeezed(s) == s && Collapsed(s) == s && Strip(s) == s
  {
    if s != "" {
      SolidText(s[..|s| - 1]);
    }
  }

  lemma {:induction false} PlainText(s: string)
    requires forall k :: 0 <= k < |s| ==> !IsSeparator(s[k])
    ensures WithoutSeparators(s) == s
  {
    if s != "" {
      PlainText(s[..|s| - 1]);
    }
  }

  /** A text without separators is left alone when it is cleaned. */
  predicate IsSolid(s: string) {
    s != "" && forall k :: 0 <= k < |s| ==> !IsSeparator(s[k])
  }

  lemma SolidIsNotFoldedAway(s: string, f: Folding)
    requires IsSolid(s) && FoldsNothingAway(f)
    ensures Normal(s, f) == f.upper(s) && Normal(s, f) != "" && Strip(s) == s
  {
    PlainText(s);
    SolidText(s);
    assert "" < s;
  }

  /** Tables with one part under one number, and a row that names that number as its original. */
  predicate IsPlainInput(db: Db, row: Row, f: Folding) {
    && |db.parts| == 1 && db.numbers == [Number(0, Normal(row.originalArticle, f))] && db.links == {} && db.hasUnit
    && IsSolid(row.originalArticle) && IsSolid(row.analogArticle) && IsSolid(row.analogName)
    && Normal(row.originalArticle, f) != Normal(row.analogArticle, f) && row.originalMaker == "" && row.analogMaker == ""
    && row.barcode.None? && row.priceValid && row.relation.Some? && row.dateValid
  }

  lemma NothingHasLanded(db: Db, row: Row, f: Folding)
    requires IsPlainInput(db, row, f)
    ensures !HasLanded(db, row, f)
  {
    forall part: nat ensures !IsLanded(db, row, f, part) {
      assert Number(part, Normal(row.analogArticle, f)) !in db.numbers;
    }
  }

  lemma SolidRowIsReadable(row: Row)
    requires IsSolid(row.originalArticle) && IsSolid(row.analogArticle) && IsSolid(row.analogName)
    requires row.priceValid && row.relation.Some? && row.dateValid
    ensures Unreadable(row).None?
  {
    SolidText(row.originalArticle);
    SolidText(row.analogName);
  }

  lemma TheOriginalIsFound(db: Db, row: Row, articles: set<string>, f: Folding)
    requires IsPlainInput(db, row, f) && f.lower("") == ""
    requires Normal(row.originalArticle, f) != "" && Normal(row.originalArticle, f) in articles
    ensures Originals(db, row, Built(db, articles), None, f) == [0]
  {
    assert [db.numbers[0]][..0] == [];
    assert ByArticle([], articles) == map[];
    assert Added([], 0) == [0];
    assert PartsByArticle(Built(db, articles), row.originalArticle, f) == [0];
    assert Wanted(row.originalMaker, f) == "";
  }

  lemma PlainInputCreatesAPart(db: Db, row: Row, f: Folding)
    requires IsPlainInput(db, row, f) && FoldsNothingAway(f)
    ensures CreatesAtFirst(db, row, f) && Normal(row.analogArticle, f) != ""
  {
    var articles := ArticlesOf([row], f);
    SolidIsNotFoldedAway(row.originalArticle, f);
    SolidIsNotFoldedAway(row.analogArticle, f);
    SolidRowIsReadable(row);
    NothingHasLanded(db, row, f);
    FileIsWellAsked(db, [row], f);
    assert AsksWithin([row][0], articles, f);
    TheOriginalIsFound(db, row, articles, f);
    CreatesIff(db, row, Built(db, articles), articles, f);
  }

  lemma LongNameDoesNotFit(row: Row)
    requires IsSolid(row.analogName) && |row.analogName| > NAME_LENGTH
    ensures !NamesFit(row)
  {
    SolidText(row.analogName);
  }

  /** Whatever the folding: the second run of such a file creates its part again. */
  lemma LongNameInPlainInput(db: Db, row: Row, f: Folding)
    requires IsPlainInput(db, row, f) && FoldsNothingAway(f)
    requires |row.analogArticle| <= ARTICLE_LENGTH && |row.analogName| > NAME_LENGTH
    ensures CreatesAtFirst(db, row, f)
    ensures Applied(Begun(AfterFirstRun(db, row, f), [row], f), [row], f).summary.createdParts == 1
  {
    PlainInputCreatesAPart(db, row, f);
    SolidIsNotFoldedAway(row.analogArticle, f);
    LongNameDoesNotFit(row);
    CutNamesAreCreatedAgainIff(db, row, f);
  }

  /** Whatever the folding: the index holds the part under the whole article, the tables under its beginning. */
  lemma LongArticleInPlainInput(db: Db, row: Row, f: Folding)
    requires IsPlainInput(db, row, f) && FoldsNothingAway(f) && |row.analogArticle| > ARTICLE_LENGTH
    ensures var start, articles := Begun(db, [row], f), ArticlesOf([row], f);
      && Agrees(start.index, start.db, articles) && CreatesAtFirst(db, row, f)
      && !Agrees(AfterCreation(start, row, f).index, AfterCreation(start, row, f).db, articles)
  {
    PlainInputCreatesAPart(db, row, f);
    FileIsWellAsked(db, [row], f);
    assert AsksWithin([row][0], ArticlesOf([row], f), f);
    CutArticleReadsDifferently(row.analogArticle, f);
    CreationKeepsAgreementIff(Begun(db, [row], f), row, ArticlesOf([row], f), f);
  }

  lemma CutArticleReadsDifferently(article: string, f: Folding)
    requires IsSolid(article) && FoldsNothingAway(f) && |article| > ARTICLE_LENGTH
    ensures Normal(Cut(Strip(article), ARTICLE_LENGTH), f) != Normal(article, f)
  {
    SolidIsNotFoldedAway(article, f);
    PlainText(article[..ARTICLE_LENGTH]);
    assert article[..ARTICLE_LENGTH] < article;
  }

  // ---------------------------------------------------------------- a folding that changes case

  /** Latin letters, and a capital that folds to two characters. */
  function LowerOf(c: char): string {
    if 'A' <= c <= 'Z' then [c - 'A' + 'a'] else if c == '\U{130}' then "i\U{307}" else [c]
  }

  /** Latin letters, and a small letter that folds to two. */
  function UpperOf(c: char): string {
    if c == '\U{DF}' then "SS" else [Upper(c)]
  }

  function Folded(s: string, letter: char -> string): string {
    if s == "" then "" else Folded(s[..|s| - 1], letter) + letter(s[|s| - 1])
  }

  const LATIN := Folding(s => Folded(s, LowerOf), s => Folded(s, UpperOf))

  lemma {:induction false} LongerFoldsLonger(a: string, b: string, letter: char -> string)
    requires a <= b && forall c :: letter(c) != ""
    ensures |Folded(a, letter)| <= |Folded(b, letter)|
    ensures a < b ==> |Folded(a, letter)| < |Folded(b, letter)|
  {
    if a < b {
      LongerFoldsLonger(a, b[..|b| - 1], letter);
    } else {
      assert a == b;
    }
  }

  lemma FoldedTellsCutsApart(fold: string -> string, letter: char -> string)
    requires forall s :: fold(s) == Folded(s, letter)
    requires forall c :: letter(c) != ""
    ensures TellsCutsApart(fold)
  {
    forall a: string, b: string | a < b ensures fold(a) != fold(b) {
      LongerFoldsLonger(a, b, letter);
    }
  }

  lemma LatinFoldsNothingAway()
    ensures FoldsNothingAway(LATIN)
  {
    FoldedTellsCutsApart(LATIN.lower, LowerOf);
    FoldedTellsCutsApart(LATIN.upper, UpperOf);
  }

  const ONE_PART := Db([Part("ORIGINAL", None)], [Number(0, "B")], {}, {}, true)

  lemma {:induction false} FirstLetterFolded(s: string)
    requires s != ""
    ensures Folded(s, UpperOf) != "" && Folded(s, UpperOf)[0] == UpperOf(s[0])[0]
  {
    if |s| > 1 {
      FirstLetterFolded(s[..|s| - 1]);
    } else {
      assert s[..0] == "";
    }
  }

  lemma OneLetterFolded(s: string)
    requires |s| == 1
    ensures Folded(s, UpperOf) == UpperOf(s[0])
  {
    assert s[..0] == "";
    assert Folded("", UpperOf) == "";
  }

  lemma LatinReads(s: string)
    requires IsSolid(s)
    ensures Normal(s, LATIN) == Folded(s, UpperOf)
  {
    PlainText(s);
  }

  /** The original is written in a small letter and found under its capital. */
  lemma LatinOriginal(original: string, analog: string)
    requires original == "b" && IsSolid(analog) && analog[0] == 'a'
    ensures IsSolid(original) && Normal(original, LATIN) == "B" && Normal(analog, LATIN) != "B"
  {
    LatinReads(original);
    OneLetterFolded(original);
    LatinReads(analog);
    FirstLetterFolded(analog);
    assert UpperOf('b') == "B" && UpperOf('a') == "A";
  }

  lemma LatinInput(row: Row)
    requires IsSolid(row.analogArticle) && IsSolid(row.analogName) && row.analogArticle[0] == 'a'
    requires row == Row("b", "", row.analogArticle, row.analogName, "", None, true, Some(Analog), true)
    ensures IsPlainInput(ONE_PART, row, LATIN)
  {
    LatinOriginal(row.originalArticle, row.analogArticle);
  }

  /** A name of 201 letters: the second run of the file creates its part again. */
  lemma LongNameIsCreatedAgain(row: Row)
    requires row == Row("b", "", "a", seq(201, _ => 'A'), "", None, true, Some(Analog), true)
    ensures CreatesAtFirst(ONE_PART, row, LATIN)
    ensures Applied(Begun(AfterFirstRun(ONE_PART, row, LATIN), [row], LATIN), [row], LATIN).summary.createdParts == 1
  {
    LatinFoldsNothingAway();
    LatinInput(row);
    LongNameInPlainInput(ONE_PART, row, LATIN);
  }

  /** An article of 101 letters: the index holds the part under all of them, the tables under the first 100. */
  lemma LongArticleIsLostToTheIndex(row: Row)
    requires row == Row("b", "", seq(101, _ => 'a'), "A", "", None, true, Some(Analog), true)
    ensures var start, articles := Begun(ONE_PART, [row], LATIN), ArticlesOf([row], LATIN);
      && Agrees(start.index, start.db, articles) && CreatesAtFirst(ONE_PART, row, LATIN)
      && !Agrees(AfterCreation(start, row, LATIN).index, AfterCreation(start, row, LATIN).db, articles)
  {
    LatinFoldsNothingAway();
    LatinInput(row);
    LongArticleInPlainInput(ONE_PART, row, LATIN);
  }
}
