/**
 The import of analogs from a file: an index taken once and kept up to date row by row, a decision on
 each row, and what is written for it.

 A part's primary key is its place in the table. Case folding is given; what the price, relation and
 date columns come out as is a datum of each row.
 */
module AnalogImport {
  import opened Basics

  datatype Folding = Folding(lower: string -> string, upper: string -> string)

  // ---------------------------------------------------------------- cleaning text

  predicate IsSeparator(c: char) {
    IsSpace(c) || c in {'-', '_', '.', '/'}
  }

  function WithoutSeparators(s: string): string {
    if s == "" then ""
    else WithoutSeparators(s[..|s| - 1]) + (if IsSeparator(s[|s| - 1]) then "" else [s[|s| - 1]])
  }

  function Normal(s: string, f: Folding): string {
    f.upper(WithoutSeparators(s))
  }

  /** Words with one space between them, and one behind if the text ends in white space. */
  function Squeezed(s: string): string {
    if s == "" then ""
    else
      var before, c := Squeezed(s[..|s| - 1]), s[|s| - 1];
      if !IsSpace(c) then before + [c]
      else if before == "" || before[|before| - 1] == ' ' then before
      else before + [' ']
  }

  /** Leading and trailing white space gone, every run of it inside one space. */
  function Collapsed(s: string): string {
    var words := Squeezed(s);
    if words != "" && words[|words| - 1] == ' ' then words[..|words| - 1] else words
  }

  const NAME_LENGTH := 200
  const MAKER_LENGTH := 150
  const ARTICLE_LENGTH := 100

  // ---------------------------------------------------------------- tables and rows

  datatype Relation = Analog | Supersession | CrossReference

  datatype Part = Part(name: string, maker: Option<string>)

  /** An exact number of a part, as it is searched by. */
  datatype Number = Number(part: nat, normal: string)

  datatype Link = Link(original: nat, analog: nat, relation: Relation)

  /** `hasUnit`: some unit of measure is active, so a part can be given one. */
  datatype Db = Db(parts: seq<Part>, numbers: seq<Number>, links: set<Link>, barcodes: set<string>, hasUnit: bool)

  datatype Row = Row(
    originalArticle: string, originalMaker: string,
    analogArticle: string, analogName: string, analogMaker: string,
    barcode: Option<string>, priceValid: bool, relation: Option<Relation>, dateValid: bool)

  datatype Index = Index(byArticle: map<string, seq<nat>>, knownAnalogs: set<nat>, links: set<Link>)

  // ---------------------------------------------------------------- the index

  function Bucket(byArticle: map<string, seq<nat>>, normal: string): seq<nat> {
    if normal in byArticle then byArticle[normal] else []
  }

  function Added(bucket: seq<nat>, part: nat): seq<nat> {
    if part in bucket then bucket else bucket + [part]
  }

  /** Parts by the searched numbers, each part once under a number. */
  function ByArticle(numbers: seq<Number>, articles: set<string>): map<string, seq<nat>> {
    if numbers == [] then map[]
    else
      var before, last := ByArticle(numbers[..|numbers| - 1], articles), numbers[|numbers| - 1];
      if last.normal !in articles then before
      else before[last.normal := Added(Bucket(before, last.normal), last.part)]
  }

  function AnalogsIn(links: set<Link>): set<nat> {
    set link | link in links :: link.analog
  }

  function Built(db: Db, articles: set<string>): Index {
    Index(ByArticle(db.numbers, articles), AnalogsIn(db.links), db.links)
  }

  method BuildIndex(db: Db, articles: set<string>) returns (index: Index)
    ensures index == Built(db, articles)
  {
    var byArticle := map[];
    for k := 0 to |db.numbers|
      invariant byArticle == ByArticle(db.numbers[..k], articles)
    {
      var number := db.numbers[k];
      assert db.numbers[..k + 1][..k] == db.numbers[..k];
      if number.normal in articles {
        var bucket := Bucket(byArticle, number.normal);
        byArticle := byArticle[number.normal := if number.part in bucket then bucket else bucket + [number.part]];
      }
    }
    assert db.numbers[..|db.numbers|] == db.numbers;
    index := Index(byArticle, AnalogsIn(db.links), db.links);
  }

  /** The numbers a file asks about. */
  function ArticlesOf(rows: seq<Row>, f: Folding): set<string> {
    if rows == [] then {}
    else
      var last := rows[|rows| - 1];
      ArticlesOf(rows[..|rows| - 1], f)
      + (if Normal(last.originalArticle, f) != "" then {Normal(last.originalArticle, f)} else {})
      + (if Normal(last.analogArticle, f) != "" then {Normal(last.analogArticle, f)} else {})
  }

  function PartsByArticle(index: Index, article: string, f: Folding): seq<nat> {
    if Normal(article, f) == "" then [] else Bucket(index.byArticle, Normal(article, f))
  }

  function RememberPart(index: Index, part: nat, article: string, f: Folding): Index {
    var normal := Normal(article, f);
    if normal == "" then index else index.(byArticle := index.byArticle[normal := Bucket(index.byArticle, normal) + [part]])
  }

  function RememberLink(index: Index, link: Link): Index {
    index.(knownAnalogs := index.knownAnalogs + {link.analog}, links := index.links + {link})
  }

  // ---------------------------------------------------------------- the decision on a row

  function MakerName(part: Part, f: Folding): string {
    match part.maker
    case None => ""
    case Some(name) => f.lower(Strip(name))
  }

  function Wanted(maker: string, f: Folding): string {
    f.lower(Collapsed(maker))
  }

  /** Name and, if the row names one, manufacturer agree. */
  predicate Matches(row: Row, part: Part, f: Folding) {
    && f.lower(Strip(part.name)) == f.lower(Collapsed(row.analogName))
    && (Wanted(row.analogMaker, f) == "" || MakerName(part, f) == Wanted(row.analogMaker, f))
  }

  function Kept(parts: seq<nat>, keep: nat -> bool): seq<nat> {
    if parts == [] then []
    else Kept(parts[..|parts| - 1], keep) + (if keep(parts[|parts| - 1]) then [parts[|parts| - 1]] else [])
  }

  function IsMatch(db: Db, row: Row, f: Folding): nat -> bool {
    (part: nat) => part < |db.parts| && Matches(row, db.parts[part], f)
  }

  function MadeBy(db: Db, maker: string, f: Folding): nat -> bool {
    (part: nat) => part < |db.parts| && db.parts[part].maker.Some? && MakerName(db.parts[part], f) == Wanted(maker, f)
  }

  function OtherThan(analog: nat): nat -> bool {
    (part: nat) => part != analog
  }

  function NotAnAnalog(known: set<nat>): nat -> bool {
    (part: nat) => part !in known
  }

  /** An unknown or absent manufacturer throws nothing out. */
  function Narrowed(db: Db, parts: seq<nat>, maker: string, f: Folding): seq<nat> {
    var narrowed := Kept(parts, MadeBy(db, maker, f));
    if Wanted(maker, f) == "" || narrowed == [] then parts else narrowed
  }

  function Preferred(parts: seq<nat>, known: set<nat>): seq<nat> {
    var narrowed := Kept(parts, NotAnAnalog(known));
    if |parts| >= 2 && |narrowed| == 1 then narrowed else parts
  }

  datatype Problem =
    | NoOriginalArticle | NoAnalog | NoName | BadPrice | BadRelation | BadDate
    | SeveralAnalogs | OriginalNotFound | SeveralOriginals
    | BarcodeTaken | NoUnit | SelfLink | ReverseLink

  datatype Decision =
    | Attention(problem: Problem)
    | Reuse(original: nat, analog: nat, relation: Relation)
    | Create(original: nat, relation: Relation)

  function Originals(db: Db, row: Row, index: Index, analog: Option<nat>, f: Folding): seq<nat> {
    var found := Narrowed(db, PartsByArticle(index, row.originalArticle, f), row.originalMaker, f);
    Preferred(if analog.Some? then Kept(found, OtherThan(analog.value)) else found, index.knownAnalogs)
  }

  function Matched(db: Db, row: Row, index: Index, f: Folding): seq<nat> {
    Kept(PartsByArticle(index, row.analogArticle, f), IsMatch(db, row, f))
  }

  function Unreadable(row: Row): Option<Problem> {
    if Strip(row.originalArticle) == "" then Some(NoOriginalArticle)
    else if Strip(row.analogArticle) == "" && Collapsed(row.analogName) == "" then Some(NoAnalog)
    else if Collapsed(row.analogName) == "" then Some(NoName)
    else if !row.priceValid then Some(BadPrice)
    else if row.relation.None? then Some(BadRelation)
    else if !row.dateValid then Some(BadDate)
    else None
  }

  function Resolve(db: Db, row: Row, index: Index, f: Folding): Decision {
    if Unreadable(row).Some? then Attention(Unreadable(row).value)
    else
      var matched := Matched(db, row, index, f);
      if |matched| > 1 then Attention(SeveralAnalogs)
      else
        var analog := if matched == [] then None else Some(matched[0]);
        var originals := Originals(db, row, index, analog, f);
        if originals == [] then Attention(OriginalNotFound)
        else if |originals| > 1 then Attention(SeveralOriginals)
        else if analog.Some? then Reuse(originals[0], analog.value, row.relation.value)
        else Create(originals[0], row.relation.value)
  }

  // ---------------------------------------------------------------- writing

  /** The link wanted, unless it is of a part to itself or the same fact from the other side. */
  function LinkAnalog(links: set<Link>, wanted: Link): Result<set<Link>, Problem> {
    if wanted.original == wanted.analog then Err(SelfLink)
    else if Link(wanted.analog, wanted.original, wanted.relation) in links then Err(ReverseLink)
    else Ok(links + {wanted})
  }

  function NewPart(row: Row): Part {
    var maker := Collapsed(row.analogMaker);
    Part(Cut(Collapsed(row.analogName), NAME_LENGTH), if maker == "" then None else Some(Cut(maker, MAKER_LENGTH)))
  }

  function CreateManualPart(db: Db, row: Row, f: Folding): Result<Db, Problem> {
    if row.barcode.Some? && row.barcode.value in db.barcodes then Err(BarcodeTaken)
    else if !db.hasUnit then Err(NoUnit)
    else
      var article := Strip(row.analogArticle);
      Ok(db.(
        parts := db.parts + [NewPart(row)],
        numbers := if article == "" then db.numbers else db.numbers + [Number(|db.parts|, Normal(Cut(article, ARTICLE_LENGTH), f))],
        barcodes := if row.barcode.None? then db.barcodes else db.barcodes + {row.barcode.value}))
  }

  datatype Summary = Summary(createdParts: nat, reusedParts: nat, createdLinks: nat, alreadyLinked: nat, skipped: nat)

  datatype State = State(db: Db, index: Index, summary: Summary)

  function Skip(s: State): State {
    s.(summary := s.summary.(skipped := s.summary.skipped + 1))
  }

  function Linked(s: State, link: Link): State {
    match LinkAnalog(s.db.links, link)
    case Err(_) => Skip(s)
    case Ok(links) =>
      var created := link !in s.db.links;
      State(s.db.(links := links), RememberLink(s.index, link),
            if created then s.summary.(createdLinks := s.summary.createdLinks + 1)
            else s.summary.(alreadyLinked := s.summary.alreadyLinked + 1))
  }

  function Created(s: State, row: Row, original: nat, relation: Relation, f: Folding): State {
    match CreateManualPart(s.db, row, f)
    case Err(_) => Skip(s)
    case Ok(db) =>
      var part := |s.db.parts|;
      Linked(
        State(db, RememberPart(s.index, part, row.analogArticle, f), s.summary.(createdParts := s.summary.createdParts + 1)),
        Link(original, part, relation))
  }

  function ApplyRow(s: State, row: Row, f: Folding): State {
    match Resolve(s.db, row, s.index, f)
    case Attention(_) => Skip(s)
    case Reuse(original, analog, relation) =>
      Linked(s.(summary := s.summary.(reusedParts := s.summary.reusedParts + 1)), Link(original, analog, relation))
    case Create(original, relation) => Created(s, row, original, relation, f)
  }

  function Begun(db: Db, rows: seq<Row>, f: Folding): State {
    State(db, Built(db, ArticlesOf(rows, f)), Summary(0, 0, 0, 0, 0))
  }

  function Applied(start: State, rows: seq<Row>, f: Folding): State {
    if rows == [] then start else ApplyRow(Applied(start, rows[..|rows| - 1], f), rows[|rows| - 1], f)
  }

  // ---------------------------------------------------------------- the import as it runs

  class AnalogFile {
    var db: Db
    var index: Index
    var summary: Summary
    const folding: Folding

    function Value(): State
      reads this
    {
      State(db, index, summary)
    }

    constructor (tables: Db, rows: seq<Row>, f: Folding)
      ensures Value() == Begun(tables, rows, f) && folding == f
    {
      db, folding, summary := tables, f, Summary(0, 0, 0, 0, 0);
      var articles := {};
      for k := 0 to |rows|
        invariant articles == ArticlesOf(rows[..k], f)
      {
        assert rows[..k + 1][..k] == rows[..k];
        var original, analog := Normal(rows[k].originalArticle, f), Normal(rows[k].analogArticle, f);
        if original != "" {
          articles := articles + {original};
        }
        if analog != "" {
          articles := articles + {analog};
        }
      }
      assert rows[..|rows|] == rows;
      var built := BuildIndex(tables, articles);
      index := built;
    }

    /** Matching candidates, one by one. */
    method FindMatched(row: Row) returns (matched: seq<nat>)
      ensures matched == Matched(db, row, index, folding)
    {
      var candidates := PartsByArticle(index, row.analogArticle, folding);
      var keep := IsMatch(db, row, folding);
      matched := [];
      for k := 0 to |candidates|
        invariant matched == Kept(candidates[..k], keep)
      {
        assert candidates[..k + 1][..k] == candidates[..k];
        if keep(candidates[k]) {
          matched := matched + [candidates[k]];
        }
      }
      assert candidates[..|candidates|] == candidates;
    }

    method ResolveRow(row: Row) returns (decision: Decision)
      ensures decision == Resolve(db, row, index, folding)
    {
      var unreadable := Unreadable(row);
      if unreadable.Some? {
        return Attention(unreadable.value);
      }
      var matched := FindMatched(row);
      if |matched| > 1 {
        return Attention(SeveralAnalogs);
      }
      var analog := None;
      if matched != [] {
        analog := Some(matched[0]);
      }
      var originals := Originals(db, row, index, analog, folding);
      if originals == [] {
        return Attention(OriginalNotFound);
      }
      if |originals| > 1 {
        return Attention(SeveralOriginals);
      }
      if analog.Some? {
        return Reuse(originals[0], analog.value, row.relation.value);
      }
      return Create(originals[0], row.relation.value);
    }

    method ApplyLink(link: Link)
      modifies this
      ensures Value() == Linked(old(Value()), link)
    {
      var links := LinkAnalog(db.links, link);
      if links.Err? {
        summary := summary.(skipped := summary.skipped + 1);
        return;
      }
      var created := link !in db.links;
      db := db.(links := links.value);
      index := index.(knownAnalogs := index.knownAnalogs + {link.analog});
      index := index.(links := index.links + {link});
      if created {
        summary := summary.(createdLinks := summary.createdLinks + 1);
      } else {
        summary := summary.(alreadyLinked := summary.alreadyLinked + 1);
      }
    }

    /** The part of a row that none was found for, and its link. */
    method ApplyCreation(row: Row, original: nat, relation: Relation)
      modifies this
      ensures Value() == Created(old(Value()), row, original, relation, folding)
    {
      var part := |db.parts|;
      var created := CreateManualPart(db, row, folding);
      if created.Err? {
        summary := summary.(skipped := summary.skipped + 1);
        return;
      }
      db := created.value;
      summary := summary.(createdParts := summary.createdParts + 1);
      index := RememberPart(index, part, row.analogArticle, folding);
      ApplyLink(Link(original, part, relation));
    }

    method ApplyReuse(link: Link)
      modifies this
      ensures Value() == Linked(old(Value()).(summary := old(summary).(reusedParts := old(summary).reusedParts + 1)), link)
    {
      summary := summary.(reusedParts := summary.reusedParts + 1);
      ApplyLink(link);
    }

    method ApplyOne(row: Row)
      modifies this
      ensures Value() == ApplyRow(old(Value()), row, folding)
    {
      var decision := ResolveRow(row);
      match decision
      case Attention(_) =>
        summary := summary.(skipped := summary.skipped + 1);
      case Reuse(original, analog, relation) =>
        ApplyReuse(Link(original, analog, relation));
      case Create(original, relation) =>
        ApplyCreation(row, original, relation);
    }

    method ApplyRows(rows: seq<Row>)
      modifies this
      ensures Value() == Applied(old(Value()), rows, folding)
    {
      for k := 0 to |rows|
        invariant Value() == Applied(old(Value()), rows[..k], folding)
      {
        assert rows[..k + 1][..k] == rows[..k];
        ApplyOne(rows[k]);
      }
      assert rows[..|rows|] == rows;
    }
  }
}
