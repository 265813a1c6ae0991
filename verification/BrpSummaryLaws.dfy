/** What the BRP import writes and what its summary counts, said of the rows of the file and the catalogue alone. */
module BrpSummaryLaws {
  import opened Basics
  import opened BrpImporter
  import opened BrpImportLaws

  // ---------------------------------------------------------------- the first pass, row by row

  /** An earlier row of the file names the same material. */
  predicate IsRepeat(file: seq<FileRow>, i: nat)
    requires i < |file|
  {
    file[i].material != "" && exists j | 0 <= j < i :: file[j].material == file[i].material
  }

  /** The row beats every earlier row of its material. */
  predicate BeatsEarlier(file: seq<FileRow>, i: nat)
    requires i < |file|
  {
    forall j | 0 <= j < i && file[j].material == file[i].material :: Beats(file[i], file[j])
  }

  predicate HasBadPrice(row: FileRow) {
    row.material != "" && row.wholesaleInvalid
  }

  predicate HasNegativePrice(row: FileRow) {
    row.material != "" && !row.wholesaleInvalid && row.wholesale.Some? && row.wholesale.value < 0
  }

  function BadPrices(file: seq<FileRow>, n: nat): set<nat>
    requires n <= |file|
  {
    set i: nat | i < n && HasBadPrice(file[i])
  }

  function NegativePrices(file: seq<FileRow>, n: nat): set<nat>
    requires n <= |file|
  {
    set i: nat | i < n && HasNegativePrice(file[i])
  }

  function Repeats(file: seq<FileRow>, n: nat): set<nat>
    requires n <= |file|
  {
    set i: nat | i < n && IsRepeat(file, i)
  }

  function Improvements(file: seq<FileRow>, n: nat): set<nat>
    requires n <= |file|
  {
    set i: nat | i < n && IsRepeat(file, i) && BeatsEarlier(file, i)
  }

  lemma OneMoreIndex(before: set<nat>, after: set<nat>, n: nat, added: bool)
    requires after == (if added then before + {n} else before) && n !in before
    ensures |after| == |before| + if added then 1 else 0
  {
  }

  lemma BadPricesGrow(file: seq<FileRow>, n: nat)
    requires n < |file|
    ensures |BadPrices(file, n + 1)| == |BadPrices(file, n)| + if HasBadPrice(file[n]) then 1 else 0
  {
    OneMoreIndex(BadPrices(file, n), BadPrices(file, n + 1), n, HasBadPrice(file[n]));
  }

  lemma NegativePricesGrow(file: seq<FileRow>, n: nat)
    requires n < |file|
    ensures |NegativePrices(file, n + 1)| == |NegativePrices(file, n)| + if HasNegativePrice(file[n]) then 1 else 0
  {
    OneMoreIndex(NegativePrices(file, n), NegativePrices(file, n + 1), n, HasNegativePrice(file[n]));
  }

  lemma RepeatsGrow(file: seq<FileRow>, n: nat)
    requires n < |file|
    ensures |Repeats(file, n + 1)| == |Repeats(file, n)| + if IsRepeat(file, n) then 1 else 0
  {
    OneMoreIndex(Repeats(file, n), Repeats(file, n + 1), n, IsRepeat(file, n));
  }

  lemma ImprovementsGrow(file: seq<FileRow>, n: nat)
    requires n < |file|
    ensures |Improvements(file, n + 1)| == |Improvements(file, n)| + if IsRepeat(file, n) && BeatsEarlier(file, n) then 1 else 0
  {
    OneMoreIndex(Improvements(file, n), Improvements(file, n + 1), n, IsRepeat(file, n) && BeatsEarlier(file, n));
  }

  lemma RowIsCounted(s: FileStats, row: FileRow, kept: Option<FileRow>)
    ensures var t := CountFileRow(s, row, kept);
      && t.invalid == s.invalid + (if HasBadPrice(row) then 1 else 0)
      && t.negative == s.negative + (if HasNegativePrice(row) then 1 else 0)
      && t.duplicates == s.duplicates + (if row.material != "" && kept.Some? then 1 else 0)
      && t.priceResolved == s.priceResolved
           + (if row.material != "" && kept.Some? && Score(row) > Score(kept.value) then 1 else 0)
  {
  }

  lemma BeatingTheKeptRow(file: seq<FileRow>, n: nat)
    requires n < |file| && file[n].material in Best(file, n)
    ensures Score(file[n]) > Score(file[Best(file, n)[file[n].material]]) <==> BeatsEarlier(file, n)
  {
    var kept := Best(file, n)[file[n].material];
    ChosenIsFirstOfBest(file, n, file[n].material);
    HigherScoreBeats(file[n], file[kept]);
    assert forall j :: 0 <= j < n && file[j].material == file[n].material ==> !Beats(file[j], file[kept]);
  }

  lemma KeptIsEarlier(file: seq<FileRow>, n: nat)
    requires n < |file| && file[n].material != ""
    ensures Kept(file, Best(file, n), file[n].material).Some? <==> IsRepeat(file, n)
    ensures IsRepeat(file, n) ==>
      (Score(file[n]) > Score(Kept(file, Best(file, n), file[n].material).value) <==> BeatsEarlier(file, n))
  {
    ChosenAreMentioned(file, n, file[n].material);
    if file[n].material in Best(file, n) {
      BeatingTheKeptRow(file, n);
    }
  }

  ghost predicate CountsFile(s: FileStats, file: seq<FileRow>, n: nat)
    requires n <= |file|
  {
    && s.invalid == |BadPrices(file, n)| && s.negative == |NegativePrices(file, n)|
    && s.duplicates == |Repeats(file, n)| && s.priceResolved == |Improvements(file, n)|
  }

  lemma OneMoreRowCounted(s: FileStats, file: seq<FileRow>, n: nat, kept: Option<FileRow>)
    requires n < |file| && CountsFile(s, file, n) && kept == Kept(file, Best(file, n), file[n].material)
    ensures CountsFile(CountFileRow(s, file[n], kept), file, n + 1)
  {
    BadPricesGrow(file, n);
    NegativePricesGrow(file, n);
    RepeatsGrow(file, n);
    ImprovementsGrow(file, n);
    RowIsCounted(s, file[n], kept);
    if file[n].material != "" {
      KeptIsEarlier(file, n);
    }
  }

  /** The first pass counts the rows with an unreadable and with a negative price, the repeats and those that improved on what was kept. */
  lemma {:induction false} FileCountersAreTrue(file: seq<FileRow>, n: nat)
    requires n <= |file|
    ensures CountsFile(CountFile(file, n), file, n)
  {
    if n > 0 {
      FileCountersAreTrue(file, n - 1);
      OneMoreRowCounted(CountFile(file, n - 1), file, n - 1, Kept(file, Best(file, n - 1), file[n - 1].material));
    }
  }

  /** A file is kept from being committed if and only if some row of a material has an unreadable or a negative price. */
  lemma BlockedIff(file: seq<FileRow>)
    ensures Blocked(CountFile(file, |file|)) <==>
      exists i :: 0 <= i < |file| && (HasBadPrice(file[i]) || HasNegativePrice(file[i]))
  {
    FileCountersAreTrue(file, |file|);
    if i: nat :| i < |file| && (HasBadPrice(file[i]) || HasNegativePrice(file[i])) {
      assert HasBadPrice(file[i]) ==> i in BadPrices(file, |file|);
      assert HasNegativePrice(file[i]) ==> i in NegativePrices(file, |file|);
    }
    if |BadPrices(file, |file|)| > 0 {
      var i :| i in BadPrices(file, |file|);
    }
    if |NegativePrices(file, |file|)| > 0 {
      var i :| i in NegativePrices(file, |file|);
    }
  }

  /** Two rows offer different positive prices for the material. */
  predicate OffersTwoPrices(file: seq<FileRow>, material: Material) {
    exists i, j | 0 <= i < |file| && 0 <= j < |file| ::
      && file[i].material == material && !file[i].wholesaleInvalid && IsPositive(file[i].wholesale)
      && file[j].material == material && !file[j].wholesaleInvalid && IsPositive(file[j].wholesale)
      && file[i].wholesale != file[j].wholesale
  }

  lemma TwoElements<T>(s: set<T>, a: T, b: T)
    requires a in s && b in s && a != b
    ensures |s| > 1
  {
    assert {a, b} <= s;
    assert |s - {a, b}| == |s| - 2;
  }

  lemma NotOne<T>(s: set<T>) returns (a: T, b: T)
    requires |s| > 1
    ensures a in s && b in s && a != b
  {
    a :| a in s;
    assert |s - {a}| > 0;
    b :| b in s - {a};
  }

  lemma ConflictingIff(file: seq<FileRow>, material: Material)
    ensures material in Conflicting(file) <==> material != "" && OffersTwoPrices(file, material)
  {
    var prices := PositivePrices(file, material);
    if OffersTwoPrices(file, material) {
      var i, j :| 0 <= i < |file| && 0 <= j < |file|
        && file[i].material == material && !file[i].wholesaleInvalid && IsPositive(file[i].wholesale)
        && file[j].material == material && !file[j].wholesaleInvalid && IsPositive(file[j].wholesale)
        && file[i].wholesale != file[j].wholesale;
      assert OffersPositive(file[i], material) && OffersPositive(file[j], material);
      TwoElements(prices, file[i].wholesale.value, file[j].wholesale.value);
    }
    if |prices| > 1 {
      var p, q := NotOne(prices);
    }
  }

  // ---------------------------------------------------------------- what is written

  /** The nearest whole cent, a half away from zero. */
  predicate IsNearestCent(stored: Price, price: Price) {
    stored % 10_000 == 0 && if price >= 0 then -5_000 <= price - stored < 5_000 else -5_000 < price - stored <= 5_000
  }

  lemma StoredIsNearest(price: Price)
    ensures IsNearestCent(Stored(price), price)
  {
    StoredIsCents(price);
    if price >= 0 {
      Halves(price);
    } else {
      Halves(-price);
    }
  }

  lemma Halves(price: nat)
    ensures -5_000 <= price - (price + 5_000) / 10_000 * 10_000 < 5_000
  {
  }

  predicate IsNearestOption(stored: Option<Price>, price: Option<Price>) {
    match price
    case None => stored.None?
    case Some(p) => stored.Some? && IsNearestCent(stored.value, p)
  }

  /** The wholesale price of the row if it is positive, else the positive one that is known, else none. */
  function PriceToKeep(row: FileRow, known: Option<CatalogPart>): Option<Price> {
    if IsPositive(row.wholesale) then row.wholesale
    else if known.Some? && IsPositive(known.value.wholesale) then known.value.wholesale
    else None
  }

  /** The catalogue says something else than the row, or the material is not current. */
  predicate IsOutdated(part: CatalogPart, row: FileRow) {
    || part.texts != row.texts || part.retail != row.retail || part.wholesale != PriceToKeep(row, Some(part))
    || !part.isCurrent
  }

  /** A material of the file is written from its chosen row if it is new or outdated, and left as it is otherwise. */
  lemma RowIsWritten(catalog: Catalog, file: seq<FileRow>, run: ImportRun, m: Material)
    requires Chosen(file, m).Some?
    ensures var after, row := Imported(catalog, file, run), Chosen(file, m).value;
      && m in after
      && if m !in catalog || IsOutdated(catalog[m], row)
         then
           && after[m].texts == row.texts && IsNearestOption(after[m].retail, row.retail)
           && IsNearestOption(after[m].wholesale, PriceToKeep(row, Lookup(catalog, m)))
           && after[m].sourceFile == run.sourceFile && after[m].sourceRow == row.number && after[m].batch == run.batch
           && after[m].isCurrent && after[m].updatedAt == run.now
         else after[m] == catalog[m]
  {
    var row := Chosen(file, m).value;
    if row.retail.Some? {
      StoredIsNearest(row.retail.value);
    }
    var kept := PriceToKeep(row, Lookup(catalog, m));
    if kept.Some? {
      StoredIsNearest(kept.value);
    }
  }

  // ---------------------------------------------------------------- the counters of the second pass

  /** The materials of the file whose chosen row passes. */
  ghost function MaterialsWhere(file: seq<FileRow>, passes: FileRow -> bool): set<Material> {
    set m | m in Materials(file) && Chosen(file, m).Some? && passes(Chosen(file, m).value)
  }

  function CountOf(rows: seq<FileRow>, passes: FileRow -> bool): nat {
    if rows == [] then 0
    else CountOf(rows[..|rows| - 1], passes) + if passes(rows[|rows| - 1]) then 1 else 0
  }

  function NamesOf(rows: seq<FileRow>, passes: FileRow -> bool): set<Material> {
    if rows == [] then {}
    else NamesOf(rows[..|rows| - 1], passes) + if passes(rows[|rows| - 1]) then {rows[|rows| - 1].material} else {}
  }

  lemma {:induction false} NamesAreOfRows(rows: seq<FileRow>, passes: FileRow -> bool, m: Material)
    ensures m in NamesOf(rows, passes) <==> exists k :: 0 <= k < |rows| && rows[k].material == m && passes(rows[k])
  {
    if rows != [] {
      var before := rows[..|rows| - 1];
      NamesAreOfRows(before, passes, m);
      assert forall k :: 0 <= k < |before| ==> before[k] == rows[k];
    }
  }

  lemma {:induction false} EachNameOnce(rows: seq<FileRow>, passes: FileRow -> bool)
    requires OncePerMaterial(rows)
    ensures |NamesOf(rows, passes)| == CountOf(rows, passes)
  {
    if rows != [] {
      var before, last := rows[..|rows| - 1], rows[|rows| - 1];
      EachNameOnce(before, passes);
      NamesAreOfRows(before, passes, last.material);
      assert last.material !in NamesOf(before, passes);
    }
  }

  /** Counting the selected rows that pass is counting the materials whose chosen row does. */
  lemma CountIsOfMaterials(file: seq<FileRow>, passes: FileRow -> bool)
    ensures CountOf(Winners(file, Best(file, |file|), |file|), passes) == |MaterialsWhere(file, passes)|
  {
    var rows := Winners(file, Best(file, |file|), |file|);
    WinnersAreDistinct(file, Best(file, |file|), |file|);
    EachNameOnce(rows, passes);
    forall m ensures m in NamesOf(rows, passes) <==> m in MaterialsWhere(file, passes) {
      NamesAreOfRows(rows, passes, m);
      EachMaterialTakesItsBestRow(file, m);
      if m in NamesOf(rows, passes) {
        var k :| 0 <= k < |rows| && rows[k].material == m && passes(rows[k]);
        WinnerIsChosen(file, k);
      }
      if m in MaterialsWhere(file, passes) {
        var k := ChosenIsWinner(file, m);
        assert rows[k].material == m by {
          WinnerIsChosen(file, k);
          WinnersOnce(file, Best(file, |file|), |file|);
        }
      }
    }
    assert NamesOf(rows, passes) == MaterialsWhere(file, passes);
  }

  function IsNew(catalog: Catalog): FileRow -> bool {
    (row: FileRow) => row.material !in catalog
  }

  function Outdates(catalog: Catalog): FileRow -> bool {
    (row: FileRow) => row.material in catalog && IsOutdated(catalog[row.material], row)
  }

  function Confirms(catalog: Catalog): FileRow -> bool {
    (row: FileRow) => row.material in catalog && !IsOutdated(catalog[row.material], row)
  }

  function Revives(catalog: Catalog): FileRow -> bool {
    (row: FileRow) => row.material in catalog && !catalog[row.material].isCurrent
  }

  /** A positive price where the catalogue had none or zero. */
  function Repairs(catalog: Catalog): FileRow -> bool {
    (row: FileRow) =>
      && row.material in catalog && IsPositive(row.wholesale)
      && (catalog[row.material].wholesale.None? || catalog[row.material].wholesale.value == 0)
  }

  function BringsAPrice(catalog: Catalog): FileRow -> bool {
    (row: FileRow) => IsPositive(row.wholesale)
  }

  function KeepsThePrice(catalog: Catalog): FileRow -> bool {
    (row: FileRow) => !IsPositive(row.wholesale) && row.material in catalog && IsPositive(catalog[row.material].wholesale)
  }

  function HasNoPrice(catalog: Catalog): FileRow -> bool {
    (row: FileRow) => !IsPositive(row.wholesale) && !(row.material in catalog && IsPositive(catalog[row.material].wholesale))
  }

  lemma RowIsCompared(s: SyncStats, row: FileRow, catalog: Catalog)
    ensures var t := CountRow(s, row, Lookup(catalog, row.material));
      && t.created == s.created + (if IsNew(catalog)(row) then 1 else 0)
      && t.updated == s.updated + (if Outdates(catalog)(row) then 1 else 0)
      && t.skipped == s.skipped + (if Confirms(catalog)(row) then 1 else 0)
      && t.reactivated == s.reactivated + (if Revives(catalog)(row) then 1 else 0)
      && t.repaired == s.repaired + (if Repairs(catalog)(row) then 1 else 0)
      && t.newFile == s.newFile + (if BringsAPrice(catalog)(row) then 1 else 0)
      && t.previousRetained == s.previousRetained + (if KeepsThePrice(catalog)(row) then 1 else 0)
      && t.noUsable == s.noUsable + (if HasNoPrice(catalog)(row) then 1 else 0)
  {
  }

  /** The counters are those of the rows that pass. */
  ghost predicate Counts(s: SyncStats, rows: seq<FileRow>, catalog: Catalog) {
    && s.created == CountOf(rows, IsNew(catalog)) && s.updated == CountOf(rows, Outdates(catalog))
    && s.skipped == CountOf(rows, Confirms(catalog)) && s.reactivated == CountOf(rows, Revives(catalog))
    && s.repaired == CountOf(rows, Repairs(catalog)) && s.newFile == CountOf(rows, BringsAPrice(catalog))
    && s.previousRetained == CountOf(rows, KeepsThePrice(catalog)) && s.noUsable == CountOf(rows, HasNoPrice(catalog))
  }

  lemma {:induction false} RowsAreCompared(rows: seq<FileRow>, catalog: Catalog)
    ensures Counts(CountRows(NO_SYNC_STATS, rows, catalog), rows, catalog)
  {
    if rows != [] {
      RowsAreCompared(rows[..|rows| - 1], catalog);
      RowIsCompared(CountRows(NO_SYNC_STATS, rows[..|rows| - 1], catalog), rows[|rows| - 1], catalog);
    }
  }

  /** Each counter of the comparison is the number of materials of the file that it is about. */
  lemma ComparisonIsTrue(catalog: Catalog, file: seq<FileRow>)
    ensures var s := Expected(catalog, file).sync;
      && s.created == |MaterialsWhere(file, IsNew(catalog))|
      && s.updated == |MaterialsWhere(file, Outdates(catalog))|
      && s.skipped == |MaterialsWhere(file, Confirms(catalog))|
      && s.reactivated == |MaterialsWhere(file, Revives(catalog))|
      && s.repaired == |MaterialsWhere(file, Repairs(catalog))|
      && s.newFile == |MaterialsWhere(file, BringsAPrice(catalog))|
      && s.previousRetained == |MaterialsWhere(file, KeepsThePrice(catalog))|
      && s.noUsable == |MaterialsWhere(file, HasNoPrice(catalog))|
  {
    RowsAreCompared(Winners(file, Best(file, |file|), |file|), catalog);
    CountIsOfMaterials(file, IsNew(catalog));
    CountIsOfMaterials(file, Outdates(catalog));
    CountIsOfMaterials(file, Confirms(catalog));
    CountIsOfMaterials(file, Revives(catalog));
    CountIsOfMaterials(file, Repairs(catalog));
    CountIsOfMaterials(file, BringsAPrice(catalog));
    CountIsOfMaterials(file, KeepsThePrice(catalog));
    CountIsOfMaterials(file, HasNoPrice(catalog));
  }

  const HAS_RETAIL := (row: FileRow) => row.retail.Some?
  const HAS_WHOLESALE := (row: FileRow) => row.wholesale.Some?
  const IS_REPLACED := (row: FileRow) => row.texts.replacement1 != "" || row.texts.replacement2 != ""

  function HasStatus(status: string): FileRow -> bool {
    (row: FileRow) => row.texts.status == status
  }

  lemma {:induction false} RowsAreRead(rows: seq<FileRow>, status: string)
    requires status != ""
    ensures var s := CountReadRows(rows);
      && s.withRetail == CountOf(rows, HAS_RETAIL) && s.withWholesale == CountOf(rows, HAS_WHOLESALE)
      && s.withReplacement == CountOf(rows, IS_REPLACED)
      && s.statuses[status] == CountOf(rows, HasStatus(status)) && "" !in s.statuses
  {
    if rows != [] {
      RowsAreRead(rows[..|rows| - 1], status);
    }
  }

  /** So are the counters of the chosen rows as read, and the count of each status. */
  lemma ReadingIsTrue(catalog: Catalog, file: seq<FileRow>, status: string)
    requires status != ""
    ensures var s := Expected(catalog, file).rows;
      && s.withRetail == |MaterialsWhere(file, HAS_RETAIL)|
      && s.withWholesale == |MaterialsWhere(file, HAS_WHOLESALE)|
      && s.withReplacement == |MaterialsWhere(file, IS_REPLACED)|
      && s.statuses[status] == |MaterialsWhere(file, HasStatus(status))| && "" !in s.statuses
  {
    RowsAreRead(Winners(file, Best(file, |file|), |file|), status);
    CountIsOfMaterials(file, HAS_RETAIL);
    CountIsOfMaterials(file, HAS_WHOLESALE);
    CountIsOfMaterials(file, IS_REPLACED);
    CountIsOfMaterials(file, HasStatus(status));
  }
}
