/**
 Import of the BRP dealer price list into the catalogue: the choice of one row a material,
 the chunked second pass, and the one-shot specification both must equal.

 The file is a sequence of parsed rows. Prices are millionths of a dollar; the price columns
 of the catalogue hold whole cents and round halves away from zero.
 */
module BrpImporter {
  import opened Basics

  type Material = string
  type Price = int

  const CENT: int := 10_000

  datatype Texts = Texts(description: string, lastYearUtil: string, status: string, replacement1: string, replacement2: string)

  datatype FileRow = FileRow(
    material: Material, texts: Texts, retail: Option<Price>, wholesale: Option<Price>,
    wholesaleInvalid: bool, number: nat)

  datatype CatalogPart = CatalogPart(
    texts: Texts, retail: Option<Price>, wholesale: Option<Price>,
    sourceFile: string, sourceRow: nat, batch: string, isCurrent: bool, updatedAt: int)

  type Catalog = map<Material, CatalogPart>

  /** What one import run stamps on the rows it writes. */
  datatype ImportRun = ImportRun(sourceFile: string, batch: string, now: int)

  datatype PriceSource = NewFile | PreviousCatalog | Missing

  /** Counters of the first pass. */
  datatype FileStats = FileStats(
    scanned: nat, skippedEmpty: nat, invalid: nat, negative: nat, duplicates: nat, priceResolved: nat)

  /** Counters of the rows selected for the second pass. */
  datatype RowStats = RowStats(
    dataRows: nat, withRetail: nat, withWholesale: nat, withReplacement: nat, statuses: multiset<string>)

  /** Counters of the comparison with the catalogue. */
  datatype SyncStats = SyncStats(
    created: nat, updated: nat, reactivated: nat, skipped: nat, repaired: nat,
    newFile: nat, previousRetained: nat, noUsable: nat)

  datatype Summary = Summary(
    file: FileStats, conflicting: nat, uniqueMaterials: nat, rows: RowStats, sync: SyncStats, deactivated: nat)

  const NO_FILE_STATS := FileStats(0, 0, 0, 0, 0, 0)
  const NO_ROW_STATS := RowStats(0, 0, 0, 0, multiset{})
  const NO_SYNC_STATS := SyncStats(0, 0, 0, 0, 0, 0, 0, 0)

  // ---------------------------------------------------------------- prices

  predicate Positive(price: Option<Price>) {
    price.Some? && price.value > 0
  }

  /** The value a column of whole cents keeps. */
  function Stored(price: Price): Price {
    if price >= 0 then (price + CENT / 2) / CENT * CENT else -((-price + CENT / 2) / CENT * CENT)
  }

  function StoredOption(price: Option<Price>): Option<Price> {
    match price
    case None => None
    case Some(p) => Some(Stored(p))
  }

  predicate AtTwoDecimals(price: Option<Price>) {
    price.Some? ==> price.value % CENT == 0
  }

  function Score(row: FileRow): nat {
    (if Positive(row.wholesale) then 2 else 0) + (if Positive(row.retail) then 1 else 0)
  }

  // ---------------------------------------------------------------- pass 1

  /** One step of the first pass: the row at n replaces the kept one only when it scores higher. */
  function Keep(best: map<Material, nat>, file: seq<FileRow>, n: nat): map<Material, nat>
    requires n < |file|
    requires forall m :: m in best ==> best[m] < |file|
  {
    var row := file[n];
    if row.material == "" then best
    else if row.material !in best || Score(row) > Score(file[best[row.material]]) then best[row.material := n]
    else best
  }

  /** The chosen row index of each material among the first n rows. */
  function Best(file: seq<FileRow>, n: nat): (best: map<Material, nat>)
    requires n <= |file|
    ensures forall m :: m in best ==> best[m] < n && file[best[m]].material == m && m != ""
  {
    if n == 0 then map[] else Keep(Best(file, n - 1), file, n - 1)
  }

  function CountFileRow(s: FileStats, row: FileRow, kept: Option<FileRow>): FileStats {
    var seen := s.(scanned := s.scanned + 1);
    if row.material == "" then seen.(skippedEmpty := seen.skippedEmpty + 1) else
      var priced :=
        if row.wholesaleInvalid then seen.(invalid := seen.invalid + 1)
        else if row.wholesale.Some? && row.wholesale.value < 0 then seen.(negative := seen.negative + 1)
        else seen;
      if kept.None? then priced
      else priced.(duplicates := priced.duplicates + 1,
                   priceResolved := priced.priceResolved + if Score(row) > Score(kept.value) then 1 else 0)
  }

  function Kept(file: seq<FileRow>, best: map<Material, nat>, material: Material): Option<FileRow>
    requires forall m :: m in best ==> best[m] < |file|
  {
    if material in best then Some(file[best[material]]) else None
  }

  function CountFile(file: seq<FileRow>, n: nat): FileStats
    requires n <= |file|
  {
    if n == 0 then NO_FILE_STATS
    else CountFileRow(CountFile(file, n - 1), file[n - 1], Kept(file, Best(file, n - 1), file[n - 1].material))
  }

  predicate OffersPositive(row: FileRow, material: Material) {
    row.material == material && !row.wholesaleInvalid && Positive(row.wholesale)
  }

  function PositivePrices(file: seq<FileRow>, material: Material): set<Price> {
    set i | 0 <= i < |file| && OffersPositive(file[i], material) :: file[i].wholesale.value
  }

  function Conflicting(file: seq<FileRow>): set<Material> {
    set i | 0 <= i < |file| && file[i].material != "" && |PositivePrices(file, file[i].material)| > 1 :: file[i].material
  }

  predicate Blocked(s: FileStats) {
    s.invalid > 0 || s.negative > 0
  }

  // ---------------------------------------------------------------- pass 2

  function Lookup(catalog: Catalog, material: Material): Option<CatalogPart> {
    if material in catalog then Some(catalog[material]) else None
  }

  /** The wholesale price to keep: a usable new one, else a positive previous one, else none. */
  function ChooseWholesale(row: FileRow, existing: Option<CatalogPart>): (Option<Price>, PriceSource) {
    if Positive(row.wholesale) then (row.wholesale, NewFile)
    else if existing.Some? && Positive(existing.value.wholesale) then (existing.value.wholesale, PreviousCatalog)
    else (None, Missing)
  }

  function Priced(row: FileRow, existing: Option<CatalogPart>): FileRow {
    row.(wholesale := ChooseWholesale(row, existing).0)
  }

  predicate Differs(part: CatalogPart, row: FileRow) {
    part.texts != row.texts || part.retail != row.retail || part.wholesale != row.wholesale
  }

  predicate NeedsWrite(row: FileRow, existing: Option<CatalogPart>) {
    existing.None? || Differs(existing.value, Priced(row, existing)) || !existing.value.isCurrent
  }

  /** The catalogue row after the database has rounded its prices. */
  function Written(row: FileRow, run: ImportRun): CatalogPart {
    CatalogPart(row.texts, StoredOption(row.retail), StoredOption(row.wholesale),
                run.sourceFile, row.number, run.batch, true, run.now)
  }

  function CountRow(s: SyncStats, row: FileRow, existing: Option<CatalogPart>): SyncStats {
    var (wholesale, source) := ChooseWholesale(row, existing);
    var sourced :=
      match source
      case NewFile => s.(newFile := s.newFile + 1)
      case PreviousCatalog => s.(previousRetained := s.previousRetained + 1)
      case Missing => s.(noUsable := s.noUsable + 1);
    if existing.None? then sourced.(created := sourced.created + 1)
    else if NeedsWrite(row, existing) then
      var previous := existing.value;
      sourced.(
        updated := sourced.updated + 1,
        reactivated := sourced.reactivated + (if previous.isCurrent then 0 else 1),
        repaired := sourced.repaired
                    + if (previous.wholesale.None? || previous.wholesale.value == 0) && Positive(wholesale) then 1 else 0)
    else sourced.(skipped := sourced.skipped + 1)
  }

  function CountRows(s: SyncStats, rows: seq<FileRow>, catalog: Catalog): SyncStats {
    if rows == [] then s else
      var last := rows[|rows| - 1];
      CountRow(CountRows(s, rows[..|rows| - 1], catalog), last, Lookup(catalog, last.material))
  }

  function Writes(rows: seq<FileRow>, catalog: Catalog, run: ImportRun): Catalog {
    if rows == [] then map[] else
      var last := rows[|rows| - 1];
      var before := Writes(rows[..|rows| - 1], catalog, run);
      var existing := Lookup(catalog, last.material);
      if NeedsWrite(last, existing) then before[last.material := Written(Priced(last, existing), run)] else before
  }

  function CountReadRow(s: RowStats, row: FileRow): RowStats {
    RowStats(
      s.dataRows + 1,
      s.withRetail + (if row.retail.Some? then 1 else 0),
      s.withWholesale + (if row.wholesale.Some? then 1 else 0),
      s.withReplacement + (if row.texts.replacement1 != "" || row.texts.replacement2 != "" then 1 else 0),
      if row.texts.status != "" then s.statuses + multiset{row.texts.status} else s.statuses)
  }

  function CountReadRows(rows: seq<FileRow>): RowStats {
    if rows == [] then NO_ROW_STATS else CountReadRow(CountReadRows(rows[..|rows| - 1]), rows[|rows| - 1])
  }

  predicate Selected(file: seq<FileRow>, best: map<Material, nat>, i: nat)
    requires i < |file|
  {
    file[i].material in best && best[file[i].material] == i
  }

  /** The selected rows among the first n, in file order. */
  function Winners(file: seq<FileRow>, best: map<Material, nat>, n: nat): seq<FileRow>
    requires n <= |file|
  {
    if n == 0 then []
    else Winners(file, best, n - 1) + if Selected(file, best, n - 1) then [file[n - 1]] else []
  }

  // ---------------------------------------------------------------- the one-shot specification

  function Materials(file: seq<FileRow>): set<Material> {
    set i | 0 <= i < |file| && file[i].material != "" :: file[i].material
  }

  /** The row of the file that decides a material, if the file has the material. */
  function Chosen(file: seq<FileRow>, material: Material): Option<FileRow> {
    var best := Best(file, |file|);
    if material in best then Some(file[best[material]]) else None
  }

  function Synced(existing: Option<CatalogPart>, row: FileRow, run: ImportRun): CatalogPart {
    if NeedsWrite(row, existing) then Written(Priced(row, existing), run) else existing.value
  }

  function Retired(part: CatalogPart, run: ImportRun): CatalogPart {
    if part.isCurrent then part.(isCurrent := false, updatedAt := run.now) else part
  }

  /** The catalogue after a commit: each material of the file synced with its chosen row, the rest retired. */
  function Imported(catalog: Catalog, file: seq<FileRow>, run: ImportRun): Catalog {
    var best := Best(file, |file|);
    map m | m in catalog.Keys + best.Keys ::
      if m in best then Synced(Lookup(catalog, m), file[best[m]], run) else Retired(catalog[m], run)
  }

  function Deactivated(catalog: Catalog, file: seq<FileRow>): set<Material> {
    set m | m in catalog && catalog[m].isCurrent && m !in Best(file, |file|)
  }

  /** The counters of a run, from the catalogue as it was before the run. */
  function Expected(catalog: Catalog, file: seq<FileRow>): Summary {
    var best := Best(file, |file|);
    var rows := Winners(file, best, |file|);
    Summary(CountFile(file, |file|), |Conflicting(file)|, |best|, CountReadRows(rows),
            CountRows(NO_SYNC_STATS, rows, catalog), |Deactivated(catalog, file)|)
  }

  // ---------------------------------------------------------------- chunks

  predicate OncePerMaterial(rows: seq<FileRow>) {
    forall i, j :: 0 <= i < j < |rows| ==> rows[i].material != rows[j].material
  }

  lemma {:induction false} WinnersOnce(file: seq<FileRow>, best: map<Material, nat>, n: nat)
    requires n <= |file|
    ensures OncePerMaterial(Winners(file, best, n))
    ensures forall k :: 0 <= k < |Winners(file, best, n)| ==>
              var m := Winners(file, best, n)[k].material;
              m in best && best[m] < n && file[best[m]] == Winners(file, best, n)[k]
  {
    if n > 0 {
      WinnersOnce(file, best, n - 1);
    }
  }

  lemma WinnersAreDistinct(file: seq<FileRow>, best: map<Material, nat>, n: nat)
    requires n <= |file|
    ensures OncePerMaterial(Winners(file, best, n))
  {
    WinnersOnce(file, best, n);
  }

  /** Reading one more selected row. */
  lemma NextWinner(file: seq<FileRow>, best: map<Material, nat>, i: nat, done: seq<FileRow>, chunk: seq<FileRow>)
    requires i < |file| && Selected(file, best, i) && Winners(file, best, i) == done + chunk
    ensures Winners(file, best, i + 1) == done + (chunk + [file[i]])
    ensures OncePerMaterial(done + (chunk + [file[i]]))
    ensures CountReadRows(Winners(file, best, i + 1)) == CountReadRow(CountReadRows(Winners(file, best, i)), file[i])
  {
    var before := Winners(file, best, i);
    assert (before + [file[i]])[..|before|] == before;
    assert before + [file[i]] == done + (chunk + [file[i]]);
    WinnersAreDistinct(file, best, i + 1);
  }

  lemma NoWinner(file: seq<FileRow>, best: map<Material, nat>, i: nat)
    requires i < |file| && !Selected(file, best, i)
    ensures Winners(file, best, i + 1) == Winners(file, best, i)
  {
  }

  lemma OneMoreScanned(file: seq<FileRow>, i: nat)
    requires i < |file|
    ensures Best(file, i + 1) == Keep(Best(file, i), file, i)
    ensures CountFile(file, i + 1) == CountFileRow(CountFile(file, i), file[i], Kept(file, Best(file, i), file[i].material))
  {
  }

  lemma {:induction false} EverySelectedIsWinner(file: seq<FileRow>, best: map<Material, nat>, n: nat, i: nat)
    requires i < n <= |file| && Selected(file, best, i)
    ensures file[i] in Winners(file, best, n)
  {
    if i < n - 1 {
      EverySelectedIsWinner(file, best, n - 1, i);
    }
  }

  /** Counting a chunk against a catalogue that already holds earlier writes gives the same result. */
  lemma {:induction false} CountIgnoresOtherWrites(s: SyncStats, rows: seq<FileRow>, catalog: Catalog, writes: Catalog)
    requires forall k :: 0 <= k < |rows| ==> rows[k].material !in writes
    ensures CountRows(s, rows, catalog + writes) == CountRows(s, rows, catalog)
  {
    if rows != [] {
      CountIgnoresOtherWrites(s, rows[..|rows| - 1], catalog, writes);
    }
  }

  lemma {:induction false} WritesIgnoreOtherWrites(rows: seq<FileRow>, catalog: Catalog, writes: Catalog, run: ImportRun)
    requires forall k :: 0 <= k < |rows| ==> rows[k].material !in writes
    ensures Writes(rows, catalog + writes, run) == Writes(rows, catalog, run)
  {
    if rows != [] {
      WritesIgnoreOtherWrites(rows[..|rows| - 1], catalog, writes, run);
    }
  }

  lemma {:induction false} CountChunks(s: SyncStats, a: seq<FileRow>, b: seq<FileRow>, catalog: Catalog)
    ensures CountRows(s, a + b, catalog) == CountRows(CountRows(s, a, catalog), b, catalog)
  {
    if b == [] {
      assert a + b == a;
    } else {
      CountChunks(s, a, b[..|b| - 1], catalog);
      assert (a + b)[..|a + b| - 1] == a + b[..|b| - 1];
    }
  }

  lemma {:induction false} WriteChunks(a: seq<FileRow>, b: seq<FileRow>, catalog: Catalog, run: ImportRun)
    ensures Writes(a + b, catalog, run) == Writes(a, catalog, run) + Writes(b, catalog, run)
  {
    if b == [] {
      assert a + b == a;
    } else {
      WriteChunks(a, b[..|b| - 1], catalog, run);
      assert (a + b)[..|a + b| - 1] == a + b[..|b| - 1];
      var last := b[|b| - 1];
      assert (a + b)[|a + b| - 1] == last;
      var w := Written(Priced(last, Lookup(catalog, last.material)), run);
      var x, y := Writes(a, catalog, run), Writes(b[..|b| - 1], catalog, run);
      assert (x + y)[last.material := w] == x + y[last.material := w];
    }
  }

  lemma {:induction false} WritesComeFromRows(rows: seq<FileRow>, catalog: Catalog, run: ImportRun, material: Material)
    requires forall k :: 0 <= k < |rows| ==> rows[k].material != material
    ensures material !in Writes(rows, catalog, run)
  {
    if rows != [] {
      WritesComeFromRows(rows[..|rows| - 1], catalog, run, material);
    }
  }

  lemma SecondPartIsUnwritten(a: seq<FileRow>, b: seq<FileRow>, catalog: Catalog, run: ImportRun, k: nat)
    requires OncePerMaterial(a + b) && k < |b|
    ensures b[k].material !in Writes(a, catalog, run)
  {
    forall i | 0 <= i < |a| ensures a[i].material != b[k].material {
      assert (a + b)[i].material != (a + b)[|a| + k].material;
    }
    WritesComeFromRows(a, catalog, run, b[k].material);
  }

  lemma SecondPartUnwritten(a: seq<FileRow>, b: seq<FileRow>, catalog: Catalog, run: ImportRun)
    requires OncePerMaterial(a + b)
    ensures forall k :: 0 <= k < |b| ==> b[k].material !in Writes(a, catalog, run)
  {
    forall k | 0 <= k < |b| ensures b[k].material !in Writes(a, catalog, run) {
      SecondPartIsUnwritten(a, b, catalog, run, k);
    }
  }

  lemma FlushTwiceCounts(a: seq<FileRow>, b: seq<FileRow>, catalog: Catalog, run: ImportRun)
    requires OncePerMaterial(a + b)
    ensures CountRows(CountRows(NO_SYNC_STATS, a, catalog), b, catalog + Writes(a, catalog, run))
            == CountRows(NO_SYNC_STATS, a + b, catalog)
    ensures CountRows(CountRows(NO_SYNC_STATS, a, catalog), b, catalog) == CountRows(NO_SYNC_STATS, a + b, catalog)
  {
    SecondPartUnwritten(a, b, catalog, run);
    CountIgnoresOtherWrites(CountRows(NO_SYNC_STATS, a, catalog), b, catalog, Writes(a, catalog, run));
    CountChunks(NO_SYNC_STATS, a, b, catalog);
  }

  lemma FlushTwiceWrites(a: seq<FileRow>, b: seq<FileRow>, catalog: Catalog, run: ImportRun)
    requires OncePerMaterial(a + b)
    ensures catalog + Writes(a, catalog, run) + Writes(b, catalog + Writes(a, catalog, run), run)
            == catalog + Writes(a + b, catalog, run)
  {
    SecondPartUnwritten(a, b, catalog, run);
    WritesIgnoreOtherWrites(b, catalog, Writes(a, catalog, run), run);
    WriteChunks(a, b, catalog, run);
  }

  /** Flushing b after a equals flushing both at once. */
  lemma FlushTwice(a: seq<FileRow>, b: seq<FileRow>, catalog: Catalog, run: ImportRun)
    requires OncePerMaterial(a + b)
    ensures CountRows(CountRows(NO_SYNC_STATS, a, catalog), b, catalog + Writes(a, catalog, run))
            == CountRows(NO_SYNC_STATS, a + b, catalog)
    ensures CountRows(CountRows(NO_SYNC_STATS, a, catalog), b, catalog) == CountRows(NO_SYNC_STATS, a + b, catalog)
    ensures catalog + Writes(a, catalog, run) + Writes(b, catalog + Writes(a, catalog, run), run)
            == catalog + Writes(a + b, catalog, run)
  {
    FlushTwiceCounts(a, b, catalog, run);
    FlushTwiceWrites(a, b, catalog, run);
  }

  /** What is written for one material. */
  lemma {:induction false} WriteOfRow(rows: seq<FileRow>, catalog: Catalog, run: ImportRun, k: nat)
    requires k < |rows| && OncePerMaterial(rows)
    ensures var existing := Lookup(catalog, rows[k].material);
            var w := Writes(rows, catalog, run);
            && (rows[k].material in w <==> NeedsWrite(rows[k], existing))
            && (rows[k].material in w ==> w[rows[k].material] == Written(Priced(rows[k], existing), run))
  {
    var shorter := rows[..|rows| - 1];
    if k < |shorter| {
      WriteOfRow(shorter, catalog, run, k);
    } else {
      WritesComeFromRows(shorter, catalog, run, rows[k].material);
    }
  }

  /** Each material of the file ends as its chosen row says, and no other material is written. */
  lemma WritesOfWinners(catalog: Catalog, file: seq<FileRow>, run: ImportRun, material: Material)
    ensures var best := Best(file, |file|);
            var w := Writes(Winners(file, best, |file|), catalog, run);
            var existing := Lookup(catalog, material);
            if material in best && NeedsWrite(file[best[material]], existing)
            then material in w && w[material] == Written(Priced(file[best[material]], existing), run)
            else material !in w
  {
    var best := Best(file, |file|);
    var rows := Winners(file, best, |file|);
    WinnersOnce(file, best, |file|);
    if material in best {
      assert Selected(file, best, best[material]);
      EverySelectedIsWinner(file, best, |file|, best[material]);
      var k :| 0 <= k < |rows| && rows[k] == file[best[material]];
      WriteOfRow(rows, catalog, run, k);
    } else {
      WritesComeFromRows(rows, catalog, run, material);
    }
  }

  /** A catalogue in which exactly the chosen rows were synced. */
  ghost predicate WinnersSynced(catalog: Catalog, written: Catalog, best: map<Material, nat>, file: seq<FileRow>, run: ImportRun)
    requires forall m :: m in best ==> best[m] < |file|
  {
    && written.Keys == catalog.Keys + best.Keys
    && (forall m :: m in best ==> written[m] == Synced(Lookup(catalog, m), file[best[m]], run))
    && (forall m :: m in written && m !in best ==> written[m] == catalog[m])
  }

  lemma WritingSyncsWinners(catalog: Catalog, file: seq<FileRow>, run: ImportRun)
    ensures var best := Best(file, |file|);
            WinnersSynced(catalog, catalog + Writes(Winners(file, best, |file|), catalog, run), best, file, run)
  {
    var best := Best(file, |file|);
    var written := catalog + Writes(Winners(file, best, |file|), catalog, run);
    forall m ensures m in written <==> m in catalog.Keys + best.Keys {
      WritesOfWinners(catalog, file, run, m);
    }
    forall m | m in best ensures written[m] == Synced(Lookup(catalog, m), file[best[m]], run) {
      WritesOfWinners(catalog, file, run, m);
    }
    forall m | m in written && m !in best ensures written[m] == catalog[m] {
      WritesOfWinners(catalog, file, run, m);
    }
  }

  /** Rows that are not in the file leave the current set. */
  function OthersRetired(written: Catalog, best: map<Material, nat>, run: ImportRun): Catalog {
    map m | m in written :: if m in best then written[m] else Retired(written[m], run)
  }

  lemma RetiringStoresOne(catalog: Catalog, written: Catalog, best: map<Material, nat>, file: seq<FileRow>, run: ImportRun, m: Material)
    requires best == Best(file, |file|) && WinnersSynced(catalog, written, best, file, run)
    ensures var retired, imported := OthersRetired(written, best, run), Imported(catalog, file, run);
      (m in retired <==> m in imported) && (m in retired ==> retired[m] == imported[m])
  {
    assert m in written <==> m in catalog || m in best;
    if m in written && m !in best {
      assert written[m] == catalog[m];
    }
  }

  lemma SameCatalog(a: Catalog, b: Catalog)
    requires forall m :: (m in a <==> m in b) && (m in a ==> a[m] == b[m])
    ensures a == b
  {
  }

  lemma RetiringStores(catalog: Catalog, written: Catalog, best: map<Material, nat>, file: seq<FileRow>, run: ImportRun)
    requires best == Best(file, |file|) && WinnersSynced(catalog, written, best, file, run)
    ensures OthersRetired(written, best, run) == Imported(catalog, file, run)
  {
    var retired, imported := OthersRetired(written, best, run), Imported(catalog, file, run);
    forall m ensures (m in retired <==> m in imported) && (m in retired ==> retired[m] == imported[m]) {
      RetiringStoresOne(catalog, written, best, file, run, m);
    }
    SameCatalog(retired, imported);
  }

  lemma RetiringCounts(catalog: Catalog, written: Catalog, best: map<Material, nat>, file: seq<FileRow>, run: ImportRun)
    requires best == Best(file, |file|) && WinnersSynced(catalog, written, best, file, run)
    ensures (set m | m in written && written[m].isCurrent && m !in best) == Deactivated(catalog, file)
  {
    forall m ensures (m in written && written[m].isCurrent && m !in best) <==> m in Deactivated(catalog, file) {
      if m !in best {
        assert m in written <==> m in catalog;
      }
    }
  }

  /** Retiring the other rows completes the one-shot catalogue, and counts the same rows as before the run. */
  lemma RetiringCompletes(catalog: Catalog, written: Catalog, file: seq<FileRow>, run: ImportRun)
    requires WinnersSynced(catalog, written, Best(file, |file|), file, run)
    ensures var best := Best(file, |file|);
            && OthersRetired(written, best, run) == Imported(catalog, file, run)
            && (set m | m in written && written[m].isCurrent && m !in best) == Deactivated(catalog, file)
  {
    RetiringStores(catalog, written, Best(file, |file|), file, run);
    RetiringCounts(catalog, written, Best(file, |file|), file, run);
  }

  // ---------------------------------------------------------------- the importer

  /** The stored catalogue and the counters of the current run. */
  class CatalogStore {
    var catalog: Catalog
    var fileStats: FileStats
    var rowStats: RowStats
    var syncStats: SyncStats

    constructor (catalog: Catalog)
      ensures this.catalog == catalog
    {
      this.catalog := catalog;
      fileStats, rowStats, syncStats := NO_FILE_STATS, NO_ROW_STATS, NO_SYNC_STATS;
    }

    /** One row of the first pass. */
    method ScanRow(file: seq<FileRow>, i: nat, best: map<Material, nat>) returns (kept: map<Material, nat>)
      requires i < |file|
      requires forall m :: m in best ==> best[m] < |file|
      modifies this`fileStats
      ensures kept == Keep(best, file, i)
      ensures fileStats == CountFileRow(old(fileStats), file[i], Kept(file, best, file[i].material))
    {
      var row := file[i];
      kept := best;
      fileStats := fileStats.(scanned := fileStats.scanned + 1);
      if row.material == "" {
        fileStats := fileStats.(skippedEmpty := fileStats.skippedEmpty + 1);
        return;
      }
      if row.wholesaleInvalid {
        fileStats := fileStats.(invalid := fileStats.invalid + 1);
      } else if row.wholesale.Some? && row.wholesale.value < 0 {
        fileStats := fileStats.(negative := fileStats.negative + 1);
      }
      if row.material !in best {
        kept := best[row.material := i];
        return;
      }
      fileStats := fileStats.(duplicates := fileStats.duplicates + 1);
      if Score(row) > Score(file[best[row.material]]) {
        kept := best[row.material := i];
        fileStats := fileStats.(priceResolved := fileStats.priceResolved + 1);
      }
    }

    method SelectBestRows(file: seq<FileRow>) returns (best: map<Material, nat>)
      modifies this`fileStats
      ensures best == Best(file, |file|)
      ensures fileStats == CountFile(file, |file|)
    {
      fileStats := NO_FILE_STATS;
      best := map[];
      var i := 0;
      while i < |file|
        invariant 0 <= i <= |file|
        invariant best == Best(file, i)
        invariant fileStats == CountFile(file, i)
      {
        OneMoreScanned(file, i);
        best := ScanRow(file, i, best);
        i := i + 1;
      }
    }

    /** One row of a chunk against the catalogue as it was read for the chunk. */
    method FlushRow(row: FileRow, existing: Catalog, toWrite: Catalog, run: ImportRun) returns (updated: Catalog)
      modifies this`syncStats
      ensures syncStats == CountRow(old(syncStats), row, Lookup(existing, row.material))
      ensures var found := Lookup(existing, row.material);
        updated == if NeedsWrite(row, found) then toWrite[row.material := Written(Priced(row, found), run)] else toWrite
    {
      updated := toWrite;
      var found := Lookup(existing, row.material);
      var (wholesale, source) := ChooseWholesale(row, found);
      match source {
        case NewFile => syncStats := syncStats.(newFile := syncStats.newFile + 1);
        case PreviousCatalog => syncStats := syncStats.(previousRetained := syncStats.previousRetained + 1);
        case Missing => syncStats := syncStats.(noUsable := syncStats.noUsable + 1);
      }
      var priced := row.(wholesale := wholesale);
      if found.None? {
        updated := updated[row.material := Written(priced, run)];
        syncStats := syncStats.(created := syncStats.created + 1);
      } else if Differs(found.value, priced) || !found.value.isCurrent {
        if (found.value.wholesale.None? || found.value.wholesale.value == 0) && Positive(wholesale) {
          syncStats := syncStats.(repaired := syncStats.repaired + 1);
        }
        updated := updated[row.material := Written(priced, run)];
        syncStats := syncStats.(updated := syncStats.updated + 1);
        if !found.value.isCurrent {
          syncStats := syncStats.(reactivated := syncStats.reactivated + 1);
        }
      } else {
        syncStats := syncStats.(skipped := syncStats.skipped + 1);
      }
    }

    method Flush(chunk: seq<FileRow>, commit: bool, run: ImportRun)
      modifies this`catalog, this`syncStats
      ensures syncStats == CountRows(old(syncStats), chunk, old(catalog))
      ensures catalog == if commit then old(catalog) + Writes(chunk, old(catalog), run) else old(catalog)
    {
      var existing := catalog;
      var toWrite: Catalog := map[];
      var i := 0;
      while i < |chunk|
        invariant 0 <= i <= |chunk|
        invariant catalog == old(catalog)
        invariant syncStats == CountRows(old(syncStats), chunk[..i], existing)
        invariant toWrite == Writes(chunk[..i], existing, run)
      {
        assert chunk[..i + 1][..i] == chunk[..i];
        toWrite := FlushRow(chunk[i], existing, toWrite, run);
        i := i + 1;
      }
      assert chunk[..i] == chunk;
      if commit {
        catalog := catalog + toWrite;
      }
    }

    /** How far the second pass has come: `done` rows are flushed. */
    ghost predicate Flushed(before: Catalog, done: seq<FileRow>, commit: bool, run: ImportRun)
      reads this
    {
      && syncStats == CountRows(NO_SYNC_STATS, done, before)
      && catalog == if commit then before + Writes(done, before, run) else before
    }

    /** Flushes a chunk on top of the rows already done. */
    method FlushNext(ghost before: Catalog, ghost done: seq<FileRow>, chunk: seq<FileRow>, commit: bool, run: ImportRun)
      requires Flushed(before, done, commit, run) && OncePerMaterial(done + chunk)
      modifies this`catalog, this`syncStats
      ensures Flushed(before, done + chunk, commit, run)
    {
      FlushTwice(done, chunk, before, run);
      Flush(chunk, commit, run);
    }

    /** Counts a selected row and puts it into the chunk, which is flushed when it is full. */
    method TakeRow(ghost before: Catalog, ghost done: seq<FileRow>, chunk: seq<FileRow>, row: FileRow,
                   commit: bool, chunkSize: nat, run: ImportRun)
      returns (rest: seq<FileRow>, ghost flushed: seq<FileRow>)
      requires Flushed(before, done, commit, run) && OncePerMaterial(done + (chunk + [row]))
      modifies this`catalog, this`rowStats, this`syncStats
      ensures rowStats == CountReadRow(old(rowStats), row)
      ensures Flushed(before, flushed, commit, run) && flushed + rest == done + (chunk + [row])
    {
      rowStats := CountReadRow(rowStats, row);
      rest, flushed := chunk + [row], done;
      if |rest| >= chunkSize {
        FlushNext(before, done, rest, commit, run);
        rest, flushed := [], done + rest;
      }
    }

    method FlushRest(ghost before: Catalog, ghost done: seq<FileRow>, chunk: seq<FileRow>, commit: bool, run: ImportRun)
      requires Flushed(before, done, commit, run) && OncePerMaterial(done + chunk)
      modifies this`catalog, this`syncStats
      ensures Flushed(before, done + chunk, commit, run)
    {
      if chunk != [] {
        FlushNext(before, done, chunk, commit, run);
      } else {
        assert done + chunk == done;
      }
    }

    /** The second pass over the file; `chunkSize` bounds how many rows are flushed together. */
    method SyncWinners(file: seq<FileRow>, best: map<Material, nat>, commit: bool, chunkSize: nat, run: ImportRun)
      modifies this`catalog, this`rowStats, this`syncStats
      ensures rowStats == CountReadRows(Winners(file, best, |file|))
      ensures Flushed(old(catalog), Winners(file, best, |file|), commit, run)
    {
      rowStats, syncStats := NO_ROW_STATS, NO_SYNC_STATS;
      var chunk: seq<FileRow> := [];
      ghost var done: seq<FileRow> := [];
      var i := 0;
      while i < |file|
        invariant 0 <= i <= |file|
        invariant InProgress(old(catalog), file, best, i, done, chunk, commit, run)
      {
        chunk, done := SyncRow(old(catalog), file, best, i, done, chunk, commit, chunkSize, run);
        i := i + 1;
      }
      WinnersAreDistinct(file, best, |file|);
      FlushRest(old(catalog), done, chunk, commit, run);
    }

    /** The winners among the first n rows are flushed or wait in the chunk. */
    ghost predicate InProgress(before: Catalog, file: seq<FileRow>, best: map<Material, nat>, n: nat,
                               done: seq<FileRow>, chunk: seq<FileRow>, commit: bool, run: ImportRun)
      requires n <= |file|
      reads this
    {
      && Winners(file, best, n) == done + chunk
      && rowStats == CountReadRows(Winners(file, best, n))
      && Flushed(before, done, commit, run)
    }

    method SyncRow(ghost before: Catalog, file: seq<FileRow>, best: map<Material, nat>, i: nat, ghost done: seq<FileRow>,
                   chunk: seq<FileRow>, commit: bool, chunkSize: nat, run: ImportRun)
      returns (rest: seq<FileRow>, ghost flushed: seq<FileRow>)
      requires i < |file| && InProgress(before, file, best, i, done, chunk, commit, run)
      modifies this`catalog, this`rowStats, this`syncStats
      ensures InProgress(before, file, best, i + 1, flushed, rest, commit, run)
    {
      if Selected(file, best, i) {
        NextWinner(file, best, i, done, chunk);
        rest, flushed := TakeRow(before, done, chunk, file[i], commit, chunkSize, run);
      } else {
        NoWinner(file, best, i);
        rest, flushed := chunk, done;
      }
    }

    /** A dry run or a commit of one file; a commit of a file with unusable prices is refused. */
    method ImportCatalog(file: seq<FileRow>, commit: bool, chunkSize: nat, run: ImportRun)
      returns (result: Result<Summary, string>)
      modifies this
      ensures result.Err? <==> commit && Blocked(CountFile(file, |file|))
      ensures result.Ok? ==> result.value == Expected(old(catalog), file)
      ensures catalog == if commit && result.Ok? then Imported(old(catalog), file, run) else old(catalog)
    {
      var best := SelectBestRows(file);
      if commit && Blocked(fileStats) {
        return Err("unusable wholesale prices");
      }
      var deactivated := set m | m in catalog && catalog[m].isCurrent && m !in best;
      SyncWinners(file, best, commit, chunkSize, run);
      if commit {
        WritingSyncsWinners(old(catalog), file, run);
        RetiringCompletes(old(catalog), catalog, file, run);
        deactivated := set m | m in catalog && catalog[m].isCurrent && m !in best;
        catalog := OthersRetired(catalog, best, run);
      }
      result := Ok(Summary(fileStats, |Conflicting(file)|, |best|, rowStats, syncStats, |deactivated|));
    }
  }
}
