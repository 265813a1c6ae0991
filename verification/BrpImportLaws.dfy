/** What the one-shot specification of the BRP import guarantees, for one file and for any series of files. */
module BrpImportLaws {
  import opened Basics
  import opened BrpImporter

  // ---------------------------------------------------------------- the chosen row

  predicate IsPositive(price: Option<Price>) {
    price.Some? && price.value > 0
  }

  /** A wholesale price counts before a retail one, and only whether there is one counts. */
  predicate Beats(a: FileRow, b: FileRow) {
    || (IsPositive(a.wholesale) && !IsPositive(b.wholesale))
    || (IsPositive(a.wholesale) == IsPositive(b.wholesale) && IsPositive(a.retail) && !IsPositive(b.retail))
  }

  lemma HigherScoreBeats(a: FileRow, b: FileRow)
    ensures Score(a) > Score(b) <==> Beats(a, b)
  {
  }

  /** No row of its material among the first n beats row i, and it beats every earlier one. */
  predicate IsWinner(file: seq<FileRow>, n: nat, i: nat)
    requires i < n <= |file|
  {
    forall j | 0 <= j < n && file[j].material == file[i].material ::
      !Beats(file[j], file[i]) && (j < i ==> Beats(file[i], file[j]))
  }

  predicate Mentions(file: seq<FileRow>, n: nat, material: Material)
    requires n <= |file|
  {
    exists i | 0 <= i < n :: file[i].material == material
  }

  lemma {:induction false} ChosenAreMentioned(file: seq<FileRow>, n: nat, material: Material)
    requires n <= |file|
    ensures material in Best(file, n) <==> material != "" && Mentions(file, n, material)
  {
    if n > 0 {
      ChosenAreMentioned(file, n - 1, material);
      assert Mentions(file, n, material) <==> Mentions(file, n - 1, material) || file[n - 1].material == material;
    }
  }

  lemma {:induction false} ChosenIsFirstOfBest(file: seq<FileRow>, n: nat, material: Material)
    requires n <= |file| && material in Best(file, n)
    ensures IsWinner(file, n, Best(file, n)[material])
  {
    ChosenAreMentioned(file, n - 1, material);
    if material in Best(file, n - 1) {
      ChosenIsFirstOfBest(file, n - 1, material);
      HigherScoreBeats(file[n - 1], file[Best(file, n - 1)[material]]);
    }
  }

  lemma WinnerIsUnique(file: seq<FileRow>, i: nat, j: nat)
    requires i < |file| && j < |file| && file[i].material == file[j].material
    requires IsWinner(file, |file|, i) && IsWinner(file, |file|, j)
    ensures i == j
  {
    assert !Beats(file[i], file[j]) && !Beats(file[j], file[i]);
  }

  /** Every material of the file is decided by the first row that no other row of it beats, and by no other. */
  lemma EachMaterialTakesItsBestRow(file: seq<FileRow>, material: Material)
    ensures material in Best(file, |file|) <==> material in Materials(file)
    ensures material in Materials(file) ==>
              && IsWinner(file, |file|, Best(file, |file|)[material])
              && Chosen(file, material) == Some(file[Best(file, |file|)[material]])
    ensures Chosen(file, material).Some? <==> material in Materials(file)
    ensures forall i: nat :: i < |file| && file[i].material == material && material != "" && IsWinner(file, |file|, i) ==>
              material in Best(file, |file|) && i == Best(file, |file|)[material]
  {
    ChosenAreMentioned(file, |file|, material);
    if material in Best(file, |file|) {
      ChosenIsFirstOfBest(file, |file|, material);
      forall i: nat | i < |file| && file[i].material == material && IsWinner(file, |file|, i)
        ensures i == Best(file, |file|)[material]
      {
        WinnerIsUnique(file, i, Best(file, |file|)[material]);
      }
    }
  }

  /**
   A material is decided by a row with a wholesale price if the file has any for it, then by one with a retail
   price, then by the first.
   */
  lemma WholesaleThenRetailThenOrder(file: seq<FileRow>, k: nat)
    requires k < |file| && file[k].material != ""
    ensures var chosen, row := Chosen(file, file[k].material), file[k];
            && chosen.Some? && chosen.value.material == row.material
            && (IsPositive(row.wholesale) ==> IsPositive(chosen.value.wholesale))
            && (IsPositive(row.wholesale) == IsPositive(chosen.value.wholesale) && IsPositive(row.retail) ==>
                  IsPositive(chosen.value.retail))
    ensures var best := Best(file, |file|);
            file[k].material in best && (best[file[k].material] <= k || Beats(file[best[file[k].material]], file[k]))
  {
    var material := file[k].material;
    EachMaterialTakesItsBestRow(file, material);
    assert material in Materials(file);
    var i := Best(file, |file|)[material];
    assert IsWinner(file, |file|, i);
    assert !Beats(file[k], file[i]);
  }

  // ---------------------------------------------------------------- the catalogue after an import

  predicate PartAtTwoDecimals(part: CatalogPart) {
    AtTwoDecimals(part.retail) && AtTwoDecimals(part.wholesale)
  }

  /** Every catalogue read back from its price columns satisfies this. */
  ghost predicate StoredAtTwoDecimals(catalog: Catalog) {
    forall m :: m in catalog ==> PartAtTwoDecimals(catalog[m])
  }

  lemma StoredIsCents(price: Price)
    ensures Stored(price) % CENT == 0
    ensures Stored(price) == price <==> price % CENT == 0
    ensures price > 0 ==> (Stored(price) > 0 <==> 2 * price >= CENT)
  {
    if price >= 0 {
      var q := (price + CENT / 2) / CENT;
      assert q * CENT % CENT == 0;
    } else {
      var q := (-price + CENT / 2) / CENT;
      assert -(q * CENT) % CENT == 0;
    }
  }

  lemma StoredOptionIsCents(price: Option<Price>)
    ensures AtTwoDecimals(StoredOption(price))
    ensures StoredOption(price) == price <==> AtTwoDecimals(price)
  {
    if price.Some? {
      StoredIsCents(price.value);
    }
  }

  /** The current materials after a commit are exactly those of the file; no row is ever removed. */
  lemma CurrentSetIsTheFile(catalog: Catalog, file: seq<FileRow>, run: ImportRun)
    ensures var after := Imported(catalog, file, run);
            && (set m | m in after && after[m].isCurrent) == Materials(file)
            && catalog.Keys <= after.Keys
  {
    var after := Imported(catalog, file, run);
    forall m ensures m in after && after[m].isCurrent <==> m in Materials(file) {
      EachMaterialTakesItsBestRow(file, m);
    }
  }

  /** A material of the file carries the texts and stored prices of its chosen row; any other keeps all but its flag. */
  lemma FieldsAfterImport(catalog: Catalog, file: seq<FileRow>, run: ImportRun, m: Material)
    requires StoredAtTwoDecimals(catalog)
    ensures var after := Imported(catalog, file, run);
            match Chosen(file, m)
            case Some(row) =>
              && m in after && after[m].isCurrent
              && after[m].texts == row.texts
              && after[m].retail == StoredOption(row.retail)
              && after[m].wholesale == StoredOption(ChooseWholesale(row, Lookup(catalog, m)).0)
            case None =>
              m in catalog ==>
                && m in after && !after[m].isCurrent
                && after[m] == catalog[m].(isCurrent := false, updatedAt := after[m].updatedAt)
                && after[m].updatedAt == if catalog[m].isCurrent then run.now else catalog[m].updatedAt
  {
    if m in catalog {
      assert PartAtTwoDecimals(catalog[m]);
      StoredOptionIsCents(catalog[m].retail);
      StoredOptionIsCents(catalog[m].wholesale);
    }
  }

  lemma ImportStoresCents(catalog: Catalog, file: seq<FileRow>, run: ImportRun)
    requires StoredAtTwoDecimals(catalog)
    ensures StoredAtTwoDecimals(Imported(catalog, file, run))
  {
    var after := Imported(catalog, file, run);
    forall m | m in after ensures PartAtTwoDecimals(after[m]) {
      FieldsAfterImport(catalog, file, run, m);
      match Chosen(file, m)
      case Some(row) =>
        StoredOptionIsCents(row.retail);
        StoredOptionIsCents(ChooseWholesale(row, Lookup(catalog, m)).0);
      case None =>
        assert PartAtTwoDecimals(catalog[m]);
    }
  }

  // ---------------------------------------------------------------- counters

  lemma {:induction false} CountersPartitionRows(rows: seq<FileRow>, catalog: Catalog)
    ensures var s := CountRows(NO_SYNC_STATS, rows, catalog);
            && s.created + s.updated + s.skipped == |rows|
            && s.newFile + s.previousRetained + s.noUsable == |rows|
            && s.reactivated <= s.updated && s.repaired <= s.updated
            && CountReadRows(rows).dataRows == |rows|
  {
    if rows != [] {
      CountersPartitionRows(rows[..|rows| - 1], catalog);
    }
  }

  function DecidedBefore(best: map<Material, nat>, n: nat): set<Material> {
    set m | m in best && best[m] < n
  }

  /** Every decision is a row of the file that names its material. */
  ghost predicate Decides(file: seq<FileRow>, best: map<Material, nat>) {
    forall m :: m in best ==> best[m] < |file| && file[best[m]].material == m
  }

  lemma OneMoreDecided(file: seq<FileRow>, best: map<Material, nat>, n: nat)
    requires n < |file| && Decides(file, best)
    ensures |DecidedBefore(best, n + 1)| == |DecidedBefore(best, n)| + if Selected(file, best, n) then 1 else 0
  {
    var before, after, material := DecidedBefore(best, n), DecidedBefore(best, n + 1), file[n].material;
    if Selected(file, best, n) {
      assert after == before + {material};
      assert material !in before;
    } else {
      assert after == before;
    }
  }

  lemma WinnersWithLast(file: seq<FileRow>, best: map<Material, nat>, n: nat)
    requires 0 < n <= |file|
    ensures |Winners(file, best, n)| == |Winners(file, best, n - 1)| + if Selected(file, best, n - 1) then 1 else 0
  {
  }

  lemma {:induction false} WinnersCount(file: seq<FileRow>, best: map<Material, nat>, n: nat)
    requires n <= |file| && Decides(file, best)
    ensures |Winners(file, best, n)| == |DecidedBefore(best, n)|
  {
    if n == 0 {
      assert DecidedBefore(best, n) == {};
    } else {
      WinnersCount(file, best, n - 1);
      WinnersWithLast(file, best, n);
      OneMoreDecided(file, best, n - 1);
    }
  }

  /** One selected row for each material, and every repeated material was counted as a duplicate. */
  lemma SummaryIsConserved(catalog: Catalog, file: seq<FileRow>)
    ensures var s := Expected(catalog, file);
            && s.uniqueMaterials == |Materials(file)|
            && s.rows.dataRows == s.uniqueMaterials
            && s.sync.created + s.sync.updated + s.sync.skipped == s.uniqueMaterials
            && s.sync.newFile + s.sync.previousRetained + s.sync.noUsable == s.uniqueMaterials
            && s.file.scanned == |file|
            && s.file.scanned == s.file.skippedEmpty + s.file.duplicates + s.uniqueMaterials
  {
    var best := Best(file, |file|);
    WinnersCount(file, best, |file|);
    assert DecidedBefore(best, |file|) == best.Keys;
    forall m ensures m in best <==> m in Materials(file) {
      EachMaterialTakesItsBestRow(file, m);
    }
    assert best.Keys == Materials(file);
    CountersPartitionRows(Winners(file, best, |file|), catalog);
    FileIsConserved(file, |file|);
  }

  lemma KeepAddsAtMostOne(best: map<Material, nat>, file: seq<FileRow>, n: nat)
    requires n < |file| && forall m :: m in best ==> best[m] < |file|
    ensures |Keep(best, file, n)| == |best| + if file[n].material != "" && file[n].material !in best then 1 else 0
  {
    if file[n].material != "" && file[n].material !in best {
      assert Keep(best, file, n).Keys == best.Keys + {file[n].material};
    } else {
      assert Keep(best, file, n).Keys == best.Keys;
    }
  }

  lemma CountFileRowAdds(s: FileStats, row: FileRow, kept: Option<FileRow>)
    ensures var t := CountFileRow(s, row, kept);
            && t.scanned == s.scanned + 1
            && t.skippedEmpty + t.duplicates
               == s.skippedEmpty + s.duplicates + if row.material == "" || kept.Some? then 1 else 0
  {
  }

  lemma {:induction false} FileIsConserved(file: seq<FileRow>, n: nat)
    requires n <= |file|
    ensures var s := CountFile(file, n);
            s.scanned == n && s.scanned == s.skippedEmpty + s.duplicates + |Best(file, n)|
  {
    if n > 0 {
      FileIsConserved(file, n - 1);
      var best := Best(file, n - 1);
      KeepAddsAtMostOne(best, file, n - 1);
      CountFileRowAdds(CountFile(file, n - 1), file[n - 1], Kept(file, best, file[n - 1].material));
    }
  }

  // ---------------------------------------------------------------- importing the same file again

  /** The prices of a row survive being stored. */
  predicate Representable(row: FileRow) {
    AtTwoDecimals(row.retail) && (Positive(row.wholesale) ==> AtTwoDecimals(row.wholesale))
  }

  lemma RewrittenIffNotRepresentable(catalog: Catalog, file: seq<FileRow>, run: ImportRun, m: Material)
    requires StoredAtTwoDecimals(catalog) && Chosen(file, m).Some?
    ensures var after := Imported(catalog, file, run);
            var row := Chosen(file, m).value;
            m in after && (NeedsWrite(row, Some(after[m])) <==> !Representable(row))
  {
    FieldsAfterImport(catalog, file, run, m);
    var row := Chosen(file, m).value;
    StoredOptionIsCents(row.retail);
    StoredOptionIsCents(row.wholesale);
    if m in catalog {
      assert PartAtTwoDecimals(catalog[m]);
      StoredOptionIsCents(catalog[m].wholesale);
    }
    if Positive(ChooseWholesale(row, Lookup(catalog, m)).0) {
      StoredIsCents(ChooseWholesale(row, Lookup(catalog, m)).0.value);
    }
  }

  /** The selected row at k is already in the catalogue as it would be written. */
  predicate IdleAt(rows: seq<FileRow>, catalog: Catalog, k: nat)
    requires k < |rows|
  {
    !NeedsWrite(rows[k], Lookup(catalog, rows[k].material))
  }

  ghost predicate AllIdle(rows: seq<FileRow>, catalog: Catalog) {
    forall k: nat :: k < |rows| ==> IdleAt(rows, catalog, k)
  }

  lemma AllIdleWithLast(rows: seq<FileRow>, catalog: Catalog)
    requires rows != []
    ensures AllIdle(rows, catalog) <==> AllIdle(rows[..|rows| - 1], catalog) && IdleAt(rows, catalog, |rows| - 1)
  {
    var shorter := rows[..|rows| - 1];
    forall k: nat | k < |shorter| ensures IdleAt(rows, catalog, k) <==> IdleAt(shorter, catalog, k) {
    }
  }

  lemma {:induction false} NothingCountedIff(rows: seq<FileRow>, catalog: Catalog)
    ensures var s := CountRows(NO_SYNC_STATS, rows, catalog);
            s.created == 0 && s.updated == 0 <==> AllIdle(rows, catalog)
  {
    if rows != [] {
      NothingCountedIff(rows[..|rows| - 1], catalog);
      AllIdleWithLast(rows, catalog);
    }
  }

  /** The selected rows of the second pass are the chosen rows of the materials. */
  lemma WinnerIsChosen(file: seq<FileRow>, k: nat)
    requires k < |Winners(file, Best(file, |file|), |file|)|
    ensures var row := Winners(file, Best(file, |file|), |file|)[k];
            Chosen(file, row.material) == Some(row)
  {
    WinnersOnce(file, Best(file, |file|), |file|);
  }

  lemma ChosenIsWinner(file: seq<FileRow>, m: Material) returns (k: nat)
    requires Chosen(file, m).Some?
    ensures k < |Winners(file, Best(file, |file|), |file|)|
    ensures Winners(file, Best(file, |file|), |file|)[k] == Chosen(file, m).value
  {
    var best := Best(file, |file|);
    assert Selected(file, best, best[m]);
    EverySelectedIsWinner(file, best, |file|, best[m]);
    k :| 0 <= k < |Winners(file, best, |file|)| && Winners(file, best, |file|)[k] == file[best[m]];
  }

  /** The chosen rows of a file all have prices that survive being stored. */
  ghost predicate AllRepresentable(file: seq<FileRow>) {
    forall m :: Chosen(file, m).Some? ==> Representable(Chosen(file, m).value)
  }

  lemma WinnersIdleIff(catalog: Catalog, file: seq<FileRow>, run: ImportRun)
    requires StoredAtTwoDecimals(catalog)
    ensures var after := Imported(catalog, file, run);
            var rows := Winners(file, Best(file, |file|), |file|);
            AllIdle(rows, after) <==> AllRepresentable(file)
  {
    var after := Imported(catalog, file, run);
    var rows := Winners(file, Best(file, |file|), |file|);
    forall k: nat | k < |rows|
      ensures Chosen(file, rows[k].material) == Some(rows[k])
      ensures IdleAt(rows, after, k) <==> Representable(rows[k])
    {
      WinnerIsChosen(file, k);
      RewrittenIffNotRepresentable(catalog, file, run, rows[k].material);
    }
    if AllIdle(rows, after) {
      forall m | Chosen(file, m).Some? ensures Representable(Chosen(file, m).value) {
        var k := ChosenIsWinner(file, m);
        assert IdleAt(rows, after, k);
      }
    }
  }

  /** A second commit of the same file creates nothing, and updates nothing exactly when every chosen price is whole cents. */
  lemma SecondCommitCountsNothingIff(catalog: Catalog, file: seq<FileRow>, run: ImportRun)
    requires StoredAtTwoDecimals(catalog)
    ensures var s := Expected(Imported(catalog, file, run), file);
            && s.deactivated == 0
            && (s.sync.created == 0 && s.sync.updated == 0 <==> AllRepresentable(file))
  {
    var after := Imported(catalog, file, run);
    WinnersIdleIff(catalog, file, run);
    NothingCountedIff(Winners(file, Best(file, |file|), |file|), after);
    NothingToRetire(catalog, file, run);
  }

  lemma NothingToRetire(catalog: Catalog, file: seq<FileRow>, run: ImportRun)
    ensures Deactivated(Imported(catalog, file, run), file) == {}
  {
  }

  /** Such a second commit leaves the whole catalogue, timestamps included, as it is. */
  lemma SecondCommitWritesNothing(catalog: Catalog, file: seq<FileRow>, run: ImportRun, again: ImportRun)
    requires StoredAtTwoDecimals(catalog) && AllRepresentable(file)
    ensures var after := Imported(catalog, file, run);
            Imported(after, file, again) == after
  {
    var after := Imported(catalog, file, run);
    forall m | m in after ensures m in Imported(after, file, again) && Imported(after, file, again)[m] == after[m] {
      if Chosen(file, m).Some? {
        RewrittenIffNotRepresentable(catalog, file, run, m);
      }
    }
    assert Imported(after, file, again).Keys == after.Keys;
  }

  // ---------------------------------------------------------------- a known price is not lost

  /** A positive price too small to be stored as at least one cent. */
  predicate Vanishing(row: FileRow) {
    Positive(row.wholesale) && 2 * row.wholesale.value < CENT
  }

  /** A known positive price survives an import exactly unless the chosen row offers a vanishing one. */
  lemma PositivePriceSurvivesIff(catalog: Catalog, file: seq<FileRow>, run: ImportRun, m: Material)
    requires StoredAtTwoDecimals(catalog)
    requires m in catalog && Positive(catalog[m].wholesale)
    ensures var after := Imported(catalog, file, run);
            m in after
            && (Positive(after[m].wholesale) <==> !(Chosen(file, m).Some? && Vanishing(Chosen(file, m).value)))
  {
    FieldsAfterImport(catalog, file, run, m);
    assert PartAtTwoDecimals(catalog[m]);
    StoredIsCents(catalog[m].wholesale.value);
    if Chosen(file, m).Some? {
      StoredIsCents(ChooseWholesale(Chosen(file, m).value, Lookup(catalog, m)).0.value);
    }
  }

  datatype Delivery = Delivery(file: seq<FileRow>, run: ImportRun)

  function ImportAll(catalog: Catalog, deliveries: seq<Delivery>): Catalog
    decreases |deliveries|
  {
    if deliveries == [] then catalog
    else ImportAll(Imported(catalog, deliveries[0].file, deliveries[0].run), deliveries[1..])
  }

  predicate NoVanishingPrice(file: seq<FileRow>) {
    forall i | 0 <= i < |file| :: !Vanishing(file[i])
  }

  /** Over any series of committed imports a wholesale price once positive stays positive. */
  lemma {:induction false} PositivePriceStays(catalog: Catalog, deliveries: seq<Delivery>, m: Material)
    requires StoredAtTwoDecimals(catalog)
    requires m in catalog && Positive(catalog[m].wholesale)
    requires forall d :: d in deliveries ==> NoVanishingPrice(d.file)
    ensures m in ImportAll(catalog, deliveries) && Positive(ImportAll(catalog, deliveries)[m].wholesale)
    decreases |deliveries|
  {
    if deliveries != [] {
      var d := deliveries[0];
      assert d in deliveries;
      PositivePriceSurvivesIff(catalog, d.file, d.run, m);
      ImportStoresCents(catalog, d.file, d.run);
      PositivePriceStays(Imported(catalog, d.file, d.run), deliveries[1..], m);
    }
  }

  /** A price of four tenths of a cent replaces a known price of five dollars by zero. */
  lemma VanishingPriceErasesAKnownPrice()
    ensures var texts := Texts("", "", "", "", "");
            var known := CatalogPart(texts, None, Some(5_000_000), "", 2, "", true, 0);
            var row := FileRow("M", texts, None, Some(4_000), false, 2);
            var after := Imported(map["M" := known], [row], ImportRun("", "", 1));
            "M" in after && after["M"].wholesale == Some(0)
  {
    var texts := Texts("", "", "", "", "");
    var row := FileRow("M", texts, None, Some(4_000), false, 2);
    EachMaterialTakesItsBestRow([row], "M");
    assert [row][0].material == "M";
    assert "M" in Materials([row]);
  }
}
