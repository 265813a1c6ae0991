/**
 The check / apply workflow of a price list: batches, the catalogue fingerprint, and every other
 writer of the catalogue.

 Hashing is taken to be injective, so a digest of a file is the file and a digest of the
 fingerprint payload is the payload. `seen`, `compared`, `comparedFile`, `checks` and `applies`
 are bookkeeping of the model: what a check read, and how often a batch was checked and applied. Any
 number of checks may be running at once, on one batch or on several.
 */
module ImportWorkflow {
  import opened Basics
  import opened BrpImporter

  type BatchId = nat
  type CheckId = nat
  type File = seq<FileRow>

  datatype Entry = Entry(pk: nat, part: CatalogPart)

  type Table = map<Material, Entry>

  datatype Fingerprint = Fingerprint(count: nat, maxPk: Option<nat>, touched: Option<nat>)

  datatype Status = Uploaded | Checked | CheckFailed | Applied | ApplyFailed

  datatype Batch = Batch(
    status: Status, digest: File, fingerprint: Option<Fingerprint>, preview: Option<Summary>, applySummary: Option<Summary>,
    seen: Table, compared: Table, comparedFile: File, checks: nat, applies: nat)

  /** What a dry run found, of which file and on which catalogue. */
  datatype Comparison = Comparison(summary: Summary, table: Table, file: File)

  /** A running check: it has read the fingerprint, then compares the file, then saves its verdict. */
  datatype Check = Check(batch: BatchId, fingerprint: Fingerprint, seen: Table, comparison: Option<Comparison>)

  datatype World = World(
    table: Table, nextPk: nat, clock: nat,
    files: map<BatchId, File>, batches: map<BatchId, Batch>, running: map<CheckId, Check>)

  const NO_WORLD := World(map[], 1, 0, map[], map[], map[])

  // ---------------------------------------------------------------- the catalogue table

  function View(table: Table): Catalog {
    map m | m in table :: table[m].part
  }

  /** Largest primary key below n. */
  function MaxPk(table: Table, n: nat): Option<nat> {
    if n == 0 then None
    else if exists m | m in table :: table[m].pk == n - 1 then Some(n - 1)
    else MaxPk(table, n - 1)
  }

  /** Largest update time up to t. */
  function LatestUpdate(table: Table, t: nat): Option<nat> {
    if exists m | m in table :: table[m].part.updatedAt == t then Some(t)
    else if t == 0 then None
    else LatestUpdate(table, t - 1)
  }

  function TakeFingerprint(w: World): Fingerprint {
    Fingerprint(|w.table|, MaxPk(w.table, w.nextPk), LatestUpdate(w.table, w.clock))
  }

  /** The table after a commit; new materials get keys that were never used. */
  function Save(table: Table, after: Catalog, file: File, nextPk: nat): Table {
    map m | m in after ::
      if m in table then table[m].(part := after[m])
      else Entry(nextPk + (if m in Best(file, |file|) then Best(file, |file|)[m] else 0), after[m])
  }

  // ---------------------------------------------------------------- the steps

  datatype Refusal = NotChecked | FileChanged | CatalogueChanged | UnusablePrices

  function Upload(w: World, id: BatchId, file: File): World {
    if id in w.batches then w else
    w.(files := w.files[id := file],
       batches := w.batches[id := Batch(Uploaded, file, None, None, None, map[], map[], [], 0, 0)])
  }

  function BeginCheck(w: World, check: CheckId, id: BatchId): World {
    if id in w.batches && check !in w.running
    then w.(running := w.running[check := Check(id, TakeFingerprint(w), w.table, None)])
    else w
  }

  /** The dry run of a check against the catalogue as it is by now. */
  function CompareCheck(w: World, check: CheckId): World {
    if check in w.running && w.running[check].comparison.None? && w.running[check].batch in w.files
    then
      var file := w.files[w.running[check].batch];
      w.(running := w.running[check := w.running[check].(comparison := Some(Comparison(Expected(View(w.table), file), w.table, file)))])
    else w
  }

  /** The verdict of a check; a file with unusable prices is shown but cannot be applied. */
  function CheckedBatch(before: Batch, check: Check): Batch
    requires check.comparison.Some?
  {
    var c := check.comparison.value;
    var batch := before.(
      fingerprint := Some(check.fingerprint), preview := Some(c.summary),
      seen := check.seen, compared := c.table, comparedFile := c.file);
    if Blocked(c.summary.file) then batch.(status := CheckFailed)
    else batch.(status := Checked, checks := batch.checks + 1)
  }

  predicate HasVerdict(w: World, check: CheckId) {
    check in w.running && w.running[check].comparison.Some? && w.running[check].batch in w.batches
  }

  function SaveCheck(w: World, check: CheckId): World {
    if HasVerdict(w, check)
    then
      var id := w.running[check].batch;
      w.(batches := w.batches[id := CheckedBatch(w.batches[id], w.running[check])], running := w.running - {check})
    else w
  }

  /** A check that ends with an error keeps the fingerprint and summary of an earlier check. */
  function FailCheck(w: World, check: CheckId): World {
    if check in w.running && w.running[check].batch in w.batches
    then
      var id := w.running[check].batch;
      w.(batches := w.batches[id := w.batches[id].(status := CheckFailed)], running := w.running - {check})
    else w
  }

  function ApplyRefusal(w: World, id: BatchId): Option<Refusal>
    requires id in w.batches && id in w.files
  {
    var batch := w.batches[id];
    if !batch.status.Checked? then Some(NotChecked)
    else if w.files[id] != batch.digest then Some(FileChanged)
    else if batch.fingerprint != Some(TakeFingerprint(w)) then Some(CatalogueChanged)
    else if Blocked(CountFile(w.files[id], |w.files[id]|)) then Some(UnusablePrices)
    else None
  }

  /** The catalogue after a commit, stored at the time of the run. */
  function StoreCatalogue(w: World, after: Catalog, file: File, run: ImportRun): World
    requires run.now >= 0
  {
    w.(table := Save(w.table, after, file, w.nextPk), nextPk := w.nextPk + |file|, clock := run.now)
  }

  function RecordApplied(w: World, id: BatchId, summary: Summary): World
    requires id in w.batches
  {
    var batch := w.batches[id];
    w.(batches := w.batches[
         id := batch.(status := Applied, applySummary := Some(summary), applies := batch.applies + 1)])
  }

  /** What the apply transaction writes once nothing refuses it. */
  function Commit(w: World, id: BatchId, run: ImportRun): World
    requires id in w.batches && id in w.files && run.now >= 0
  {
    var file, before := w.files[id], View(w.table);
    RecordApplied(StoreCatalogue(w, Imported(before, file, run), file, run), id, Expected(before, file))
  }

  /** The apply transaction; a refused one leaves everything as it was. */
  function Apply(w: World, id: BatchId, run: ImportRun): World
    requires run.now >= 0
  {
    if id !in w.batches || id !in w.files || ApplyRefusal(w, id).Some? then w else Commit(w, id, run)
  }

  /** The separate transaction that marks a failed apply, whenever it comes. */
  function MarkApplyFailed(w: World, id: BatchId): World {
    if id in w.batches then w.(batches := w.batches[id := w.batches[id].(status := ApplyFailed)]) else w
  }

  // ---------------------------------------------------------------- the service

  /** The stored batches and catalogue, changed by one transaction at a time. */
  class CatalogWorkflow {
    var world: World

    constructor ()
      ensures world == NO_WORLD
    {
      world := NO_WORLD;
    }

    /** A check begins: the fingerprint is read before the file is opened. */
    method ReadFingerprint(check: CheckId, id: BatchId)
      modifies this
      ensures world == BeginCheck(old(world), check, id)
    {
      if id in world.batches && check !in world.running {
        var fingerprint := TakeFingerprint(world);
        world := world.(running := world.running[check := Check(id, fingerprint, world.table, None)]);
      }
    }

    /** A dry run of the importer. */
    method CompareFile(check: CheckId, chunkSize: nat)
      requires chunkSize > 0
      modifies this
      ensures world == CompareCheck(old(world), check)
    {
      if check !in world.running || world.running[check].comparison.Some? || world.running[check].batch !in world.files {
        return;
      }
      var file := world.files[world.running[check].batch];
      var store := new CatalogStore(View(world.table));
      var dryRun := store.ImportCatalog(file, false, chunkSize, ImportRun("", "", 0));
      var comparison := Comparison(dryRun.value, world.table, file);
      world := world.(running := world.running[check := world.running[check].(comparison := Some(comparison))]);
    }

    /** The verdict is saved over whatever the batch held by then. */
    method SaveVerdict(check: CheckId)
      modifies this
      ensures world == SaveCheck(old(world), check)
    {
      if !HasVerdict(world, check) {
        return;
      }
      var done := world.running[check];
      var summary := done.comparison.value.summary;
      var batch := world.batches[done.batch];
      batch := batch.(preview := Some(summary), fingerprint := Some(done.fingerprint), seen := done.seen);
      batch := batch.(compared := done.comparison.value.table, comparedFile := done.comparison.value.file);
      if summary.file.invalid > 0 || summary.file.negative > 0 {
        batch := batch.(status := CheckFailed);
      } else {
        batch := batch.(status := Checked, checks := batch.checks + 1);
      }
      world := world.(batches := world.batches[done.batch := batch], running := world.running - {check});
    }

    /** Applies a checked batch after proving again that file and catalogue are those of the check. */
    method ApplyBatch(id: BatchId, chunkSize: nat, run: ImportRun) returns (refused: Option<Refusal>)
      requires chunkSize > 0 && run.now >= 0
      requires id in world.batches && id in world.files
      modifies this
      ensures refused == ApplyRefusal(old(world), id)
      ensures world == Apply(old(world), id, run)
    {
      var batch := world.batches[id];
      if !batch.status.Checked? {
        return Some(NotChecked);
      }
      var file := world.files[id];
      if file != batch.digest {
        return Some(FileChanged);
      }
      if Some(TakeFingerprint(world)) != batch.fingerprint {
        return Some(CatalogueChanged);
      }
      var committed := CommitFile(id, chunkSize, run);
      refused := if committed then None else Some(UnusablePrices);
    }

    method CommitFile(id: BatchId, chunkSize: nat, run: ImportRun) returns (committed: bool)
      requires chunkSize > 0 && run.now >= 0
      requires id in world.batches && id in world.files
      modifies this
      ensures committed <==> !Blocked(CountFile(old(world).files[id], |old(world).files[id]|))
      ensures world == if committed then Commit(old(world), id, run) else old(world)
    {
      var file := world.files[id];
      var store := new CatalogStore(View(world.table));
      var result := store.ImportCatalog(file, true, chunkSize, run);
      if result.Err? {
        return false;
      }
      world := StoreCatalogue(world, store.catalog, file, run);
      world := RecordApplied(world, id, result.value);
      committed := true;
    }

    method RecordApplyFailure(id: BatchId)
      modifies this
      ensures world == MarkApplyFailed(old(world), id)
    {
      if id in world.batches {
        world := world.(batches := world.batches[id := world.batches[id].(status := ApplyFailed)]);
      }
    }
  }
}
