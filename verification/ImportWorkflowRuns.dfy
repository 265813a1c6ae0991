/**
 Every interleaving of checks, applies and other writers of the catalogue: what a successful
 apply proves about the file and the catalogue, and where the preview can still be wrong.
 */
module ImportWorkflowRuns {
  import opened Basics
  import opened BrpImporter
  import opened ImportWorkflow

  datatype Event =
    | UploadEvent(id: BatchId, file: File)
    | BeginEvent(check: CheckId, id: BatchId)
    | CompareEvent(check: CheckId)
    | SaveEvent(check: CheckId)
    | FailCheckEvent(check: CheckId)
    | ApplyEvent(id: BatchId, run: ImportRun)
    | MarkFailedEvent(id: BatchId)
    | ReplaceFileEvent(id: BatchId, file: File)
    | PutEvent(material: Material, part: CatalogPart, now: nat)   // another writer creates or changes a row
    | DeleteEvent(material: Material)

  function Put(w: World, m: Material, part: CatalogPart, now: nat): World {
    var pk := if m in w.table then w.table[m].pk else w.nextPk;
    w.(table := w.table[m := Entry(pk, part.(updatedAt := now))], nextPk := w.nextPk + 1, clock := now)
  }

  function Step(w: World, e: Event): World {
    match e
    case UploadEvent(id, file) => Upload(w, id, file)
    case BeginEvent(check, id) => BeginCheck(w, check, id)
    case CompareEvent(check) => CompareCheck(w, check)
    case SaveEvent(check) => SaveCheck(w, check)
    case FailCheckEvent(check) => FailCheck(w, check)
    case ApplyEvent(id, run) => if run.now >= 0 then Apply(w, id, run) else w
    case MarkFailedEvent(id) => MarkApplyFailed(w, id)
    case ReplaceFileEvent(id, file) => if id in w.files then w.(files := w.files[id := file]) else w
    case PutEvent(m, part, now) => Put(w, m, part, now)
    case DeleteEvent(m) => w.(table := w.table - {m})
  }

  /** Each write of the catalogue carries a time later than all earlier ones. */
  predicate InTime(w: World, e: Event) {
    match e
    case ApplyEvent(_, run) => run.now > w.clock
    case PutEvent(_, _, now) => now > w.clock
    case _ => true
  }

  function Run(w: World, events: seq<Event>): World
    decreases |events|
  {
    if events == [] then w else Run(Step(w, events[0]), events[1..])
  }

  predicate WellTimed(w: World, events: seq<Event>)
    decreases |events|
  {
    events != [] ==> InTime(w, events[0]) && WellTimed(Step(w, events[0]), events[1..])
  }

  // ---------------------------------------------------------------- what a fingerprint says

  predicate DatedEntry(e: Entry, nextPk: nat, clock: nat) {
    e.pk < nextPk && 0 <= e.part.updatedAt <= clock
  }

  ghost predicate Dated(table: Table, nextPk: nat, clock: nat) {
    forall m :: m in table ==> DatedEntry(table[m], nextPk, clock)
  }

  /** The entry was written after every entry of the older table. */
  ghost predicate Newer(e: Entry, older: Table) {
    forall k :: k in older ==> older[k].part.updatedAt < e.part.updatedAt
  }

  predicate Same(older: Table, table: Table, m: Material)
    requires m in table
  {
    m in older && older[m] == table[m]
  }

  /** A later state of the table: each row is as it was, or was written since. */
  ghost predicate Evolved(older: Table, table: Table) {
    forall m :: m in table ==> Same(older, table, m) || Newer(table[m], older)
  }

  ghost predicate Describes(f: Fingerprint, table: Table) {
    && f.count == |table|
    && (f.touched.None? ==> table == map[])
    && (f.touched.Some? ==>
          && (exists m :: m in table && table[m].part.updatedAt == f.touched.value)
          && (forall m :: m in table ==> table[m].part.updatedAt <= f.touched.value))
  }

  lemma {:induction false} LatestUpdateIsMaximum(table: Table, t: nat)
    requires forall m :: m in table ==> 0 <= table[m].part.updatedAt <= t
    ensures var latest := LatestUpdate(table, t);
            && (latest.None? ==> table == map[])
            && (latest.Some? ==> (exists m :: m in table && table[m].part.updatedAt == latest.value)
                                 && (forall m :: m in table ==> table[m].part.updatedAt <= latest.value))
  {
    if exists m :: m in table && table[m].part.updatedAt == t {
    } else if t > 0 {
      LatestUpdateIsMaximum(table, t - 1);
    } else {
      assert forall m :: m in table ==> false;
    }
  }

  lemma TakenDescribes(w: World)
    requires Dated(w.table, w.nextPk, w.clock)
    ensures Describes(TakeFingerprint(w), w.table)
  {
    forall m | m in w.table ensures 0 <= w.table[m].part.updatedAt <= w.clock {
      assert DatedEntry(w.table[m], w.nextPk, w.clock);
    }
    LatestUpdateIsMaximum(w.table, w.clock);
  }

  lemma LatestIsNotNewer(f: Fingerprint, older: Table, e: Entry)
    requires Describes(f, older) && f.touched.Some? && e.part.updatedAt <= f.touched.value
    ensures !Newer(e, older)
  {
    var k :| k in older && older[k].part.updatedAt == f.touched.value;
    assert e.part.updatedAt <= older[k].part.updatedAt;
  }

  /** Equal count and equal latest write leave no room for a created, changed or deleted row. */
  lemma SameFingerprintSameTable(f: Fingerprint, g: Fingerprint, older: Table, table: Table)
    requires Describes(f, older) && Describes(g, table) && Evolved(older, table)
    requires f.count == g.count && f.touched == g.touched
    ensures older == table
  {
    forall m | m in table ensures Same(older, table, m) {
      LatestIsNotNewer(f, older, table[m]);
    }
    assert table.Keys <= older.Keys by {
      forall m | m in table ensures m in older {
        assert Same(older, table, m);
      }
    }
    SubsetOfSameSize(table.Keys, older.Keys);
    forall m | m in older ensures m in table && table[m] == older[m] {
      assert m in table.Keys;
      assert Same(older, table, m);
    }
  }

  lemma SubsetOfSameSize<T>(a: set<T>, b: set<T>)
    requires a <= b && |a| == |b|
    ensures a == b
  {
    assert |b - a| == |b| - |a|;
  }

  lemma DescriptionIsUnique(f: Fingerprint, g: Fingerprint, table: Table)
    requires Describes(f, table) && Describes(g, table)
    ensures f.count == g.count && f.touched == g.touched
  {
  }

  lemma {:induction false} MaxPkIsMaximum(table: Table, n: nat)
    requires forall m :: m in table ==> table[m].pk < n
    ensures var top := MaxPk(table, n);
            && (top.None? ==> table == map[])
            && (top.Some? ==> (exists m :: m in table && table[m].pk == top.value)
                              && (forall m :: m in table ==> table[m].pk <= top.value))
  {
    if n == 0 {
      assert forall m :: m in table ==> false;
    } else if !exists m :: m in table && table[m].pk == n - 1 {
      MaxPkIsMaximum(table, n - 1);
    }
  }

  // ---------------------------------------------------------------- the invariant

  ghost predicate ReadingSound(f: Fingerprint, seen: Table, w: World) {
    && Describes(f, seen) && f.maxPk == MaxPk(seen, w.nextPk)
    && Dated(seen, w.nextPk, w.clock) && Evolved(seen, w.table)
  }

  /** What was compared is a state of the catalogue at or after the one whose fingerprint was read. */
  ghost predicate ComparisonSound(c: Comparison, seen: Table, w: World) {
    Dated(c.table, w.nextPk, w.clock) && Evolved(seen, c.table) && c.summary == Expected(View(c.table), c.file)
  }

  ghost predicate CheckSound(c: Check, w: World) {
    ReadingSound(c.fingerprint, c.seen, w) && (c.comparison.Some? ==> ComparisonSound(c.comparison.value, c.seen, w))
  }

  ghost predicate VerdictSound(b: Batch, w: World) {
    b.fingerprint.Some? ==>
      && b.preview.Some? && ReadingSound(b.fingerprint.value, b.seen, w)
      && ComparisonSound(Comparison(b.preview.value, b.compared, b.comparedFile), b.seen, w)
  }

  ghost predicate BatchSound(b: Batch, w: World) {
    && b.applies <= b.checks
    && (b.status.Checked? ==> b.fingerprint.Some? && b.applies < b.checks)
    && VerdictSound(b, w)
  }

  ghost predicate Sound(w: World) {
    && Dated(w.table, w.nextPk, w.clock)
    && (forall check :: check in w.running ==> CheckSound(w.running[check], w))
    && (forall id :: id in w.batches ==> BatchSound(w.batches[id], w))
  }

  /** Writes between two worlds: time moves on and the rows evolve past everything dated so far. */
  ghost predicate Moved(w: World, v: World) {
    && w.clock <= v.clock && w.nextPk <= v.nextPk
    && Dated(v.table, v.nextPk, v.clock)
    && forall m :: m in v.table ==> Same(w.table, v.table, m) || v.table[m].part.updatedAt > w.clock
  }

  lemma {:induction false} MaxPkOfLargerBound(table: Table, n: nat, larger: nat)
    requires n <= larger && forall m :: m in table ==> table[m].pk < n
    ensures MaxPk(table, larger) == MaxPk(table, n)
    decreases larger
  {
    if n < larger {
      MaxPkOfLargerBound(table, n, larger - 1);
    }
  }

  lemma ReadingSurvives(f: Fingerprint, seen: Table, w: World, v: World)
    requires ReadingSound(f, seen, w) && Moved(w, v)
    ensures ReadingSound(f, seen, v)
  {
    LaterDated(seen, w, v);
    forall m | m in seen ensures seen[m].pk < w.nextPk {
      assert DatedEntry(seen[m], w.nextPk, w.clock);
    }
    MaxPkOfLargerBound(seen, w.nextPk, v.nextPk);
    forall m | m in v.table ensures Same(seen, v.table, m) || Newer(v.table[m], seen) {
      if Same(w.table, v.table, m) {
        assert Same(seen, w.table, m) || Newer(w.table[m], seen);
      } else {
        forall k | k in seen ensures seen[k].part.updatedAt < v.table[m].part.updatedAt {
          assert DatedEntry(seen[k], w.nextPk, w.clock);
        }
      }
    }
  }

  lemma LaterDated(table: Table, w: World, v: World)
    requires Dated(table, w.nextPk, w.clock) && w.clock <= v.clock && w.nextPk <= v.nextPk
    ensures Dated(table, v.nextPk, v.clock)
  {
    forall m | m in table ensures DatedEntry(table[m], v.nextPk, v.clock) {
      assert DatedEntry(table[m], w.nextPk, w.clock);
    }
  }

  lemma CheckSurvives(c: Check, w: World, v: World)
    requires CheckSound(c, w) && Moved(w, v)
    ensures CheckSound(c, v)
  {
    ReadingSurvives(c.fingerprint, c.seen, w, v);
    if c.comparison.Some? {
      LaterDated(c.comparison.value.table, w, v);
    }
  }

  lemma BatchSurvives(b: Batch, w: World, v: World)
    requires BatchSound(b, w) && Moved(w, v)
    ensures BatchSound(b, v)
  {
    if b.fingerprint.Some? {
      ReadingSurvives(b.fingerprint.value, b.seen, w, v);
      LaterDated(b.compared, w, v);
    }
  }

  lemma NothingMoved(w: World)
    requires Dated(w.table, w.nextPk, w.clock)
    ensures Moved(w, w)
    ensures Evolved(w.table, w.table)
  {
    forall m | m in w.table ensures Same(w.table, w.table, m) {
    }
  }

  /** Only the catalogue moved. */
  lemma MovedKeepsSound(w: World, v: World)
    requires Sound(w) && Moved(w, v) && v.running == w.running && v.batches == w.batches
    ensures Sound(v)
  {
    forall check | check in v.running ensures CheckSound(v.running[check], v) {
      CheckSurvives(w.running[check], w, v);
    }
    forall id | id in v.batches ensures BatchSound(v.batches[id], v) {
      BatchSurvives(w.batches[id], w, v);
    }
  }

  /** Worlds with one catalogue and one clock. */
  predicate SameCatalogue(w: World, v: World) {
    v.table == w.table && v.nextPk == w.nextPk && v.clock == w.clock
  }

  lemma ChecksStaySound(w: World, v: World, check: CheckId)
    requires Sound(w) && SameCatalogue(w, v) && check in w.running && check in v.running && v.running[check] == w.running[check]
    ensures CheckSound(v.running[check], v)
  {
    assert CheckSound(w.running[check], w);
  }

  lemma BatchesStaySound(w: World, v: World, id: BatchId)
    requires Sound(w) && SameCatalogue(w, v) && id in w.batches && id in v.batches && v.batches[id] == w.batches[id]
    ensures BatchSound(v.batches[id], v)
  {
    assert BatchSound(w.batches[id], w);
  }

  /** An import writes every row it changes at its own time. */
  lemma ImportMoves(w: World, file: File, run: ImportRun)
    requires Dated(w.table, w.nextPk, w.clock) && run.now > w.clock
    ensures Moved(w, StoreCatalogue(w, Imported(View(w.table), file, run), file, run))
  {
    var after := Imported(View(w.table), file, run);
    var table := Save(w.table, after, file, w.nextPk);
    forall m | m in table
      ensures DatedEntry(table[m], w.nextPk + |file|, run.now)
              && (Same(w.table, table, m) || table[m].part.updatedAt > w.clock)
    {
      if m in w.table {
        assert DatedEntry(w.table[m], w.nextPk, w.clock);
      }
    }
  }

  lemma BegunCheckIsSound(w: World, v: World, id: BatchId)
    requires Sound(w) && SameCatalogue(w, v)
    ensures CheckSound(Check(id, TakeFingerprint(w), w.table, None), v)
  {
    NothingMoved(w);
    TakenDescribes(w);
  }

  lemma BeginKeepsSound(w: World, check: CheckId, id: BatchId)
    requires Sound(w)
    ensures Sound(BeginCheck(w, check, id))
  {
    var v := BeginCheck(w, check, id);
    forall k | k in v.running ensures CheckSound(v.running[k], v) {
      if k in w.running {
        ChecksStaySound(w, v, k);
      } else {
        BegunCheckIsSound(w, v, id);
      }
    }
    forall k | k in v.batches ensures BatchSound(v.batches[k], v) {
      BatchesStaySound(w, v, k);
    }
  }

  lemma ComparedCheckIsSound(c: Check, w: World, file: File)
    requires Dated(w.table, w.nextPk, w.clock) && CheckSound(c, w)
    ensures CheckSound(c.(comparison := Some(Comparison(Expected(View(w.table), file), w.table, file))), w)
  {
  }

  lemma CompareKeepsSound(w: World, check: CheckId)
    requires Sound(w)
    ensures Sound(CompareCheck(w, check))
  {
    var v := CompareCheck(w, check);
    forall k | k in v.running ensures CheckSound(v.running[k], v) {
      if v.running[k] == w.running[k] {
        ChecksStaySound(w, v, k);
      } else {
        ComparedCheckIsSound(w.running[k], w, w.files[w.running[k].batch]);
        SameCatalogueSameCheck(v.running[k], w, v);
      }
    }
    forall k | k in v.batches ensures BatchSound(v.batches[k], v) {
      BatchesStaySound(w, v, k);
    }
  }

  lemma SameCatalogueSameCheck(c: Check, w: World, v: World)
    requires CheckSound(c, w) && SameCatalogue(w, v)
    ensures CheckSound(c, v)
  {
  }

  lemma CheckedBatchIsSound(b: Batch, c: Check, w: World, v: World)
    requires BatchSound(b, w) && CheckSound(c, w) && c.comparison.Some? && SameCatalogue(w, v)
    ensures BatchSound(CheckedBatch(b, c), v)
  {
  }

  lemma SaveKeepsSound(w: World, check: CheckId)
    requires Sound(w)
    ensures Sound(SaveCheck(w, check))
  {
    if HasVerdict(w, check) {
      var v, id := SaveCheck(w, check), w.running[check].batch;
      forall k | k in v.running ensures CheckSound(v.running[k], v) {
        ChecksStaySound(w, v, k);
      }
      forall k | k in v.batches ensures BatchSound(v.batches[k], v) {
        if k == id {
          CheckedBatchIsSound(w.batches[id], w.running[check], w, v);
        } else {
          BatchesStaySound(w, v, k);
        }
      }
    }
  }

  /** Marking a checked batch as applied. */
  lemma MarkingKeepsSound(w: World, id: BatchId, summary: Summary)
    requires Sound(w) && id in w.batches && w.batches[id].status.Checked?
    ensures Sound(RecordApplied(w, id, summary))
  {
    var v := RecordApplied(w, id, summary);
    forall k | k in v.batches ensures BatchSound(v.batches[k], v) {
      assert BatchSound(w.batches[k], w);
    }
    forall k | k in v.running ensures CheckSound(v.running[k], v) {
      ChecksStaySound(w, v, k);
    }
  }

  lemma ApplyKeepsSound(w: World, id: BatchId, run: ImportRun)
    requires Sound(w) && run.now > w.clock
    ensures Sound(Apply(w, id, run))
  {
    if id in w.batches && id in w.files && ApplyRefusal(w, id).None? {
      CommitKeepsSound(w, id, run);
    }
  }

  lemma CommitKeepsSound(w: World, id: BatchId, run: ImportRun)
    requires Sound(w) && run.now > w.clock && id in w.batches && id in w.files && w.batches[id].status.Checked?
    ensures Sound(Commit(w, id, run))
  {
    var file, before := w.files[id], View(w.table);
    var stored := StoreCatalogue(w, Imported(before, file, run), file, run);
    ImportMoves(w, file, run);
    MovedKeepsSound(w, stored);
    MarkingKeepsSound(stored, id, Expected(before, file));
  }

  /** What a step on statuses does to one batch: its status changes, never to checked, or it is a new one. */
  predicate StatusOnly(w: World, v: World, id: BatchId)
    requires id in v.batches
  {
    if id in w.batches then
      && v.batches[id] == w.batches[id].(status := v.batches[id].status)
      && (v.batches[id].status.Checked? ==> w.batches[id].status.Checked?)
    else v.batches[id].fingerprint.None? && v.batches[id].status.Uploaded? && v.batches[id].applies == 0
  }

  lemma StatusOnlyIsSound(w: World, v: World, id: BatchId)
    requires Sound(w) && SameCatalogue(w, v) && id in v.batches && StatusOnly(w, v, id)
    ensures BatchSound(v.batches[id], v)
  {
    if id in w.batches {
      assert BatchSound(w.batches[id], w);
    }
  }

  predicate OnlySetsStatus(e: Event) {
    e.UploadEvent? || e.FailCheckEvent? || e.MarkFailedEvent? || e.ReplaceFileEvent?
  }

  lemma StatusEventFrame(w: World, e: Event)
    requires OnlySetsStatus(e)
    ensures SameCatalogue(w, Step(w, e))
    ensures forall check :: check in Step(w, e).running ==> check in w.running && Step(w, e).running[check] == w.running[check]
  {
  }

  lemma StatusEventBatch(w: World, e: Event, id: BatchId)
    requires OnlySetsStatus(e) && id in Step(w, e).batches
    ensures StatusOnly(w, Step(w, e), id)
  {
  }

  lemma StatusEventKeepsSound(w: World, e: Event)
    requires Sound(w) && OnlySetsStatus(e)
    ensures Sound(Step(w, e))
  {
    var v := Step(w, e);
    StatusEventFrame(w, e);
    forall check | check in v.running ensures CheckSound(v.running[check], v) {
      ChecksStaySound(w, v, check);
    }
    forall id | id in v.batches ensures BatchSound(v.batches[id], v) {
      StatusEventBatch(w, e, id);
      StatusOnlyIsSound(w, v, id);
    }
  }

  lemma PutKeepsSound(w: World, m: Material, part: CatalogPart, now: nat)
    requires Sound(w) && InTime(w, PutEvent(m, part, now))
    ensures Sound(Put(w, m, part, now))
  {
    PutMoves(w, m, part, now);
    MovedKeepsSound(w, Put(w, m, part, now));
  }

  lemma DeleteKeepsSound(w: World, m: Material)
    requires Sound(w)
    ensures Sound(w.(table := w.table - {m}))
  {
    DeleteMoves(w, m);
    MovedKeepsSound(w, w.(table := w.table - {m}));
  }

  lemma StepKeepsSound(w: World, e: Event)
    requires Sound(w) && InTime(w, e)
    ensures Sound(Step(w, e))
  {
    if OnlySetsStatus(e) {
      StatusEventKeepsSound(w, e);
    } else {
      match e
      case BeginEvent(check, id) => BeginKeepsSound(w, check, id);
      case CompareEvent(check) => CompareKeepsSound(w, check);
      case SaveEvent(check) => SaveKeepsSound(w, check);
      case ApplyEvent(id, run) => ApplyKeepsSound(w, id, run);
      case PutEvent(m, part, now) => PutKeepsSound(w, m, part, now);
      case DeleteEvent(m) => DeleteKeepsSound(w, m);
    }
  }

  lemma PutMoves(w: World, m: Material, part: CatalogPart, now: nat)
    requires Dated(w.table, w.nextPk, w.clock) && now > w.clock
    ensures Moved(w, Put(w, m, part, now))
  {
    var v := Put(w, m, part, now);
    forall k | k in v.table
      ensures DatedEntry(v.table[k], v.nextPk, v.clock)
              && (Same(w.table, v.table, k) || v.table[k].part.updatedAt > w.clock)
    {
      if k in w.table {
        assert DatedEntry(w.table[k], w.nextPk, w.clock);
      }
    }
  }

  lemma DeleteMoves(w: World, m: Material)
    requires Dated(w.table, w.nextPk, w.clock)
    ensures Moved(w, w.(table := w.table - {m}))
  {
    var v := w.(table := w.table - {m});
    forall k | k in v.table
      ensures DatedEntry(v.table[k], v.nextPk, v.clock) && Same(w.table, v.table, k)
    {
      assert DatedEntry(w.table[k], w.nextPk, w.clock);
    }
  }

  lemma {:induction false} RunKeepsSound(w: World, events: seq<Event>)
    requires Sound(w) && WellTimed(w, events)
    ensures Sound(Run(w, events))
    decreases |events|
  {
    if events != [] {
      StepKeepsSound(w, events[0]);
      RunKeepsSound(Step(w, events[0]), events[1..]);
    }
  }

  /** Any world reached from an empty database. */
  ghost predicate Reachable(w: World) {
    exists events :: WellTimed(NO_WORLD, events) && Run(NO_WORLD, events) == w
  }

  lemma ReachableIsSound(w: World)
    requires Reachable(w)
    ensures Sound(w)
  {
    var events :| WellTimed(NO_WORLD, events) && Run(NO_WORLD, events) == w;
    RunKeepsSound(NO_WORLD, events);
  }

  // ---------------------------------------------------------------- guarantees

  lemma FingerprintDecides(w: World, f: Fingerprint, seen: Table)
    requires Sound(w) && ReadingSound(f, seen, w)
    ensures f == TakeFingerprint(w) <==> seen == w.table
  {
    TakenDescribes(w);
    if f == TakeFingerprint(w) {
      SameFingerprintSameTable(f, TakeFingerprint(w), seen, w.table);
    }
    if seen == w.table {
      DescriptionIsUnique(f, TakeFingerprint(w), seen);
    }
  }

  /**
   An apply goes through exactly when the batch is checked, the file is the uploaded one, and no row
   of the catalogue was created, changed or deleted since the check read the fingerprint.
   */
  lemma ApplySucceedsIff(w: World, id: BatchId)
    requires Reachable(w) && id in w.batches && id in w.files
    ensures var batch := w.batches[id];
            ApplyRefusal(w, id).None? <==>
            && batch.status.Checked?
            && w.files[id] == batch.digest
            && w.table == batch.seen
            && !Blocked(CountFile(batch.digest, |batch.digest|))
  {
    ReachableIsSound(w);
    assert BatchSound(w.batches[id], w);
    if w.batches[id].status.Checked? {
      FingerprintDecides(w, w.batches[id].fingerprint.value, w.batches[id].seen);
    }
  }

  lemma ViewOfSave(table: Table, after: Catalog, file: File, nextPk: nat)
    ensures View(Save(table, after, file, nextPk)) == after
  {
  }

  lemma CommitImports(w: World, id: BatchId, run: ImportRun)
    requires id in w.batches && id in w.files && run.now >= 0
    ensures var after := Commit(w, id, run);
            && after.batches[id].applySummary == Some(Expected(View(w.table), w.files[id]))
            && after.batches[id].preview == w.batches[id].preview
            && View(after.table) == Imported(View(w.table), w.files[id], run)
  {
    ViewOfSave(w.table, Imported(View(w.table), w.files[id], run), w.files[id], w.nextPk);
  }

  /**
   The counters of a successful apply are those of a dry run on the catalogue of the fingerprint; they
   equal the preview when the check compared the uploaded file with that same catalogue.
   */
  lemma AppliedCountersArePreviewed(w: World, id: BatchId, run: ImportRun)
    requires Reachable(w) && id in w.batches && id in w.files && run.now > w.clock
    requires ApplyRefusal(w, id).None?
    ensures var batch, after := w.batches[id], Apply(w, id, run);
            && id in after.batches
            && after.batches[id].applySummary == Some(Expected(View(batch.seen), batch.digest))
            && View(after.table) == Imported(View(batch.seen), batch.digest, run)
            && (batch.compared == batch.seen && batch.comparedFile == batch.digest ==>
                  after.batches[id].applySummary == batch.preview)
  {
    ReachableIsSound(w);
    ApplySucceedsIff(w, id);
    CommitImports(w, id, run);
    var batch, after := w.batches[id], Apply(w, id, run);
    assert after == Commit(w, id, run);
    assert BatchSound(batch, w);
  }

  /** Reading the fingerprint once more with the comparison would tell whether both reads saw one catalogue. */
  lemma CheckSawOneCatalogueIff(w: World, check: CheckId)
    requires Reachable(w) && check in w.running && w.running[check].comparison.None? && w.running[check].batch in w.files
    ensures var compared := CompareCheck(w, check).running[check];
            && compared.comparison.Some?
            && (compared.comparison.value.table == compared.seen <==> TakeFingerprint(w) == compared.fingerprint)
  {
    ReachableIsSound(w);
    assert CheckSound(w.running[check], w);
    FingerprintDecides(w, w.running[check].fingerprint, w.running[check].seen);
  }

  /** A stored batch that is not, or no longer, checked. */
  predicate IsUnchecked(w: World, id: BatchId) {
    id in w.batches && id in w.files && !w.batches[id].status.Checked?
  }

  /** The event saves the verdict of a check of this batch. */
  predicate SavesVerdictOn(w: World, e: Event, id: BatchId) {
    e.SaveEvent? && HasVerdict(w, e.check) && w.running[e.check].batch == id
  }

  predicate NoVerdictOn(w: World, events: seq<Event>, id: BatchId)
    decreases |events|
  {
    events != [] ==> !SavesVerdictOn(w, events[0], id) && NoVerdictOn(Step(w, events[0]), events[1..], id)
  }

  lemma ApplyChecksNothing(w: World, other: BatchId, run: ImportRun, id: BatchId)
    requires IsUnchecked(w, id) && run.now >= 0
    ensures IsUnchecked(Apply(w, other, run), id)
  {
  }

  lemma OnlyAVerdictChecks(w: World, e: Event, id: BatchId)
    requires IsUnchecked(w, id) && !SavesVerdictOn(w, e, id)
    ensures IsUnchecked(Step(w, e), id)
  {
    if e.ApplyEvent? && e.run.now >= 0 {
      ApplyChecksNothing(w, e.id, e.run, id);
    }
  }

  lemma {:induction false} StaysUnchecked(w: World, events: seq<Event>, id: BatchId)
    requires IsUnchecked(w, id) && NoVerdictOn(w, events, id)
    ensures IsUnchecked(Run(w, events), id)
    decreases |events|
  {
    if events != [] {
      OnlyAVerdictChecks(w, events[0], id);
      StaysUnchecked(Step(w, events[0]), events[1..], id);
    }
  }

  /** A check admits one apply: after it, whatever follows, the batch is refused until another verdict is saved. */
  lemma OneApplyForEachCheck(w: World, id: BatchId, run: ImportRun, events: seq<Event>)
    requires id in w.batches && id in w.files && run.now >= 0
    requires ApplyRefusal(w, id).None? && NoVerdictOn(Apply(w, id, run), events, id)
    ensures var later := Run(Apply(w, id, run), events);
            && id in later.batches && id in later.files
            && ApplyRefusal(later, id) == Some(NotChecked)
  {
    StaysUnchecked(Apply(w, id, run), events, id);
  }

  /** So over a whole run a batch is applied at most as often as it was checked. */
  lemma AppliesNeverExceedChecks(w: World, id: BatchId)
    requires Reachable(w) && id in w.batches
    ensures w.batches[id].applies <= w.batches[id].checks
    ensures w.batches[id].status.Checked? ==> w.batches[id].applies < w.batches[id].checks
  {
    ReachableIsSound(w);
    assert BatchSound(w.batches[id], w);
  }

  lemma CommitFrame(w: World, id: BatchId, run: ImportRun)
    requires id in w.batches && id in w.files && run.now >= 0
    ensures var after := Commit(w, id, run);
            after.files == w.files && forall k :: k in w.batches && k != id ==> k in after.batches && after.batches[k] == w.batches[k]
  {
  }

  /** Of two batches checked on the same catalogue, the second is refused once the first has changed it. */
  lemma SecondBatchIsRefused(w: World, first: BatchId, second: BatchId, run: ImportRun)
    requires Reachable(w) && first in w.batches && first in w.files && second in w.batches && second in w.files
    requires first != second && run.now > w.clock
    requires ApplyRefusal(w, first).None? && ApplyRefusal(w, second).None?
    requires Apply(w, first, run).table != w.table
    ensures var after := Apply(w, first, run);
            second in after.batches && second in after.files && ApplyRefusal(after, second) == Some(CatalogueChanged)
  {
    ReachableIsSound(w);
    ApplySucceedsIff(w, second);
    CommitKeepsSound(w, first, run);
    CommitFrame(w, first, run);
    var after := Commit(w, first, run);
    assert Apply(w, first, run) == after;
    assert BatchSound(after.batches[second], after);
    FingerprintDecides(after, after.batches[second].fingerprint.value, after.batches[second].seen);
  }

  // ---------------------------------------------------------------- where the preview is not what is applied

  lemma OneRowFile(row: FileRow)
    requires row.material != ""
    ensures Winners([row], Best([row], 1), 1) == [row]
    ensures Best([row], 1) == map[row.material := 0]
    ensures !row.wholesaleInvalid && Positive(row.wholesale) ==> !Blocked(CountFile([row], 1))
  {
    assert Best([row], 0) == map[];
    assert Winners([row], Best([row], 1), 0) == [];
    assert CountFile([row], 0) == NO_FILE_STATS;
  }

  lemma OneRowCounts(catalog: Catalog, row: FileRow)
    requires row.material != ""
    ensures Expected(catalog, [row]).sync == CountRow(NO_SYNC_STATS, row, Lookup(catalog, row.material))
    ensures !row.wholesaleInvalid && Positive(row.wholesale) ==> !Blocked(Expected(catalog, [row]).file)
  {
    OneRowFile(row);
    assert [row][..0] == [];
    assert CountRows(NO_SYNC_STATS, [row][..0], catalog) == NO_SYNC_STATS;
  }

  /** What the check leaves behind in an empty shop. */
  ghost predicate CheckSawTheRow(w: World, row: FileRow) {
    && 1 in w.batches && 1 in w.files && w.files[1] == w.batches[1].digest == [row] && w.table.Keys <= {row.material}
    && w.batches[1].status.Checked? && w.batches[1].fingerprint == Some(Fingerprint(0, None, None))
    && w.batches[1].preview.Some? && w.batches[1].preview.value.sync.created == 0
  }

  lemma CheckSeesTheRow(w: World, row: FileRow, part: CatalogPart, begun: World)
    requires w == NO_WORLD && row.material != "" && !row.wholesaleInvalid && Positive(row.wholesale)
    requires begun == Put(BeginCheck(Upload(w, 1, [row]), 1, 1), row.material, part, 1)
    ensures CheckSawTheRow(SaveCheck(CompareCheck(begun, 1), 1), row)
  {
    NothingToFingerprint(Upload(w, 1, [row]));
    OneRowCounts(View(begun.table), row);
  }

  lemma ApplyCreatesTheRow(w: World, row: FileRow, run: ImportRun)
    requires row.material != "" && !row.wholesaleInvalid && Positive(row.wholesale) && run.now >= 0
    requires CheckSawTheRow(w, row) && w.table == map[]
    ensures var done := Apply(w, 1, run);
            && 1 in done.batches && done.batches[1].status.Applied?
            && done.batches[1].applySummary.Some? && done.batches[1].applySummary.value.sync.created == 1
  {
    NothingToFingerprint(w);
    OneRowFile(row);
    OneRowCounts(View(w.table), row);
    assert ApplyRefusal(w, 1).None?;
  }

  lemma FirstHalfOfTheRun(w: World, row: FileRow, part: CatalogPart)
    ensures Run(w, [UploadEvent(1, [row]), BeginEvent(1, 1), PutEvent(row.material, part, 1)])
         == Put(BeginCheck(Upload(w, 1, [row]), 1, 1), row.material, part, 1)
  {
    RunOfThree(w, UploadEvent(1, [row]), BeginEvent(1, 1), PutEvent(row.material, part, 1));
  }

  function Without(w: World, m: Material): World {
    w.(table := w.table - {m})
  }

  lemma SecondHalfOfTheRun(w: World, m: Material)
    ensures Run(w, [CompareEvent(1), SaveEvent(1), DeleteEvent(m)]) == Without(SaveCheck(CompareCheck(w, 1), 1), m)
  {
    RunOfThree(w, CompareEvent(1), SaveEvent(1), DeleteEvent(m));
  }

  lemma StillSeen(w: World, row: FileRow)
    requires CheckSawTheRow(w, row)
    ensures CheckSawTheRow(Without(w, row.material), row) && Without(w, row.material).table == map[]
  {
  }

  lemma RunSeesTheRow(w: World, row: FileRow, part: CatalogPart, begun: World, checked: World)
    requires w == NO_WORLD && row.material != "" && !row.wholesaleInvalid && Positive(row.wholesale)
    requires begun == Run(w, [UploadEvent(1, [row]), BeginEvent(1, 1), PutEvent(row.material, part, 1)])
    requires checked == Run(begun, [CompareEvent(1), SaveEvent(1), DeleteEvent(row.material)])
    ensures CheckSawTheRow(checked, row) && checked.table == map[]
  {
    FirstHalfOfTheRun(w, row, part);
    CheckSeesTheRow(w, row, part, begun);
    SecondHalfOfTheRun(begun, row.material);
    StillSeen(SaveCheck(CompareCheck(begun, 1), 1), row);
  }

  /**
   The fingerprint is read before the file is compared. A row that is created in between and deleted
   before the apply was seen by the preview and by nothing else: the preview promises no new row, the
   apply goes through and creates one.
   */
  lemma PreviewCanSeeARowThatIsGone(w: World, row: FileRow, part: CatalogPart, run: ImportRun)
    requires w == NO_WORLD && row.material != "" && !row.wholesaleInvalid && Positive(row.wholesale) && run.now > 1
    ensures var begun := Run(w, [UploadEvent(1, [row]), BeginEvent(1, 1), PutEvent(row.material, part, 1)]);
            var checked := Run(begun, [CompareEvent(1), SaveEvent(1), DeleteEvent(row.material)]);
            var done := Apply(checked, 1, run);
            && 1 in checked.batches && 1 in done.batches
            && checked.batches[1].preview.Some? && checked.batches[1].preview.value.sync.created == 0
            && done.batches[1].status.Applied?
            && done.batches[1].applySummary.Some? && done.batches[1].applySummary.value.sync.created == 1
  {
    var begun := Run(w, [UploadEvent(1, [row]), BeginEvent(1, 1), PutEvent(row.material, part, 1)]);
    var checked := Run(begun, [CompareEvent(1), SaveEvent(1), DeleteEvent(row.material)]);
    RunSeesTheRow(w, row, part, begun, checked);
    ApplyCreatesTheRow(checked, row, run);
  }

  lemma RunOfOne(w: World, e: Event)
    ensures Run(w, [e]) == Step(w, e)
  {
    assert [e][1..] == [];
    assert Run(w, [e]) == Run(Step(w, e), []);
  }

  lemma RunOfThree(w: World, a: Event, b: Event, c: Event)
    ensures Run(w, [a, b, c]) == Step(Step(Step(w, a), b), c)
  {
    assert [a, b, c][1..] == [b, c] && [b, c][1..] == [c];
    assert Run(w, [a, b, c]) == Run(Step(w, a), [b, c]);
    assert Run(Step(w, a), [b, c]) == Run(Step(Step(w, a), b), [c]);
    RunOfOne(Step(Step(w, a), b), c);
  }

  lemma NothingToFingerprint(w: World)
    requires w.table == map[]
    ensures TakeFingerprint(w) == Fingerprint(0, None, None)
  {
    LatestUpdateIsMaximum(w.table, w.clock);
    MaxPkIsMaximum(w.table, w.nextPk);
  }
}
