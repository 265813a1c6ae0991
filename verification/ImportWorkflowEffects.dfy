/** What each transaction on a batch leaves, said of the rows of its file and the catalogue. */
module ImportWorkflowEffects {
  import opened Basics
  import opened BrpImporter
  import opened BrpSummaryLaws
  import opened ImportWorkflow
  import opened ImportWorkflowRuns

  /** Every row of a material has a price that can be read and is not negative. */
  predicate HasUsablePrices(file: File) {
    forall i | 0 <= i < |file| :: !HasBadPrice(file[i]) && !HasNegativePrice(file[i])
  }

  lemma UsableIff(file: File)
    ensures HasUsablePrices(file) <==> !Blocked(CountFile(file, |file|))
  {
    BlockedIff(file);
  }

  /** The batch an event is about, if any. */
  function BatchOf(w: World, e: Event): Option<BatchId> {
    match e
    case UploadEvent(id, _) => Some(id)
    case SaveEvent(check) => if check in w.running then Some(w.running[check].batch) else None
    case FailCheckEvent(check) => if check in w.running then Some(w.running[check].batch) else None
    case ApplyEvent(id, _) => Some(id)
    case MarkFailedEvent(id) => Some(id)
    case _ => None
  }

  lemma ApplyLeavesOthers(w: World, applied: BatchId, run: ImportRun, id: BatchId)
    requires id in w.batches && id != applied && run.now >= 0
    ensures id in Apply(w, applied, run).batches && Apply(w, applied, run).batches[id] == w.batches[id]
  {
    if applied in w.batches && applied in w.files {
      CommitFrame(w, applied, run);
    }
  }

  /** An event changes no other batch than its own. */
  lemma OtherBatchesAreLeft(w: World, e: Event, id: BatchId)
    requires id in w.batches && BatchOf(w, e) != Some(id)
    ensures id in Step(w, e).batches && Step(w, e).batches[id] == w.batches[id]
  {
    if e.ApplyEvent? && e.run.now >= 0 {
      ApplyLeavesOthers(w, e.id, e.run, id);
    }
  }

  /** An upload under a known number changes nothing; another is stored with its file, neither checked nor applied. */
  lemma UploadIsStored(w: World, id: BatchId, file: File)
    ensures id in w.batches ==> Upload(w, id, file) == w
    ensures id !in w.batches ==>
      && id in Upload(w, id, file).batches && id in Upload(w, id, file).files && Upload(w, id, file).files[id] == file
      && Upload(w, id, file).batches[id].digest == file && Upload(w, id, file).batches[id].status.Uploaded?
      && Upload(w, id, file).batches[id].preview.None? && Upload(w, id, file).batches[id].applySummary.None?
      && Upload(w, id, file).batches[id].checks == 0 && Upload(w, id, file).batches[id].applies == 0
      && Upload(w, id, file).table == w.table && Upload(w, id, file).running == w.running
  {
  }

  /** A check compares its file once, with the catalogue as it is by then, and changes nothing but the check. */
  lemma ComparisonIsMadeOnce(w: World, check: CheckId)
    requires check in w.running && w.running[check].batch in w.files
    ensures var after, file := CompareCheck(w, check), w.files[w.running[check].batch];
      && check in after.running && after.table == w.table && after.files == w.files && after.batches == w.batches
      && (w.running[check].comparison.Some? ==> after == w)
      && (w.running[check].comparison.None? ==>
            after.running[check].comparison == Some(Comparison(Expected(View(w.table), file), w.table, file)))
      && (forall other :: other in w.running && other != check ==> other in after.running && after.running[other] == w.running[other])
  {
  }

  /** A check begins by reading the fingerprint of the catalogue, unless its number is taken or its batch unknown. */
  lemma CheckBeginsWithTheFingerprint(w: World, check: CheckId, id: BatchId)
    ensures check in w.running || id !in w.batches ==> BeginCheck(w, check, id) == w
    ensures check !in w.running && id in w.batches ==>
      && check in BeginCheck(w, check, id).running
      && BeginCheck(w, check, id).running[check] == Check(id, TakeFingerprint(w), w.table, None)
      && BeginCheck(w, check, id).batches == w.batches && BeginCheck(w, check, id).table == w.table
  {
  }

  /** A saved verdict shows the counters of the dry run, and lets the batch be applied exactly if the file has usable prices. */
  lemma VerdictIsSaved(w: World, check: CheckId)
    requires Reachable(w) && HasVerdict(w, check)
    ensures var id, done, after := w.running[check].batch, w.running[check].comparison.value, SaveCheck(w, check);
      && id in after.batches && after.running == w.running - {check} && after.table == w.table && after.files == w.files
      && (after.batches[id].status.Checked? <==> HasUsablePrices(done.file))
      && (after.batches[id].status.CheckFailed? <==> !HasUsablePrices(done.file))
      && after.batches[id].preview == Some(Expected(View(done.table), done.file))
      && after.batches[id].seen == w.running[check].seen
      && after.batches[id].checks == w.batches[id].checks + (if HasUsablePrices(done.file) then 1 else 0)
      && after.batches[id].digest == w.batches[id].digest && after.batches[id].applySummary == w.batches[id].applySummary
  {
    ReachableIsSound(w);
    assert CheckSound(w.running[check], w);
    UsableIff(w.running[check].comparison.value.file);
  }

  /** A check that ends with an error marks its batch failed and keeps what an earlier check found. */
  lemma FailedCheckIsMarked(w: World, check: CheckId)
    requires check in w.running && w.running[check].batch in w.batches
    ensures var id, after := w.running[check].batch, FailCheck(w, check);
      && id in after.batches && after.batches[id].status.CheckFailed?
      && after.batches[id] == w.batches[id].(status := after.batches[id].status)
      && after.running == w.running - {check} && after.table == w.table && after.files == w.files
  {
  }

  /** An apply is refused for exactly one of four reasons, in this order. */
  lemma RefusalIff(w: World, id: BatchId)
    requires Reachable(w) && id in w.batches && id in w.files
    ensures var batch, refusal := w.batches[id], ApplyRefusal(w, id);
      && (refusal == Some(NotChecked) <==> !batch.status.Checked?)
      && (refusal == Some(FileChanged) <==> batch.status.Checked? && w.files[id] != batch.digest)
      && (refusal == Some(CatalogueChanged) <==> batch.status.Checked? && w.files[id] == batch.digest && w.table != batch.seen)
      && (refusal == Some(UnusablePrices) <==>
            && batch.status.Checked? && w.files[id] == batch.digest && w.table == batch.seen
            && !HasUsablePrices(batch.digest))
  {
    ReachableIsSound(w);
    assert BatchSound(w.batches[id], w);
    UsableIff(w.files[id]);
    if w.batches[id].status.Checked? {
      FingerprintDecides(w, w.batches[id].fingerprint.value, w.batches[id].seen);
    }
  }

  /** A batch that is applied is recorded as such once more; a refused one changes nothing at all. */
  lemma ApplyIsRecorded(w: World, id: BatchId, run: ImportRun)
    requires id in w.batches && id in w.files && run.now >= 0
    ensures ApplyRefusal(w, id).Some? ==> Apply(w, id, run) == w
    ensures ApplyRefusal(w, id).None? ==>
      && id in Apply(w, id, run).batches && Apply(w, id, run).batches[id].status.Applied?
      && Apply(w, id, run).batches[id].applies == w.batches[id].applies + 1
      && Apply(w, id, run).batches[id].preview == w.batches[id].preview
      && Apply(w, id, run).files == w.files && Apply(w, id, run).running == w.running
  {
  }

  /** A late mark of a failed apply changes the status of its batch and nothing else. */
  lemma FailedApplyIsMarked(w: World, id: BatchId)
    requires id in w.batches
    ensures var after := MarkApplyFailed(w, id);
      && id in after.batches && after.batches[id].status.ApplyFailed?
      && after.batches[id] == w.batches[id].(status := after.batches[id].status)
      && after.table == w.table && after.files == w.files && after.running == w.running
  {
  }

  /** A commit keeps the keys of known rows and gives each new one a key of its own that was never used. */
  lemma NewRowsGetNewKeys(w: World, file: File, run: ImportRun, m: Material, other: Material)
    requires run.now >= 0
    ensures var after := StoreCatalogue(w, Imported(View(w.table), file, run), file, run);
      && (m in w.table ==> m in after.table && after.table[m].pk == w.table[m].pk)
      && (m in after.table && m !in w.table ==> w.nextPk <= after.table[m].pk < after.nextPk)
      && (m in after.table && m !in w.table && other in after.table && other !in w.table && other != m ==>
            after.table[other].pk != after.table[m].pk)
  {
    if m in Best(file, |file|) && other in Best(file, |file|) {
      assert file[Best(file, |file|)[m]].material == m && file[Best(file, |file|)[other]].material == other;
    }
  }
}
