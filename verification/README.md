# DenStock: a verified model of its protocols and aggregations

DenStock is a warehouse system for spare parts. This project models the parts of it where state,
money or ordering can go wrong, and proves what the code promises there. The database is maps and
sequences, a transaction is one step that either commits or leaves everything as it was, moments are
non-decreasing integers, and money and quantities are scaled integers. Code that changes rows step by
step is a class whose methods are proved equal to functions of the old state; the laws are lemmas
about those functions, and most of them range over every run of every interleaving of transactions.

`dafny verify dfyconfig.toml` checks the whole project.

| file | what it is about |
|---|---|
| Basics.dfy, Ordering.dfy | options, results, white space; the stable sort and its uniqueness |
| SupportGate.dfy, SupportRuns.dfy, SupportGuarantees.dfy, SupportAnswers.dfy, SupportEffects.dfy | the AI-support request gate, its invariant over runs, its guarantees, every answer of a claim, what each transaction books and leaves |
| FifoSplit.dfy, ScannerCart.dfy, ScannerCartLaws.dfy, CartRows.dfy | oldest-first split, the scanner cart, what each lot gives, its visible rows |
| CustomsVersions.dfy, CartCompletion.dfy, CartCompletionRuns.dfy, CartPostingLaws.dfy | versions of a customs card, exactly-once completion of a cart, just when it is posted |
| CustomsRows.dfy, CustomsRowsLaws.dfy, CustomsExport.dfy, CustomsFile.dfy | folding document lines into export rows, groups, reconciliation, the file said of its tables |
| BrpImporter.dfy, BrpImportLaws.dfy, BrpSummaryLaws.dfy | the chunked two-pass BRP import against a one-shot specification, its writes and counters |
| ImportWorkflow.dfy, ImportWorkflowRuns.dfy, ImportWorkflowEffects.dfy | check and apply of a price list guarded by a fingerprint, the steps on a batch |
| Pricing.dfy, PriceRefresh.dfy, PriceRefreshLaws.dfy, PriceCardLaws.dfy, PriceAudit.dfy, PriceReportLaws.dfy | the price formula, the refresh of linked cards, the independent audit, both reports |
| PartPhotos.dfy, PartPhotosRuns.dfy, PartPhotosLaws.dfy, PhotoEffects.dfy, PhotoCard.dfy | upload, publication, replacement and order of photos, what a visitor sees after each step |
| SearchMerge.dfy, SearchMergeLaws.dfy, SearchLimitLaws.dfy | tiered search, its ranks, and what the limit of each query can lose |
| PublicCatalog.dfy | availability ranking, facets, pages |
| AnalogImport.dfy, AnalogImportLaws.dfy, AnalogFileLaws.dfy, AnalogColumns.dfy | the analog import, its incremental index, the links it adds, its second run, texts cut to their columns |

## Where the code and its promises part

Each of these is kept as the code has it, shown by a lemma with a concrete input or an exact condition,
and its documentation is read accordingly.

* `complete_cart` (apps/actions/cart.py:418-420) answers a token that another document used with that
  document's actions and leaves the draft as it is: `ForeignTokenLeavesTheDraft`.
* A replay of a repair lists every action of the repair, so returns recorded since are in it
  (apps/returns/services.py:520-538): `RetryReturnsThePosting` holds the list equal if and only if
  there were none.
* "A zero never erases a known price" (apps/brp/importer.py:226-244) fails for a positive price that
  two decimals store as zero: `VanishingPriceErasesAKnownPrice`, `PositivePriceSurvivesIff`.
* A second commit of the same file is idle if and only if every price of the chosen rows that it
  stores fits two decimals: `SecondCommitCountsNothingIff`.
* A check reads the fingerprint before it compares the file (apps/catalog_import/services.py:95-97), so
  a row that comes and goes around the comparison passes unnoticed: `PreviewCanSeeARowThatIsGone`,
  `CheckSawOneCatalogueIff`. An applied batch can be checked again, and a late failure mark
  overwrites an applied status; both are steps of the model.
* Refreshing aftermarket prices overwrites a price the owner confirmed (apps/catalog/services.py:370-384):
  `AftermarketOverwritesAConfirmedPrice`, `ConfirmedExceptionsAreKeptIff`.
* The audit text says a manual price is replaced by the next supplier price; the refresh never does so
  (the branch after `continue` at apps/catalog/services.py:254-294 cannot be reached): `TheReportIsTrue`.
* The audit follows a replacement chain that the refresh ignores, and adds a VIN surcharge to a price of
  nothing, so it can expect a price no refresh sets. `BorrowedPriceIsExpectedButNeverSet` says for which
  rows, BRP and Polaris alike; `RefreshLeavesAPriceMissing` is one of them.
* `replace_part_photo` publishes the new photo before it withdraws the old one, so a part with eight
  published photos cannot have one replaced: `FullPageCannotBeReplaced`, `ReplaceSucceedsIff`.
* "A part keeps only its best tier" and the list is the best of them all (apps/catalog/search.py:345-351)
  as long as no query loses a part to its own `[:limit]` (search.py:175, 189, 214-224): the numbers of one
  part can take the places of another, and names read in name order are cut before they are put in order
  of primary key. `RepeatedNumbersHideAPart` and `NamesReadByNameMissTheFirst` are two searches that lose
  a part. `TierLosesNothingIff` and `NamesCutIff` give the exact condition for one tier,
  `SearchIsTheWholeSearchIff` for a whole search. Skipping the tiers below a full list (search.py:387-389)
  never loses anything: `SkippedTiersMakeNoDifference`.
* The analog import stores an article cut to its column while its index keeps it whole:
  `CreationKeepsAgreementIff`, `LongArticleIsLostToTheIndex`. It also cuts names to 200 and makers to 150
  characters, after which a part no longer matches its own row and a second run creates it again:
  `NewPartMatchesItsRowIff`, `CutNamesAreCreatedAgainIff`, `LongNameIsCreatedAgain`.

## Model

| member | source | states |
|---|---|---|
| SupportGate.SupportStore.RecoverStaleUsage | apps/ai_support/services.py:93-104 | clears exactly a slot whose start is missing or too old and fails the processing messages of its owner and token |
| SupportGate.SupportStore.ClaimRequest | apps/ai_support/services.py:107-188 | the claim transaction: recovery, duplicate, capacity and quota decisions and their writes; a refusal rolls everything back |
| SupportGate.SupportStore.AnswerRequest | apps/ai_support/services.py:350-367 | stores the answer at the next number or, when that number is taken, nothing |
| SupportGate.SupportStore.FailRequest | apps/ai_support/services.py:385-389 | marks the user message failed and changes nothing else |
| SupportGate.SupportStore.ReleaseRequest | apps/ai_support/services.py:191-230 | adds vetted token counts to the row that still holds the token and frees it; a late release does nothing |
| SupportGuarantees.SlotsWithinCapacity | apps/ai_support/services.py:93-218 | in every run at most the global number of rows hold a slot and each user holds at most one across all dates |
| SupportGuarantees.SequenceIsOneToN | apps/ai_support/services.py:163-173 | in every run the numbers of a conversation are exactly 1 to n, each once |
| SupportGuarantees.AssistantAnswersThePreviousMessage | apps/ai_support/services.py:350-367 | in every run an assistant message at k+1 is the answer to the user message at k, late answers included |
| SupportGuarantees.AnswerStoredIffNewest | apps/ai_support/models.py:63-65 | an answer is stored if and only if its question is the newest message; the unique number rejects it otherwise |
| SupportGuarantees.RepeatedTokenCreatesNothing | apps/ai_support/services.py:127-138 | a token already used in a conversation creates no message and returns the message and its own answer |
| SupportGuarantees.RequestCountIsMessageCount | apps/ai_support/services.py:166-187 | the summed request counters of a user equal the number of that user's messages |
| SupportGuarantees.RateLimitHoldsInEveryWindow | apps/ai_support/services.py:151-158 | any closed minute of any run holds at most the rate limit of messages of one user |
| SupportGuarantees.DailyOvershootIsBounded | apps/ai_support/services.py:161-162 | a row with a request in flight is below the daily token limit, any other at most one maximal answer above it |
| SupportGuarantees.ClaimAdmittedIff | apps/ai_support/services.py:107-162 | a claim is admitted if and only if the user and the system have a slot once stale ones are gone, the messages the user sent within the last minute are fewer than the limit, and no daily quota is used up |
| SupportAnswers.ClaimIsAnsweredIff | apps/ai_support/services.py:107-162 | in every reachable state each refusal and the answer to a repeated token, and just when each is given: a slot on another day, a foreign conversation, a known token, the slot of the day, the provider's capacity, the quotas |
| SupportGuarantees.ClaimedWrites | apps/ai_support/services.py:163-188 | an admitted claim appends one numbered processing message and gives the day's row the token |
| SupportRuns.RunKeepsSound | apps/ai_support/services.py:93-390 | every transaction in every order keeps the invariant over rows, messages and counters |
| SupportEffects.ReleaseBooksTheUsage | apps/ai_support/services.py:191-243 | in every reachable state a release whose slot is held adds usable counts to that row, each capped at the largest bigint, frees the slot and changes no other row; unusable counts add nothing |
| SupportEffects.LateReleaseDoesNothing | apps/ai_support/services.py:194-202 | a release whose slot is gone changes nothing at all |
| SupportEffects.TokensAreThoseReleased | apps/ai_support/services.py:203-208 | in every run the tokens on the rows of a user are exactly the usable counts of the releases that found their slot |
| SupportEffects.AnswerWritesBoth | apps/ai_support/services.py:350-367 | a stored answer stands last, one number behind its question, and both carry the same verdict |
| SupportEffects.FailureMarksOnlyItsRequest | apps/ai_support/services.py:385-389 | a failure marks its request and nothing else |
| SupportEffects.RecoverEverySlot | apps/ai_support/services.py:93-104 | looking at every slot frees just those taken too long ago and gives up just the messages that waited for them |
| SupportEffects.ClaimTouchesNothingElse | apps/ai_support/services.py:107-188 | an admitted claim leaves every other row and message as it was, but for slots taken too long ago and the messages that waited for them |
| SupportEffects.RefusedClaimWritesNothing | apps/ai_support/services.py:107-162 | a refused claim writes nothing, whatever refuses it |
| FifoSplit.SplitQuantityOverLots | apps/actions/services.py:251-266 | fails exactly when total positive availability is short, else returns the oldest-first portions |
| FifoSplit.SplitIsOldestFirst | apps/actions/services.py:251-266 | portions are within availability, sum to the quantity and empty every earlier lot first |
| FifoSplit.OldestFirstIsUnique | apps/actions/services.py:251-266 | any split with these properties is this one |
| FifoSplit.PortionIsShare | apps/actions/services.py:255-263 | each portion is what the earlier lots leave over, up to what its lot has |
| ScannerCart.Cart.SetRowQuantity | apps/actions/cart.py:229-278 | rebuilds one row oldest first; whatever fails leaves the cart as it was |
| ScannerCart.Cart.Scan | apps/actions/cart.py:281-288 | adds to what the row already holds |
| ScannerCart.Cart.Remove | apps/actions/cart.py:291-295 | drops the lines of the row and no others |
| ScannerCart.SessionRefines | apps/actions/cart.py:216-294 | after any session on unchanged stock every row is the oldest-first split of its net quantity, other lines untouched |
| ScannerCart.RowsAfterSession | apps/actions/cart.py:216-294 | from an empty cart the row of a key holds exactly its net quantity |
| ScannerCartLaws.RowIsSetIff | apps/actions/cart.py:229-278 | each refusal and just when it is given, by the spare quantity of the available lots of the part in the cell; otherwise the row is set |
| ScannerCartLaws.ScanIsAddedIff | apps/actions/cart.py:281-288 | a scan adds to what the row holds; refused on a closed document and for no quantity |
| ScannerCartLaws.RowIsRemovedIff | apps/actions/cart.py:291-295 | on an open document the lines of the row go and no others; refused on a closed one |
| ScannerCartLaws.EachLotGives | apps/actions/services.py:251-266 | over the whole stock: each available lot of the cell gives all it has until the quantity is reached, any other lot nothing |
| ScannerCartLaws.OneLineForALot | apps/actions/services.py:251-266 | a lot stands on at most one line of a row |
| ScannerCartLaws.LotsAfterSession | apps/actions/cart.py:216-294 | after any session each lot gives to each row its share of the net quantity |
| CartRows.CollectRows | apps/actions/cart.py:151-197 | groups lot lines by part and cell in order of first appearance with quantity, price and total |
| CartRows.OneRowForEachKey | apps/actions/cart.py:151-180 | one row for each part and cell that has a line, and no other |
| CartRows.UnitPriceIffAgreed | apps/actions/cart.py:182-197 | a row shows a unit price if and only if its known prices agree |
| CartRows.RepairShowsTheCardPrice | apps/actions/cart.py:160-180 | a row of a repair shows the current price of its card, whatever its lines say |
| CartRows.TotalIffAllPriced | apps/actions/cart.py:182-197 | a row has a total if and only if each of its lines has a price, and then it is the sum of their rounded amounts |
| CartRows.MoneyIsNearest | apps/actions/cart.py:182-197 | the amount of a line is the whole kopeck nearest to price times quantity, a half away from zero |
| CartRows.RowsConserveQuantity | apps/actions/cart.py:151-206 | row quantities sum to the lot lines of the cart |
| CustomsVersions.CustomsCard.RecordVersion | apps/actions/services.py:811-849 | appends a version unless the card is untouched or unchanged since the last one |
| CustomsVersions.SaveRecordsIff | apps/actions/services.py:811-849 | in a sound history a save appends one version with the next number, from then on, if and only if something was entered and it differs from the newest version |
| CustomsVersions.EditsKeepHistory | apps/actions/services.py:811-849 | after any edits versions are numbered from one, consecutive ones differ, none is in the future |
| CustomsVersions.EditsKeepThePast | apps/actions/customs_history.py:219-231 | once a version exists, later edits never change what was in force at an earlier moment |
| CustomsVersions.InForceIsNewestBegun | apps/actions/customs_history.py:219-231 | the version in force is the newest one begun by then, or the first of all |
| CustomsVersions.InForceIsShownIff | apps/actions/cart.py:312-330 | the version in force holds the weights and area shown if and only if the card is in step with its newest version |
| CustomsVersions.CustomsCard.RememberMetadata | apps/actions/cart.py:355-374 | writes only the fields that differ and records a version for them |
| CustomsVersions.RememberedIsTheCard | apps/actions/cart.py:312-374 | what is remembered is a card, made if there was none, with the typed values and otherwise the known ones |
| CartCompletion.Warehouse.CompleteDraft | apps/actions/cart.py:393-529 | replay, refusals in the order of the code, and the whole posting; a failed call writes nothing |
| CartCompletion.Warehouse.RepriceRepair | apps/actions/cart.py:453-467 | gives every line of an open repair, with a lot or without, the current card price |
| CartCompletionRuns.RunKeepsSound | apps/actions/cart.py:377-529 | every interleaving of completions, returns and edits keeps tokens apart and receipts equal to the journal |
| CartCompletionRuns.PostedAtMostOnce | apps/actions/cart.py:411-422 | any calls post a document at most once |
| CartCompletionRuns.PostingWritesTheRows | apps/actions/cart.py:471-529 | one action for each visible row, in order, a sale or a repair by the document, summing to the cart, the token on the first |
| CartCompletionRuns.JournalHoldsOnePosting | apps/actions/cart.py:393-529 | whatever follows, the postings of the document stay those of the first call |
| CartCompletionRuns.PostingTakesTheLines | apps/actions/cart.py:497-500 | every lot loses exactly what the lines of the document say |
| CartCompletionRuns.RetryReturnsThePosting | apps/actions/cart.py:377-390 | a retry writes nothing and returns the same list if and only if no return was recorded since |
| CartCompletionRuns.OtherCallsFail | apps/actions/cart.py:421-422 | once a document is posted and whatever follows, no call writes anything: a known token is answered, every other call fails |
| CartCompletionRuns.ForeignTokenLeavesTheDraft | apps/actions/cart.py:418-420 | a token of another document returns that document's actions and leaves the draft alone |
| CartCompletionRuns.CompletedCartHasItsVersion | apps/actions/cart.py:446-451 | the version in force at completion holds exactly the weights and area the cart showed |
| CartPostingLaws.IssuedIff | apps/sales/services.py:734-738 | whatever the order of the lines, they are issued if and only if each lot named is available and what its lines ask together is at most its quantity less what is reserved |
| CartPostingLaws.CallIsTurnedAwayIff | apps/actions/cart.py:404-442 | each early answer of a call and just when it is given: bad token, used token, closed document, no customer, nothing on lots |
| CartPostingLaws.UnpostedCallWritesNothing | apps/actions/cart.py:392-422 | a call that posts nothing writes nothing |
| CartPostingLaws.ReadyCartIsPostedIff | apps/actions/cart.py:443-500 | a new call on an open cart with a customer posts it if and only if its customs data and sale prices are known and each lot can give what its lines ask; just when data, prices or stock refuse it |
| CartPostingLaws.PostingLeavesTheReserved | apps/sales/services.py:734-738 | after any posting every lot named still holds at least what is reserved there |
| CartPostingLaws.PostingClosesTheDocument | apps/actions/cart.py:453-529 | a posting closes its document with a customer and its lines, of a repair at the current card prices, and touches no other document |
| CustomsRows.CollectLines | apps/actions/customs_history.py:286-344 | one record for each sale and repair line with what its returns left, in chronological order |
| CustomsRows.FoldLines | apps/actions/services.py:1771-1817 | totals and earliest moments by part, version and number, rows sorted stably by moment |
| CustomsRowsLaws.EveryLineHasExactlyOneRow | apps/actions/services.py:1785-1795 | every line with something left lands in one row and no two rows share a key |
| CustomsRowsLaws.QuantityIsConserved | apps/actions/services.py:1785-1795 | row quantities sum to line quantities |
| CustomsRowsLaws.RowCarriesItsEarliestMoment | apps/actions/services.py:1793-1795 | a row carries the least chronological key of its lines |
| CustomsRowsLaws.RowsStandInStrictOrder | apps/actions/services.py:1813-1817 | rows come out strictly increasing by that key |
| CustomsRowsLaws.RowsIgnoreTheOrderOfLines | apps/actions/services.py:1771-1817 | the rows do not depend on the order of the lines |
| CustomsExport.SpellingDoesNotMatter | apps/actions/services.py:864-877 | a space or hyphen anywhere in a manufacturer never changes the group |
| CustomsExport.CaseDoesNotMatter | apps/actions/services.py:864-877 | nor does the case of any of its letters |
| CustomsExport.AssignGroups | apps/actions/services.py:935-942 | every row gets the group of its manufacturer and origin |
| CustomsExport.ExportRows | apps/actions/services.py:1820-1847 | rows of documents and of orders, grouped and merged by moment |
| CustomsExport.GroupRows | apps/actions/services.py:1850-1854 | the rows of one group, or an error for an unknown group |
| CustomsExport.ExportStandsInStrictOrder | apps/actions/services.py:1843-1847 | both sources merge into one strictly chronological list |
| CustomsExport.ExportConservesQuantity | apps/ordered_parts/customs.py:118-166 | everything sold, issued and ordered is in the export once |
| CustomsExport.GroupsPartitionTheExport | apps/actions/services.py:914-928 | each row is in exactly one group, the original one if and only if imported and of BRP or PROX |
| CustomsExport.ExportIgnoresTheOrderOfReading | apps/actions/services.py:1820-1847 | the whole file is the same in whatever order the tables are read |
| CustomsExport.Reconcile | apps/actions/services.py:1919-1957 | no silent line and no difference of totals ever, a duplicate if and only if a line was read twice |
| CustomsExport.NothingIsSilentIff | apps/actions/services.py:1919-1957 | a line is reported as silent if and only if it has something left over and no row |
| CustomsFile.ExportHoldsWhatRemains | apps/actions/customs_history.py:286-344 | said of the tables: the export holds what every sale and repair line issued less its returns, never below zero, and a unit for each order |
| CustomsFile.RowHoldsWhatIsLeft | apps/actions/services.py:1771-1817 | documents give a part, version and number a row if and only if some line of it has more issued than returned, and the row holds all that is left |
| CustomsFile.RowStandsAtItsFirstLine | apps/actions/customs_history.py:59-86 | a row stands no later than any line it holds: by moment, then repairs before sales, then by number of the line |
| CustomsFile.RowStandsAtALine | apps/actions/services.py:1793-1795 | and it stands at one of them |
| CustomsFile.RowHoldsItsOrders | apps/ordered_parts/customs.py:118-166 | orders give a key a row if and only if there is one under it and no filter leaves them out, a unit for each |
| CustomsFile.OrderRowStandsAtItsFirst | apps/ordered_parts/customs.py:143-145 | a row of orders stands no later than any of them |
| CustomsFile.OriginalGroupIff | apps/actions/services.py:864-928 | a row is in the original group if and only if its part was imported and the letters of its manufacturer read BRP or PROX |
| Ordering.StableOrderIsUnique | apps/actions/services.py:1817 | order and stability leave one arrangement, the one the sort returns |
| BrpImporter.CatalogStore.SelectBestRows | apps/brp/importer.py:308-345 | for each material the first row that no other row of it beats, with the counters of the first pass |
| BrpImporter.CatalogStore.Flush | apps/brp/importer.py:247-294 | one chunk against the catalogue as read for the chunk: counters, and writes only on commit |
| BrpImporter.CatalogStore.ImportCatalog | apps/brp/importer.py:390-461 | for every chunk size the one-shot catalogue and counters; the dry run gives the counters of the commit and writes nothing |
| BrpImporter.FlushTwice | apps/brp/importer.py:425-442 | flushing two chunks equals flushing them together |
| BrpImportLaws.EachMaterialTakesItsBestRow | apps/brp/importer.py:194-206 | each material takes the first row that no other row of it beats, a positive wholesale price beating none, then a positive retail price; no other row is that one |
| BrpImportLaws.WholesaleThenRetailThenOrder | apps/brp/importer.py:329-337 | a material with any positive wholesale price is decided by a row that has one, among those alike by one with a retail price, among those alike by the first |
| BrpImportLaws.CurrentSetIsTheFile | apps/brp/importer.py:443-449 | after a commit the current set is exactly the materials of the file |
| BrpImportLaws.FieldsAfterImport | apps/brp/importer.py:213-223 | every material of the file has the fields of its chosen row, every other keeps its own |
| BrpImportLaws.SummaryIsConserved | apps/brp/importer.py:247-345 | scanned rows are empty, duplicate or chosen; chosen ones are created, updated or skipped, each with one price source |
| BrpSummaryLaws.FileCountersAreTrue | apps/brp/importer.py:308-338 | the first pass counts exactly the rows with an unreadable and with a negative price, the rows of a material named before, and those among them that beat all before |
| BrpSummaryLaws.BlockedIff | apps/brp/importer.py:349-354 | a file is kept from being committed if and only if some row of a material has an unreadable or a negative price |
| BrpSummaryLaws.ConflictingIff | apps/brp/importer.py:322-345 | a material conflicts if and only if two of its rows offer different positive prices |
| BrpSummaryLaws.RowIsWritten | apps/brp/importer.py:209-244 | a material is written from its chosen row, to the nearest cent and stamped with the run, if and only if it is new, differs or is not current |
| BrpSummaryLaws.ComparisonIsTrue | apps/brp/importer.py:247-283 | each counter of the second pass is the number of materials it is about: new, outdated, confirmed, revived, repaired, and by source of their price |
| BrpSummaryLaws.ReadingIsTrue | apps/brp/importer.py:412-424 | so are the counters of the chosen rows as read, and the count of each status |
| BrpImportLaws.SecondCommitCountsNothingIff | apps/brp/importer.py:209-210 | a second commit counts no change if and only if the chosen rows fit two decimals |
| BrpImportLaws.SecondCommitWritesNothing | apps/brp/importer.py:247-294 | and then it writes nothing |
| BrpImportLaws.PositivePriceSurvivesIff | apps/brp/importer.py:226-244 | a positive wholesale price survives an import if and only if the chosen row of its material offers no positive price that rounds away |
| BrpImportLaws.PositivePriceStays | apps/brp/importer.py:226-244 | over any series of such imports it stays positive |
| BrpImportLaws.VanishingPriceErasesAKnownPrice | apps/brp/importer.py:226-244 | a concrete file that stores zero over a known price |
| ImportWorkflow.CatalogWorkflow.ReadFingerprint | apps/catalog_import/services.py:88-95 | a check reads the fingerprint first |
| ImportWorkflow.CatalogWorkflow.CompareFile | apps/catalog_import/services.py:96-97 | and compares the file with the catalogue afterwards |
| ImportWorkflow.CatalogWorkflow.SaveVerdict | apps/catalog_import/services.py:107-131 | then saves preview, fingerprint and verdict over whatever the batch holds by then |
| ImportWorkflow.CatalogWorkflow.ApplyBatch | apps/catalog_import/services.py:138-192 | applies a checked batch or refuses it in the order of the code, writing nothing then |
| ImportWorkflow.CatalogWorkflow.RecordApplyFailure | apps/catalog_import/services.py:195-200 | marks the batch failed whatever its status is by then |
| ImportWorkflowRuns.SameFingerprintSameTable | apps/catalog_import/adapters.py:99-113 | equal count and latest update mean that no row was created, changed or deleted |
| ImportWorkflowRuns.RunKeepsSound | apps/catalog_import/services.py:88-200 | every interleaving of the steps of any number of checks, also of one batch, with applies and other writers keeps the invariant of checks and batches |
| ImportWorkflowRuns.ApplySucceedsIff | apps/catalog_import/services.py:157-168 | an apply goes through if and only if file and catalogue are those at the start of the check |
| ImportWorkflowEffects.RefusalIff | apps/catalog_import/services.py:144-170 | an apply is refused for one of four reasons, each just when it holds: not checked, another file, another catalogue, unusable prices |
| ImportWorkflowEffects.ApplyIsRecorded | apps/catalog_import/services.py:169-182 | a batch that is applied is recorded so once more; a refused one changes nothing |
| ImportWorkflowEffects.NewRowsGetNewKeys | apps/catalog_import/services.py:169-170 | a commit keeps the keys of known rows and gives each new row a key of its own that was never used |
| ImportWorkflowEffects.VerdictIsSaved | apps/catalog_import/services.py:106-128 | a saved verdict shows the counters of the dry run and lets the batch be applied if and only if no row of its file has an unusable price |
| ImportWorkflowEffects.FailedCheckIsMarked | apps/catalog_import/services.py:131-135 | a check that ends with an error marks its batch and keeps what an earlier check found |
| ImportWorkflowEffects.FailedApplyIsMarked | apps/catalog_import/services.py:195-200 | a late mark of a failed apply changes the status of its batch and nothing else |
| ImportWorkflowEffects.OtherBatchesAreLeft | apps/catalog_import/services.py:88-200 | no step changes another batch than its own |
| ImportWorkflowEffects.UploadIsStored | apps/catalog_import/services.py:57-85 | an uploaded file is stored with its batch, neither checked nor applied |
| ImportWorkflowEffects.CheckBeginsWithTheFingerprint | apps/catalog_import/services.py:88-95 | a check begins by reading the fingerprint of the catalogue and changes no batch |
| ImportWorkflowEffects.ComparisonIsMadeOnce | apps/catalog_import/services.py:96-97 | it compares its file once, with the catalogue as it is by then, and changes nothing else |
| ImportWorkflowRuns.AppliedCountersArePreviewed | apps/catalog_import/services.py:165-172 | the applied counters and the new catalogue are those of what the check saw |
| ImportWorkflowRuns.CheckSawOneCatalogueIff | apps/catalog_import/services.py:95-97 | a check compares the catalogue it fingerprinted if and only if the fingerprint is still the same by then |
| ImportWorkflowRuns.OneApplyForEachCheck | apps/catalog_import/services.py:144-158 | after a successful apply, and whatever follows short of another saved verdict on the batch, every further apply is refused |
| ImportWorkflowRuns.AppliesNeverExceedChecks | apps/catalog_import/services.py:144-158 | in every run a batch is applied at most as often as it was checked |
| ImportWorkflowRuns.SecondBatchIsRefused | apps/catalog_import/services.py:165-168 | of two batches checked on one state the second is refused once the first changed it |
| ImportWorkflowRuns.PreviewCanSeeARowThatIsGone | apps/catalog_import/services.py:95-97 | a concrete run whose preview and applied counters differ |
| Pricing.RoundedIff | apps/brp/pricing.py:30-45 | the price is the nearest whole rouble to the exact product, a half away from zero, and nothing else is |
| Pricing.PriceIsMonotone | apps/brp/pricing.py:30-45 | a dearer wholesale price never makes a cheaper customer price |
| Pricing.RoundingsAreOneApart | apps/catalog/price_audit.py:153-157 | any floor or ceiling of the exact price is within one rouble of it |
| Pricing.WorkedExamples | apps/brp/pricing.py:11-13 | the three examples of the formula |
| PriceCardLaws.CustomerPriceIff | apps/brp/pricing.py:30-45 | a price is the customer price if and only if it is the nearest whole rouble to dollars times rate times one and the markup |
| PriceCardLaws.SurchargeIff | apps/brp/pricing.py:66-74 | the surcharge is 25 dollars if the status reads VIN in either case and with white space, else nothing |
| PriceCardLaws.EntryIsRefreshedIff | apps/catalog/services.py:229-412 | a refresh is about the rows of the catalogues asked for, all if none is named, and every card no catalogue names |
| PriceRefresh.LinkedPriceRefreshPlan.SetPrice | apps/catalog/services.py:128-140 | price, certificate and basis together, counting exactly what changed |
| PriceRefresh.LinkedPriceRefreshPlan.MarkSourceMissing | apps/catalog/services.py:154-161 | withdraws the certificate, keeps the price, spares a confirmed exception |
| PriceRefresh.LinkedPriceRefreshPlan.PlanBrp | apps/catalog/services.py:250-294 | what one BRP link does to its card and to the counters |
| PriceRefresh.LinkedPriceRefreshPlan.PlanArcticCat | apps/catalog/services.py:198-226 | what one dealer price for a unit does to its card |
| PriceRefresh.PlanRefresh | apps/catalog/services.py:229-339 | the plan over all selected catalogues and unlinked cards, or the unknown catalogues |
| PriceRefresh.ApplyRefresh | apps/catalog/services.py:415-445 | writes the touched cards and reports the number of changed prices |
| PriceRefreshLaws.EachCardByItsRow | apps/catalog/services.py:229-412 | each card is decided by its own row on the value it had before the pass |
| PriceCardLaws.PricedCardIsCertified | apps/catalog/services.py:270-294 | said of the row and the formula: a positive price of the own row is set and certified, one that rounds to nothing is no price |
| PriceCardLaws.UnpricedCardIsMarked | apps/catalog/services.py:254-281 | without a price of its own row: a confirmed exception stays, a manual price is kept unverified, a discontinued part loses its price, any other card keeps it with its source missing |
| PriceCardLaws.PriceIsTakenAwayIff | apps/catalog/services.py:262-269 | a refresh takes a price away if and only if the row is a BRP one no longer current, neither manual nor confirmed |
| PriceCardLaws.OtherCardsAreLeftAlone | apps/catalog/services.py:415-445 | a card no row of the refresh is about is left alone |
| PriceRefreshLaws.OnlyChangedCardsAreWritten | apps/catalog/services.py:434-444 | a card is written if and only if it changes |
| PriceRefreshLaws.RefreshIsIdempotent | apps/catalog/services.py:229-445 | a second plan with the same settings updates no card |
| PriceRefreshLaws.CertificatesAreTrue | apps/catalog/services.py:128-178 | after a refresh of all catalogues every certificate is the current price and rests on the formula |
| PriceRefreshLaws.ConfirmedPriceIsKeptIff | apps/catalog/services.py:180-195 | a price just confirmed as an exception keeps its amount, has no certificate, and survives a refresh unless its row is an aftermarket one with a price |
| PriceRefreshLaws.ConfirmedExceptionsAreKeptIff | apps/catalog/services.py:211-212 | a confirmed exception is kept unless its row is an aftermarket one with a positive price |
| PriceRefreshLaws.AftermarketOverwritesAConfirmedPrice | apps/catalog/services.py:370-384 | a concrete confirmed price that is overwritten |
| PriceRefreshLaws.TheReportIsTrue | apps/catalog/services.py:97-126 | every link is calculated, skipped or left; the reported number is that of changed prices; no manual price is overridden |
| PriceReportLaws.CountersAreTrue | apps/catalog/services.py:97-126 | each counter of a refresh is the number of rows that count under it, by the cards before and after |
| PriceAudit.AuditPrices | apps/catalog/price_audit.py:382-440 | all counters, those of public and of stocked priced cards included, over all catalogues and every card no catalogue names |
| PriceAudit.EveryCardIsAuditedOnce | apps/catalog/price_audit.py:382-440 | each card is audited once and counted in its category, in each of the three tallies |
| PriceReportLaws.UnpricedRowIsJudged | apps/catalog/price_audit.py:135-147 | a card without catalogue is not judged, one whose row has no price to go by is missing its source |
| PriceReportLaws.PricedRowIsJudged | apps/catalog/price_audit.py:135-164 | any other card falls in its category if and only if its price stands so to the whole roubles of the formula, within one rouble being rounding |
| PriceReportLaws.TalliesAreTrue | apps/catalog/price_audit.py:421-432 | over all cards, the priced ones on the site and those of them in stock, the report counts how many there are and how many of each category |
| PriceReportLaws.AuditCountersAreTrue | apps/catalog/price_audit.py:405-440 | the audit counts the rows whose card was met before and the positive prices nothing vouches for |
| PriceAudit.RefreshedCardsMatch | apps/catalog/price_audit.py:135-164 | whichever catalogues a refresh chose, each card it worked a price out for is an exact match afterwards |
| PriceAudit.CalculatedAreCounted | apps/catalog/price_audit.py:135-164 | so the audit counts at least as many exact matches as prices were calculated |
| PriceAudit.RoundingIsNeverAMismatch | apps/catalog/price_audit.py:153-157 | a positive price that is any rounding of the exact one is never a mismatch |
| PriceAudit.BorrowedPriceIsExpectedButNeverSet | apps/catalog/price_audit.py:179-245 | on the refreshed card: a price is expected and not set if and only if the row borrows it; such a card keeps its price, any other with an expected price is an exact match |
| PriceAudit.RefreshLeavesAPriceMissing | apps/catalog/services.py:270-281 | whatever the rate and the markup, a concrete shop whose refresh leaves without a price a card the audit expects one of |
| PhotoCard.PartPhotoCard.PublishPhoto | apps/catalog/public_photos.py:210-270 | publishes one active image within the limit, or says why not and changes nothing |
| PhotoCard.PartPhotoCard.RejectPhoto | apps/catalog/public_photos.py:274-289 | withholds one image and promotes the next primary |
| PhotoCard.PartPhotoCard.SetPublicPrimaryPhoto | apps/catalog/public_photos.py:301-310 | makes a published photo the only primary |
| PhotoCard.PartPhotoCard.PromoteNextPrimary | apps/catalog/public_photos.py:193-206 | gives the lead to the first published photo when nobody leads |
| PhotoCard.PartPhotoCard.AddPhoto | apps/core/images.py:11-16 | adds an internal photo, the main one if no other is active |
| PhotoCard.PartPhotoCard.SetMainPhoto | apps/core/images.py:19-27 | makes an active image the only main one and ignores an inactive one |
| PhotoCard.PartPhotoCard.DeletePhoto | apps/catalog/part_views.py:393-402 | takes an image off the card, hands on the main flag and withdraws the public copy |
| PhotoCard.PartPhotoCard.UploadPrimaryPhoto | apps/catalog/photo_pipeline.py:30-89 | the first photo of a part, refused when there is any |
| PhotoCard.PartPhotoCard.UploadAdditionalPhoto | apps/catalog/photo_pipeline.py:103-154 | appends and publishes one photo or rolls back |
| PhotoCard.PartPhotoCard.ReplacePhoto | apps/catalog/photo_pipeline.py:158-255 | all steps of a replacement in their order, or a rollback |
| PartPhotosLaws.RunKeepsSound | apps/catalog/public_photos.py:193-310 | after any run at most eight published, one public primary if and only if any, at most one main image, no copy without its active source |
| PhotoEffects.RunKeepsMain | apps/core/images.py:11-38 | after any run a card that has photos has a main one |
| PhotoEffects.AddedImageIsOnTheCard | apps/core/images.py:11-16 | an internal photo is added to the card, shown to nobody, and the main one if and only if the card was empty |
| PhotoEffects.PublicationSucceedsIff | apps/catalog/public_photos.py:210-240 | a publication goes through, or is refused for each of its reasons, just when the image is there, on the card, within the limit of eight and readable |
| PhotoEffects.PublicationShows | apps/catalog/public_photos.py:241-270 | it shows that image besides those shown before, and the image leads only if nothing was shown |
| PhotoEffects.RejectionHides | apps/catalog/public_photos.py:274-289 | a rejection hides that image and no other; if it led, the first of the others by sort order leads now |
| PhotoEffects.ChosenPhotoLeads | apps/catalog/public_photos.py:301-310 | a shown photo that is chosen leads alone and the same photos stay shown; nothing else changes anything |
| PhotoEffects.FirstPhotoIsPublished | apps/catalog/photo_pipeline.py:30-89 | the first photo is accepted if and only if the part has none, and is at once main, shown and leading |
| PhotoEffects.AddedPhotoIsShown | apps/catalog/photo_pipeline.py:103-154 | one more photo is accepted if and only if a public place is free, and is shown besides the others |
| PhotoEffects.ReplacementShows | apps/catalog/photo_pipeline.py:234-247 | a replacement shows the new photo for its target, leading if its target did or nobody was shown |
| PhotoEffects.DeletionTakesOff | apps/catalog/part_views.py:393-402 | a deleted photo is off the card and the page; if it was the main one, the first of the others on the card is now |
| PhotoEffects.ChosenImageIsMain | apps/core/images.py:19-27 | a chosen active image becomes the only main one; an inactive one changes nothing |
| PartPhotosRuns.AppendedPhotoIsLast | apps/catalog/photo_pipeline.py:121-136 | an added photo stands behind all others on the card |
| PartPhotosLaws.AppendedPhotoIsLastOnThePage | apps/catalog/photo_pipeline.py:119-150 | and behind all others on the public page |
| PartPhotosLaws.ReplaceKeepsTheOrder | apps/catalog/photo_pipeline.py:224-232 | the card keeps its order with only the target substituted |
| PartPhotosLaws.ReplaceKeepsTheMainImage | apps/catalog/photo_pipeline.py:199-214 | the replacement is the main image if its target was, every other flag stays |
| PartPhotosLaws.ReplacementTakesOverThePage | apps/catalog/photo_pipeline.py:240-247 | the replacement of the leading photo leads the page and its target is no longer public |
| PartPhotosLaws.ReplaceSucceedsIff | apps/catalog/photo_pipeline.py:158-255 | a replacement goes through if and only if the target is on the card, the file is good and a public place is free |
| PartPhotosLaws.FullPageCannotBeReplaced | apps/catalog/photo_pipeline.py:234-247 | a concrete part with eight published photos that refuses a replacement |
| PartPhotosLaws.PublicPage | apps/catalog/public_photos.py:98-106 | the page shows every published photo, the primary one first and no other primary, the rest in the order of the card |
| SearchMerge.TieredSearch.Take | apps/catalog/search.py:364-378 | takes answers in order, each part once, until the list is full |
| SearchMerge.SearchPartIds | apps/catalog/search.py:345-428 | the twelve tiers with their floors, skipped once the list is full |
| SearchMerge.SearchParts | apps/catalog/search.py:431-451 | the slice, the total and the flags of one page |
| SearchMerge.PagesLieEndToEnd | apps/catalog/search.py:443-445 | pages laid end to end are the beginning of the list |
| SearchMergeLaws.SizesAreKeptWithin | apps/catalog/search.py:355-441 | what is asked for is kept within one and 300 parts, and one and 50 on a page, 20 when nothing is asked |
| SearchMergeLaws.SearchIsRanked | apps/catalog/search.py:348-350 | different parts, ranks never lowered, at most the limit |
| SearchMergeLaws.EachPartKeepsItsBestTier | apps/catalog/search.py:348-350 | a hit carries the rank of the first tier that returned its part |
| SearchMergeLaws.ReturnedIff | apps/catalog/search.py:382-428 | for each of the ten ranks: its tiers return a part if and only if the rule of that rank holds, by number, article, name, words or likeness and its least length |
| SearchMergeLaws.HitStandsAtItsFirstRank | apps/catalog/search.py:345-428 | a hit stands at the first rank whose rule its part meets |
| SearchMergeLaws.EveryAnswerIsListed | apps/catalog/search.py:370-428 | a search that is not full lists every part that meets the rule of any rank |
| SearchMergeLaws.CuttingLosesNothingIff | apps/catalog/search.py:170-180 | leaving off the rest of a tier changes nothing if and only if the list is full or the rest names no new part |
| SearchLimitLaws.SkippedTiersMakeNoDifference | apps/catalog/search.py:387-389 | over any tiers and answers, asking the tiers below a full list all the same would give the same list |
| SearchLimitLaws.NamesCutIff | apps/catalog/search.py:206-224 | cutting both name answers before merging gives the first names of the whole merge if and only if each of those names stands among the first of its own answer |
| SearchLimitLaws.UncutNamesAreEarly | apps/catalog/search.py:214-224 | answers that fit the limit meet that condition in any order |
| SearchLimitLaws.AscendingNamesAreEarly | apps/catalog/search.py:214-224 | answers read by primary key meet it at any length |
| SearchLimitLaws.TierLosesNothingIff | apps/catalog/search.py:370-380 | for any list and any query the limit of the query loses nothing if and only if the new parts that would fill the list are among those fetched |
| SearchLimitLaws.LimitedSearchIsTheWholeSearchIff | apps/catalog/search.py:382-428 | the limited search is all tiers laid end to end, first occurrences kept and cut, if and only if every asked tier fetches enough; what one tier loses no later one makes up |
| SearchLimitLaws.SearchIsTheWholeSearchIff | apps/catalog/search.py:345-428 | the same for a request over the twelve tiers, the name queries followed by one of their own rank reading unique keys |
| SearchLimitLaws.LimitedSearchIsTheWholeSearch | apps/catalog/search.py:382-428 | answers that repeat nothing, fit the limit or have early names make every such search whole |
| SearchLimitLaws.RepeatedNumbersHideAPart | apps/catalog/search.py:161-180 | a concrete two-character request for two parts that returns one of two |
| SearchLimitLaws.NamesReadByNameMissTheFirst | apps/catalog/search.py:206-224 | a concrete request for one part that returns another than the whole search |
| PublicCatalog.SearchCatalog | apps/catalog/public_catalog.py:438-472 | ranking, filtering, the page asked for and the facets of one request |
| PublicCatalog.CountFacets | apps/catalog/public_catalog.py:292-310 | counts for each option with every other filter applied |
| PublicCatalog.RankingKeepsTheHits | apps/catalog/public_catalog.py:235-247 | the list is a permutation of the visible hits |
| PublicCatalog.AvailabilityLeadsWithinExactness | apps/catalog/public_catalog.py:218-247 | exact articles first, then what is in stock |
| PublicCatalog.VisibleIff | apps/catalog/public_catalog.py:234-246 | the ranked parts are the visible hits, ranks one and two counting as exact and anything left in stock as available |
| PublicCatalog.TheRankingIsTheOnlyOne | apps/catalog/public_catalog.py:223-236 | ties keep search order, and no other arrangement has these properties |
| PublicCatalog.PagesAreTheWholeList | apps/catalog/public_catalog.py:450-453 | the pages concatenate to the whole matched list |
| PublicCatalog.ListedIff | apps/catalog/public_catalog.py:447-449 | a part is listed if and only if a hit names it, its card is visible and every filter that is set holds of it |
| PublicCatalog.MatchedKeepsOrder | apps/catalog/public_catalog.py:449 | filtering keeps the order of the ranking |
| PublicCatalog.NoPageIsEmpty | apps/catalog/public_catalog.py:450-452 | there is one page, or as many as it takes and none empty |
| PublicCatalog.TotalIsWhatPasses | apps/catalog/public_catalog.py:449-450 | the total is the number of visible parts that pass the filters |
| PublicCatalog.ApplicationCountIsTheTotal | apps/catalog/public_catalog.py:299-301 | the count beside an application is the total its choice would give |
| PublicCatalog.RelationAndStockCountsAreTheTotals | apps/catalog/public_catalog.py:304-308 | so are the counts beside the relations and the stock box |
| PublicCatalog.ManufacturerCountsAreTheTotal | apps/catalog/public_catalog.py:302-303 | the counts of the spellings of a name add up to the total its choice would give |
| AnalogImport.BuildIndex | apps/catalog_import/analog_catalog.py:261-281 | each searched number with the parts that have it, each part once |
| AnalogImport.AnalogFile.ResolveRow | apps/catalog_import/analog_catalog.py:399-481 | reuse, creation or attention, in the order of the code |
| AnalogImport.AnalogFile.ApplyRows | apps/catalog_import/analog_catalog.py:534-612 | decisions, parts, links, index and counters of a whole file |
| AnalogImportLaws.IndexIsAlwaysUpToDate | apps/catalog_import/analog_catalog.py:250-296 | after every row the index agrees with one rebuilt from the tables and decides the next row alike |
| AnalogImportLaws.AgreeingIndexesDecideAlike | apps/catalog_import/analog_catalog.py:309-337 | a decision depends on which parts are indexed, not on their order |
| AnalogImportLaws.NoAnalogIsGuessed | apps/catalog_import/analog_catalog.py:440-457 | a part is reused only if it alone matches under the row's article, created only if none does |
| AnalogImportLaws.NoOriginalIsGuessed | apps/catalog_import/analog_catalog.py:459-475 | the original is a candidate other than the analog, and any other candidate is itself recorded as an analog |
| AnalogFileLaws.RowIsDecidedIff | apps/catalog_import/analog_catalog.py:399-481 | from the tables alone: a row is given a part, or creates one, if and only if it is readable, exactly one part matches, or none, and there is one original: the only other candidate, or the only one not itself an analog |
| AnalogFileLaws.RowWithoutArticleIsDecidedIff | apps/catalog_import/analog_catalog.py:399-481 | a row without an article for its part never finds one; it creates it if and only if it is readable and there is one original |
| AnalogFileLaws.ProblemIff | apps/catalog_import/analog_catalog.py:405-430 | each thing that makes a row unreadable, in the order it is looked for |
| AnalogFileLaws.CollapsedIsItsWords | apps/catalog_import/analog_catalog.py:405 | names and makers are read as their words with one space between them |
| AnalogImportLaws.CreationKeepsAgreementIff | apps/catalog/services.py:605-612 | a creation keeps the agreement if and only if the article reads the same once cut to its column |
| AnalogImportLaws.SecondRunCreatesNoPartAgain | apps/catalog_import/analog_catalog.py:553-578 | a row whose part the first run found or created creates none in a second run |
| AnalogImportLaws.SecondRunCreatesNothing | apps/catalog_import/analog_catalog.py:534-612 | when every row took, running the file again creates no part |
| AnalogImportLaws.PrefixKeepsAll | apps/catalog/services.py:641-705 | over any rows links never join a part to itself nor record one fact from both sides, and the index keeps agreeing |
| AnalogFileLaws.EveryRowIsCounted | apps/catalog_import/analog_catalog.py:542-608 | every row is linked, found linked already, or skipped |
| AnalogFileLaws.SummaryIsTrue | apps/catalog_import/analog_catalog.py:534-612 | the summary counts exactly the parts and links the file added and the rows that found their part |
| AnalogFileLaws.NoLinkIsInvented | apps/catalog_import/analog_catalog.py:542-606 | every link a file adds joins an original one of its rows is about with the part that row describes, found or new, under the relation of the row |
| AnalogFileLaws.EveryRowIsLinked | apps/catalog_import/analog_catalog.py:542-606 | every row that is not skipped has such a link in the tables at the end |
| AnalogFileLaws.TakenRowIsSkippedIff | apps/catalog/services.py:641-705 | once its parts are known a row is skipped if and only if the same fact is recorded from the other side |
| AnalogFileLaws.PartIsCreatedIff | apps/catalog/services.py:569-640 | a part is created unless its barcode is taken or there is no unit, and takes its barcode |
| AnalogColumns.NewPartMatchesItsRowIff | apps/catalog/services.py:569-587 | for every folding that tells a text from a proper beginning of it, a created part matches its own row if and only if name and maker fit their columns |
| AnalogColumns.CreatesIff | apps/catalog_import/analog_catalog.py:399-481 | whatever the tables hold, a row creates a part if and only if it is readable, none matches and one original is found |
| AnalogColumns.SecondRunCreatesAgainIff | apps/catalog_import/analog_catalog.py:534-612 | a second run of a one-row file creates its part again if and only if a name was cut, no barcode stands in the way and one original is found |
| AnalogColumns.CutNamesAreCreatedAgainIff | apps/catalog_import/analog_catalog.py:534-612 | with different articles the original is always found again, so only the lengths and the barcode decide |
| AnalogColumns.LongNameIsCreatedAgain | apps/catalog/services.py:585-587 | a concrete file, folded as the Latin letters are, whose second run creates its part again |
| AnalogColumns.LongArticleIsLostToTheIndex | apps/catalog/services.py:604-612 | a concrete creation after which the index no longer agrees with the tables |

## Left out

* Views, forms, permissions, pages and templates; Excel, Pillow, file storage, the AI provider: calls of
  foreign code. The model starts from parsed rows, decoded answers and the verdict on an uploaded file.
* ORM mechanics, SQL, indexes and locks: a locked transaction is one step, and a query is a function of
  the tables.
* Moments within one transaction are one or two readings of a clock that never runs back; time zones and
  the date of the local day are parameters.
* Unicode folding, trigram similarity and the text of the search queries: a tier is a given sequence and
  case folding a given function.
* Decimal context precision (28 digits) and values too large for their columns; text truncation outside
  the analog import.
* The single-position quick action (`perform_action`): one document with one row; its split is the one
  modelled here.
* Sales, repairs, inventory and returns are taken at their contracts: a lot line is issued when its lot is
  available and holds enough; serial items, reservations and the status of an emptied lot are not
  modelled.
* Support tickets, image attachments, conversation titles and the texts of messages; the owner of a
  conversation never changes.
* Bookkeeping fields that the code does not have: which question an answer belongs to, the actions a
  posting wrote, what a check read, how often a batch was checked and applied.
* Primary keys of new rows are larger than all earlier ones; within one part or one catalogue only their
  order is modelled.
* The refresh of recommended prices inside a BRP commit, and two counters of its summary that the importer
  never raises.
* Cards linked to two catalogues at once in the price refresh; which row a replacement chain leads to is a
  datum of the link.
* The detail rows of the price audit and its counts by catalogue.
* Translation and completeness of customs text fields; filters of the customs history; amounts in roubles.
* The dry run of a check reads the catalogue in one step, where the code reads it chunk by chunk.
* The preview of the analog import (`build_plan`), barcodes longer than their column, and evidence rows of
  links.
* Ties between photos with equal sort order and upload time are broken by primary key when the main image
  is handed on, where the code leaves them to the database.
* PublicCatalog.SearchCatalog: does not model how request parameters are cleaned, nor the order and
  selection marks of facet options.
* CustomsRows.CollectLines: does not model the date, document and text filters; the documents given are
  those the filters let through.
* CustomsExport.Reconcile: does not compare amounts, the flags of complete customs data or the totals of
  the report; it compares lines and quantities.
