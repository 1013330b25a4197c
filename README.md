# PLM customizations: a verified model

This project models the product-lifecycle layer that the PLM customizations app adds to an ERP system's Items and BOMs (bills of materials).

- **Versions and status.** Every Item and BOM carries a version number (`current_version`) and a status (`plm_status`: Draft, Published or Blocked). Publishing, saving as draft and blocking each write a versioned snapshot record (Item Version / BOM Version). Publishing and saving as draft need an Engineering Change Notice (ECN); blocking does not.
- **Work Orders.** A Work Order may only be created from a published, active BOM. It pins the BOM's version and snapshot. Blocking the BOM stops submission, Job Cards, manufacturing Stock Entries and operations.
- **Around that core:**
  - automatic item codes built from two category codes and a running sequence;
  - the Document hooks that link attachments to Items;
  - the ECN form and its list of linked versions;
  - the workspace visibility of the Mechanical Engineer role;
  - the order Gantt data;
  - the labels and colours the Item and BOM forms show.

Each source module has its own Dafny module.

- **Shared modules:**
  - `Records`: documents as maps from field names to scalars or tables;
  - `VersionRules`: the version arithmetic and the status machine;
  - `SnapshotCodec`: snapshot capture and restore;
  - `DiffEngine`: version comparison.
- **One module each:** `BomVersion`, `ItemVersion`, `WorkOrderVersion`, `GanttData`, `ItemNaming`, `DocumentEvents`, `Ecn`, `Setup` and `ClientLabels`.

The database is modelled as state. `BomVersion.BomStore` and `ItemVersion.ItemStore` are classes whose `map` fields hold the live records and the version records. Their methods update those fields under `modifies` clauses and keep the invariant `Valid()`: every version record belongs to a live record. `DocumentEvents.ItemDocuments` holds the Items with their document lists; its hooks keep its `Valid()` (no Item links the same Document twice) whenever it held before the call. `ItemNaming.ItemForm`, `DocumentEvents.DocumentForm`, `Ecn.EcnForm`, `WorkOrderVersion.WorkOrderForm` and `Setup.Workspaces` are classes with `modifies` clauses on their methods and no invariant beyond their fields. Pure lookups, gates and formatting are functions.

The session user, the clock, the role set of the current user and the results of database queries are parameters. Examples are the work-order references of `delete_bom`, the last item code of `get_next_sequence` and the purchase, work and sales orders of the Gantt chart.

The docstrings of `restore_bom_version` (plm_customizations/api/bom_version.py:614-617) and `restore_version` (plm_customizations/api/item_version.py:493-497) say a restore creates a new version with the restored data. The code does not do that, and the model follows the code; see "## Findings".

## Model

| member | source | states |
|---|---|---|
| Records.VersionOf | plm_customizations/api/bom_version.py:200 | `current_version or 0`: a positive integer is read as itself; anything else reads as 0 |
| Records.RawStatus | plm_customizations/api/bom_version.py:201 | the status text is `plm_status or "Draft"`, never empty |
| Records.StatusOf | plm_customizations/api/bom_version.py:201-204 | the decoded status is Published exactly when the text is "Published", and Blocked exactly when it is "Blocked"; a written status reads back as written |
| Records.WrittenFieldsReadBack | plm_customizations/api/bom_version.py:248-256 | a status, version, text or flag written into a record reads back as the value written |
| Records.SortedDescending | plm_customizations/api/bom_version.py:579-584 | the version numbers listed `order_by version desc` are strictly decreasing and are exactly the given set |
| Records.MaxOf | plm_customizations/api/bom_version.py:579-584 | a non-empty set of versions has a member no smaller than any other |
| VersionRules.PublishVersion | plm_customizations/api/bom_version.py:200-212 | the new version is at least 1 and rises by exactly one iff the status was Published or the version was 0; otherwise it stays |
| VersionRules.DraftVersion | plm_customizations/api/bom_version.py:411-420 | save-as-draft picks the same version as publish |
| VersionRules.BlockVersion | plm_customizations/api/bom_version.py:283-286 | block keeps a positive version and turns 0 into 1 |
| VersionRules.UnblockVersion | plm_customizations/api/bom_version.py:347 | unblock targets the record of `current_version or 1`, as block does |
| VersionRules.Step | plm_customizations/api/bom_version.py:178-387 | each action sets its status (Publish, Unblock → Published; SaveDraft, SetDraft → Draft; Block → Blocked); unblock and set-as-draft keep the version |
| VersionRules.RunNeverLowersVersion | plm_customizations/api/bom_version.py:178-469 | no sequence of publish/draft/block/unblock/set-draft actions lowers the version |
| VersionRules.RunRaisesVersionAtMostOncePerAction | plm_customizations/api/bom_version.py:178-469 | a run of n actions raises the version by at most n |
| VersionRules.StepIncrementsOnlyFromPublishedOrZero | plm_customizations/api/bom_version.py:204-212 | an action raises the version only by one, and only from Published or from version 0 |
| VersionRules.PublishDraftBlockUnblockRun | plm_customizations/api/bom_version.py:178-387 | from a new record: publish gives v1 Published, publish again v2, save as draft v3 Draft, block v3 Blocked, unblock v3 Published |
| VersionRules.WithStatus | plm_customizations/api/bom_version.py:370-387 | setting the status changes that field only; the version is kept |
| VersionRules.PublishRecord | plm_customizations/api/bom_version.py:213-241 | the published record holds the snapshot, user, time and ECN; an existing record keeps its notes when no new notes are given |
| VersionRules.DraftRecord | plm_customizations/api/bom_version.py:422-450 | the draft record holds the snapshot and ECN; a new record's notes default to "Saved as draft" |
| VersionRules.BlockRecord | plm_customizations/api/bom_version.py:288-314 | the blocked record has notes defaulting to the block note and keeps an existing record's ECN |
| VersionRules.ReplaceKeepsConsistent | plm_customizations/api/bom_version.py:248-256 | overwriting a live record keeps every version record owned by a live record |
| VersionRules.VersionWriteKeepsConsistent | plm_customizations/api/bom_version.py:213-256 | writing an existing live record together with a version record of its own keeps every version record owned by a live record |
| VersionRules.HistoryEntryOf | plm_customizations/api/bom_version.py:586-594 | an entry carries the record's version, status, notes and ECN; the ECN number and title are shown iff the ECN is set and exists; the same rule serves the Item history at plm_customizations/api/item_version.py:421-428 |
| VersionRules.History | plm_customizations/api/bom_version.py:571-596 | the history lists each of the owner's versions exactly once, highest first, each with its entry; it models both `get_bom_version_history` and the Item's `get_version_history` (plm_customizations/api/item_version.py:405-430) |
| VersionRules.CurrentVersionEcn | plm_customizations/api/bom_version.py:687-710 | an ECN is offered iff the live record is Draft with a version above 0 and that version's record has an ECN, and it is that ECN; it models both `get_current_bom_version_ecn` and the Item's `get_current_version_ecn` (plm_customizations/api/item_version.py:661-685) |
| SnapshotCodec.Capture | plm_customizations/api/bom_version.py:7-19 | the snapshot is the record without the system keys, every other field unchanged |
| SnapshotCodec.StripRow | plm_customizations/api/bom_version.py:657-659 | a restored row loses exactly its identity keys |
| SnapshotCodec.StripRows | plm_customizations/api/bom_version.py:656-660 | every row of a restored table is stripped, in order |
| SnapshotCodec.Restored | plm_customizations/api/bom_version.py:643-661 | listed child tables come from the snapshot with rows stripped; other snapshot scalars overwrite existing fields outside the exclusions; everything else is kept |
| SnapshotCodec.Restore | plm_customizations/api/bom_version.py:643-661 | the two restore loops compute `Restored` |
| SnapshotCodec.RestoreOwnCaptureKeepsScalars | plm_customizations/api/bom_version.py:643-661 | restoring a record's own snapshot leaves its scalar fields as they were |
| SnapshotCodec.CaptureAfterRestore | plm_customizations/api/bom_version.py:643-666 | after a restore, and before the host re-sets row identity on save, the snapshot of the record holds every restored scalar with the snapshot's value and every restored table with the snapshot's rows stripped of their identity keys |
| SnapshotCodec.RestoreIdempotent | plm_customizations/api/bom_version.py:643-661 | restoring the same snapshot twice gives what restoring once gave |
| DiffEngine.ChangedKeys | plm_customizations/api/bom_version.py:742-755 | a key is reported iff it is in either version, not excluded, and its values differ |
| DiffEngine.CompareFields | plm_customizations/api/bom_version.py:746-755 | the field differences name exactly the changed keys, each once, with both values |
| DiffEngine.ChangedKeysEmptyIff | plm_customizations/api/bom_version.py:742-755 | no field differences iff the versions agree outside the exclusions; comparison is symmetric and a version equals itself |
| DiffEngine.NoFieldsIffEmpty | plm_customizations/api/bom_version.py:746-755 | the difference list is empty iff it names no field |
| DiffEngine.KeyedRows | plm_customizations/api/bom_version.py:759-760 | the rows keyed by `item_code` hold every key present, each mapped to a row with that key |
| DiffEngine.KeyedRowsLastWins | plm_customizations/api/bom_version.py:759-760 | when keys repeat, the last row with a key is the one kept |
| DiffEngine.CompareKeyed | plm_customizations/api/bom_version.py:762-772 | added rows, removed rows and changed rows are exactly the keys only in the second, only in the first, and in both with different rows |
| DiffEngine.CompareKeyedSelfIsEmpty | plm_customizations/api/bom_version.py:762-772 | a version compared with itself has no added, removed or changed rows |
| DiffEngine.NoKeysIffEmpty | plm_customizations/api/bom_version.py:762-772 | a row list is empty iff it names no key |
| BomVersion.HasBomPublishPermission | plm_customizations/api/bom_version.py:94-100 | permitted iff the user holds System Manager, Manufacturing Manager or Mechanical Engineer |
| BomVersion.PublishedBom | plm_customizations/api/bom_version.py:248-256 | a published BOM is Published at the new version, active, default, with the ECN, date and user; no other field changes |
| BomVersion.DraftedBom | plm_customizations/api/bom_version.py:452-461 | a drafted BOM is Draft at the new version, active, not default, with the ECN; no other field changes |
| BomVersion.BlockedBom | plm_customizations/api/bom_version.py:316-324 | a blocked BOM is Blocked, neither active nor default; no other field changes |
| BomVersion.UnblockedBom | plm_customizations/api/bom_version.py:355-360 | an unblocked BOM is Published, active and default at the same version |
| BomVersion.ConvertedBom | plm_customizations/api/bom_version.py:488-498 | a converted BOM is back at docstatus 0 and active; an unset or Draft status becomes Published, any other status is kept |
| BomVersion.LiveWritesFollowVersionRules | plm_customizations/api/bom_version.py:178-387 | every live-BOM write moves (status, version) exactly as `VersionRules.Step` does |
| BomVersion.VersionsWithout | plm_customizations/api/bom_version.py:534-539 | deleting BOMs removes exactly their version records |
| BomVersion.VersionsWithoutTwice | plm_customizations/api/bom_version.py:550-567 | deleting BOMs one after another removes the union of their records |
| BomVersion.ChildRow | plm_customizations/api/bom_version.py:133-166 | an inserted item or operation row has its parent, index and the given values, with the source's defaults (qty 1, rate 0, amount 0, time 0, cost 0) |
| BomVersion.InsertRows | plm_customizations/api/bom_version.py:133-147 | one inserted row per given row, numbered from 1 in order |
| BomVersion.InsertedRowsNumbered | plm_customizations/api/bom_version.py:127-167 | the rows left are numbered 1..n without gaps and belong to the BOM |
| BomVersion.ApplyBasicFields | plm_customizations/api/bom_version.py:121-125 | each basic field present and not None in the change set is written; nothing else changes |
| BomVersion.ReplaceLines | plm_customizations/api/bom_version.py:127-167 | a table given as a list of rows is replaced by the numbered rows; a truthy value that is not a list is refused |
| BomVersion.ApplyChanges | plm_customizations/api/bom_version.py:104-174 | save_bom_changes writes only the basic fields, items and operations, keeps the PLM status and version, and fails iff a table value is malformed |
| BomVersion.RestoreKeepsPlmState | plm_customizations/api/bom_version.py:637-661 | a restore never changes the BOM's version, status, docstatus, `bom_published_date` or `bom_published_by`, nor any other key it excludes |
| BomVersion.BomStore.Publish | plm_customizations/api/bom_version.py:178-264 | no permission, no ECN or a missing BOM change nothing; otherwise the BOM goes to `PublishVersion` and its record is written as published |
| BomVersion.BomStore.SaveAsDraft | plm_customizations/api/bom_version.py:391-469 | the same guards; otherwise the BOM goes to `DraftVersion` as Draft and its record is written as draft |
| BomVersion.BomStore.Block | plm_customizations/api/bom_version.py:268-332 | no ECN is asked; the BOM goes to `BlockVersion`, Blocked, and its record is written with note "BOM blocked" by default |
| BomVersion.BomStore.Unblock | plm_customizations/api/bom_version.py:336-366 | the BOM becomes Published at the same version; the record of `current_version or 1` is marked Published if it exists |
| BomVersion.BomStore.SetAsDraft | plm_customizations/api/bom_version.py:370-387 | only the status becomes Draft; a missing BOM is silently skipped |
| BomVersion.BomStore.ConvertToPlmMode | plm_customizations/api/bom_version.py:473-509 | refused without permission, for a missing BOM or one not submitted; otherwise the BOM becomes `ConvertedBom` |
| BomVersion.BomStore.SaveChanges | plm_customizations/api/bom_version.py:104-174 | an empty change set changes nothing; otherwise a permitted user's changes are applied as `ApplyChanges` states |
| BomVersion.DeleteVerdict | plm_customizations/api/bom_version.py:513-546 | the delete is refused without permission, for a missing BOM, or while a Work Order that is not cancelled uses it |
| BomVersion.BomStore.Delete | plm_customizations/api/bom_version.py:513-546 | on success the BOM and all its version records are gone; on failure nothing changes |
| BomVersion.BulkDeleteRun | plm_customizations/api/bom_version.py:550-567 | each name meets `delete_bom` in turn against the BOMs left by the earlier names; one entry per name |
| BomVersion.BulkDeletePartition | plm_customizations/api/bom_version.py:550-567 | the deleted names and the failed names together are the given names, with their multiplicities |
| BomVersion.BulkDeleteSafe | plm_customizations/api/bom_version.py:513-567 | only existing BOMs with no open Work Order are deleted, by a permitted user, each at most once; the BOMs left are exactly the others |
| BomVersion.BulkDeleteComplete | plm_customizations/api/bom_version.py:513-567 | for a permitted user, every given name of an existing BOM with no open Work Order is deleted |
| BomVersion.BulkDeleteErrors | plm_customizations/api/bom_version.py:513-567 | a failure is NoPermission iff the user lacks the role; LinkedToWorkOrders only for an existing BOM with an open Work Order; BomNotFound only for a missing BOM or a name deleted earlier in the list |
| BomVersion.BomStore.BulkDelete | plm_customizations/api/bom_version.py:550-567 | the deleted and failed lists and the new BOMs are those of `BulkDeleteRun`; exactly the deleted BOMs and their records are removed |
| BomVersion.BomStore.VersionData | plm_customizations/api/bom_version.py:600-610 | the stored snapshot of a record, none when the record or its data is missing |
| BomVersion.BomStore.Compare | plm_customizations/api/bom_version.py:714-779 | missing versions and missing data are reported; when both records exist with data the comparison succeeds, the field and item differences are exactly those between the two snapshots, and empty for equal versions |
| BomVersion.BomStore.RestoreSnapshot | plm_customizations/api/bom_version.py:643-666 | the live BOM becomes `Restored` of the snapshot; versions unchanged |
| BomVersion.BomStore.Restore | plm_customizations/api/bom_version.py:614-683 | as written: guards first, then the snapshot is restored onto the BOM and the nested save as draft fails for want of an ECN, leaving no new version |
| BomVersion.BomStore.RestoreAsDraft | plm_customizations/api/bom_version.py:614-683 | corrected: with an ECN, the restored BOM is saved as a new Draft version whose record holds the restored snapshot; failures change nothing |
| BomVersion.BomStore.RestoreThenDraft | plm_customizations/api/bom_version.py:666-669 | the restore write followed by a save as draft |
| ItemVersion.HasPublishPermission | plm_customizations/api/item_version.py:483-489 | permitted iff the user holds System Manager, Item Manager, Stock Manager or Mechanical Engineer |
| ItemVersion.EntryFor | plm_customizations/api/item_version.py:7-31 | a link row yields an entry iff it names an existing Document, and the entry carries that Document's fields |
| ItemVersion.DocumentSnapshot | plm_customizations/api/item_version.py:7-31 | at most one entry per link row, each naming an existing Document |
| ItemVersion.DocumentSnapshotSound | plm_customizations/api/item_version.py:7-31 | every entry comes from some link row |
| ItemVersion.DocumentSnapshotComplete | plm_customizations/api/item_version.py:7-31 | every link row naming an existing Document has its entry |
| ItemVersion.SnapshotDocuments | plm_customizations/api/item_version.py:19-29 | the loop computes `DocumentSnapshot` |
| ItemVersion.PublishedItem | plm_customizations/api/item_version.py:176-183 | a published Item is Published at the new version with the ECN, date and user; no other field changes |
| ItemVersion.DraftedItem | plm_customizations/api/item_version.py:386-393 | a drafted Item is Draft at the new version with the ECN; no other field changes |
| ItemVersion.BlockedItem | plm_customizations/api/item_version.py:250-256 | a blocked Item is Blocked; its current ECN is left as it was |
| ItemVersion.LiveWritesFollowVersionRules | plm_customizations/api/item_version.py:105-314 | every live-Item write moves (status, version) exactly as `VersionRules.Step` does |
| ItemVersion.CanView | plm_customizations/api/item_version.py:448-460 | publishers see every Item; other users see an existing Item iff it is Published |
| ItemVersion.CanDownload | plm_customizations/api/item_version.py:464-479 | a missing Item is reported; a Blocked Item is refused before any role is looked at; otherwise publishers or a Published Item may download |
| ItemVersion.DownloadRules | plm_customizations/api/item_version.py:448-479 | whoever may download may view; a Blocked Item is never downloadable; a non-publisher downloads only Published Items |
| ItemVersion.RestoreKeepsPlmState | plm_customizations/api/item_version.py:516-540 | a restore never changes the Item's version, status, docstatus, `published_date` or `published_by`, nor any other key it excludes |
| ItemVersion.HistoricalOption | plm_customizations/api/item_version.py:602-627 | a historical download option is not the current one and carries the record's key, version, status text, its non-zero document count and its publish time when one is set |
| ItemVersion.HistoricalOptions | plm_customizations/api/item_version.py:594-627 | exactly the owner's other records with documents are listed, highest version first |
| ItemVersion.ItemStore.CurrentDocuments | plm_customizations/api/item_version.py:7-31 | an unknown Item has no documents; a known one has `DocumentSnapshot` of its link rows |
| ItemVersion.ItemStore.GetDocumentSnapshot | plm_customizations/api/item_version.py:7-31 | the method returns the Item's current documents |
| ItemVersion.ItemStore.Publish | plm_customizations/api/item_version.py:105-191 | no permission, no ECN or a missing Item change nothing; otherwise the Item goes to `PublishVersion` and its record holds the Item and document snapshots |
| ItemVersion.ItemStore.SaveAsDraft | plm_customizations/api/item_version.py:318-401 | the same guards; otherwise the Item goes to `DraftVersion` as Draft with both snapshots |
| ItemVersion.ItemStore.Block | plm_customizations/api/item_version.py:195-264 | no ECN is asked; the Item goes to `BlockVersion`, Blocked, and its record is written as blocked |
| ItemVersion.ItemStore.Unblock | plm_customizations/api/item_version.py:268-293 | only the status moves, to Published; the record of `current_version or 1` is marked Published if it exists |
| ItemVersion.ItemStore.SetAsDraft | plm_customizations/api/item_version.py:297-314 | only the status becomes Draft; an unknown Item is silently skipped |
| ItemVersion.ItemStore.VersionData | plm_customizations/api/item_version.py:434-444 | the Item snapshot of a record, none when the record or its data is missing |
| ItemVersion.ItemStore.VersionDocuments | plm_customizations/api/item_version.py:633-658 | "current" gives the live documents; a missing version or snapshot is reported; otherwise the stored documents |
| ItemVersion.ItemStore.DownloadableVersions | plm_customizations/api/item_version.py:567-629 | an unknown Item has none; otherwise the current documents first, then each historical record with documents, highest first |
| ItemVersion.ItemStore.Compare | plm_customizations/api/item_version.py:689-755 | missing versions and data are reported; when both records exist with data the comparison succeeds, field and document differences are exactly those between the snapshots, and empty for equal versions |
| ItemVersion.ItemStore.RestoreSnapshot | plm_customizations/api/item_version.py:522-545 | the live Item becomes `Restored` of the snapshot; versions and documents unchanged |
| ItemVersion.ItemStore.Restore | plm_customizations/api/item_version.py:493-563 | as written: guards first, then the snapshot is restored onto the Item and the nested save as draft fails for want of an ECN, leaving no new version |
| ItemVersion.ItemStore.RestoreAsDraft | plm_customizations/api/item_version.py:493-563 | corrected: with an ECN, the restored Item is saved as a new Draft version; failures change nothing |
| ItemVersion.ItemStore.RestoreThenDraft | plm_customizations/api/item_version.py:545-548 | the restore write followed by a save as draft |
| WorkOrderVersion.BomVersionSnapshot | plm_customizations/api/work_order_version.py:61-82 | a record's stored data when the version is given and has data; otherwise the live BOM without system keys; a missing BOM fails |
| WorkOrderVersion.WorkOrderGate | plm_customizations/api/work_order_version.py:85-121 | as written: existence, docstatus 1, active, not Blocked, not Draft, version above 0, in that order; an accepted BOM pins its current version |
| WorkOrderVersion.PlmWorkOrderGate | plm_customizations/api/work_order_version.py:85-121 | corrected: without the docstatus check, a BOM is accepted iff it exists, is active, is neither Blocked nor Draft and has a version |
| WorkOrderVersion.ConvertedPublishedBomRejected | plm_customizations/api/work_order_version.py:96 | a BOM converted to PLM mode and then published is active and Published yet refused by the gate as written |
| WorkOrderVersion.PublishedBomAccepted | plm_customizations/api/work_order_version.py:85-121 | every freshly published BOM passes the corrected gate and pins the version just published |
| WorkOrderVersion.PublishedBomAcceptedIffSubmitted | plm_customizations/api/work_order_version.py:96 | the gate as written accepts a freshly published BOM iff it is still at docstatus 1 |
| WorkOrderVersion.NonPublishedBomsRejected | plm_customizations/api/work_order_version.py:99-110 | after a block, a save as draft or a set as draft both gates refuse the BOM |
| WorkOrderVersion.WorkOrderForm.OnValidate | plm_customizations/api/work_order_version.py:124-139 | a new Work Order with a BOM passes iff the gate does, and then pins the BOM's version and snapshot |
| WorkOrderVersion.CheckBlockStatus | plm_customizations/api/work_order_version.py:158-173 | not blocked iff the BOM exists and is not Blocked; a missing BOM counts as blocked |
| WorkOrderVersion.BeforeSubmit | plm_customizations/api/work_order_version.py:142-155 | submission is refused iff the BOM is Blocked; a missing BOM is reported |
| WorkOrderVersion.JobCardValidate | plm_customizations/api/work_order_version.py:176-186 | a Job Card passes iff its Work Order has no BOM or the BOM is not blocked |
| WorkOrderVersion.StockEntryValidate | plm_customizations/api/work_order_version.py:189-199 | only manufacturing entries are checked, as Job Cards are |
| WorkOrderVersion.ItemsOverride | plm_customizations/api/work_order_version.py:238-251 | the pinned snapshot's items iff the snapshot has items |
| WorkOrderVersion.ItemsFromSnapshot | plm_customizations/api/work_order_version.py:219-235 | the pinned items, else the live BOM's items, else none; missing records are reported |
| WorkOrderVersion.CanProceed | plm_customizations/api/work_order_version.py:255-281 | `can_proceed` is false exactly for a missing Work Order and a blocked BOM |
| WorkOrderVersion.OperationCheck | plm_customizations/api/work_order_version.py:255-281 | an operation may proceed iff the Work Order exists and its BOM is unset or not blocked; it reports the pinned and current versions |
| WorkOrderVersion.BlockStopsManufacturing | plm_customizations/api/work_order_version.py:142-281 | after its BOM is blocked, a Work Order cannot be submitted, no Job Card or manufacturing entry passes, no operation proceeds and no new Work Order can use the BOM |
| WorkOrderVersion.UnblockResumesManufacturing | plm_customizations/api/work_order_version.py:142-281 | after an unblock, submission, Job Cards and operations proceed again |
| WorkOrderVersion.ValidatedOrderUsesPinnedItems | plm_customizations/api/work_order_version.py:124-251 | a validated Work Order gets its items from the pinned snapshot |
| GanttData.LatenessOf | plm_customizations/api/gantt_data.py:164-187 | late iff the delay in days is positive: against the actual date when there is one, against today while pending, none without a planned date |
| GanttData.CombinedLateness | plm_customizations/api/gantt_data.py:190-191 | a task is late iff either delay is, and its delay is at least each positive delay |
| GanttData.Max | plm_customizations/api/gantt_data.py:191 | the larger of the two delays |
| GanttData.PurchaseColour | plm_customizations/api/gantt_data.py:89-96 | received → completed; else delayed → delayed; else at risk → at risk; else normal |
| GanttData.CompletionColour | plm_customizations/api/gantt_data.py:197-207 | done (late or on time), else delayed, at risk or normal, each in the order the source checks |
| GanttData.PurchaseTask | plm_customizations/api/gantt_data.py:63-113 | a purchase task is delayed iff past its schedule date and not fully received; at risk iff not delayed and its ETA falls after the required date; never both; delay days positive iff either |
| GanttData.WorkProgress | plm_customizations/api/gantt_data.py:159-161 | progress is 0 for no quantity, and reaches 100 iff the produced quantity reaches the ordered one |
| GanttData.PercentReached | plm_customizations/api/gantt_data.py:159-161 | a / b * 100 >= 100 iff a >= b, for positive b |
| GanttData.WorkTask | plm_customizations/api/gantt_data.py:137-231 | a work task's delay is the larger of its start and end delays, delayed iff either is late, coloured by completion |
| GanttData.SalesTask | plm_customizations/api/gantt_data.py:255-342 | a sales task's delay is the larger of its shipping and delivery delays, delayed iff either is late, coloured by delivery |
| GanttData.OrderTasks | plm_customizations/api/gantt_data.py:63-113 | the loop keeps exactly the in-window orders, in order, as tasks |
| GanttData.TasksOfAppend | plm_customizations/api/gantt_data.py:29-38 | the tasks of concatenated order lists are the concatenated task lists |
| GanttData.TasksOfExact | plm_customizations/api/gantt_data.py:70-73 | a task is listed iff it is the task of an order inside the window |
| GanttData.TasksMeetWindow | plm_customizations/api/gantt_data.py:70-73 | every listed task ends on or after the start of the window and starts on or before its end |
| GanttData.TrimLeft | plm_customizations/api/gantt_data.py:24 | strips exactly the leading characters that Python's `str.isspace()` accepts, ASCII separators U+001C to U+001F and Unicode spaces included |
| GanttData.TrimRight | plm_customizations/api/gantt_data.py:24 | strips exactly the trailing characters that `str.isspace()` accepts |
| GanttData.StripSlice | plm_customizations/api/gantt_data.py:24 | a stripped string is the slice between its first and last characters that `str.isspace()` rejects |
| GanttData.StripSeparators | plm_customizations/api/gantt_data.py:24 | the ASCII separator U+001C and the no-break space U+00A0 are stripped like a space |
| GanttData.StripUnicodeSpaces | plm_customizations/api/gantt_data.py:24 | a string of U+3000 and U+001F strips to nothing |
| GanttData.SplitComma | plm_customizations/api/gantt_data.py:24 | splitting gives at least one part and no part holds a comma |
| GanttData.SplitJoin | plm_customizations/api/gantt_data.py:24 | joining the parts with commas gives back the string |
| GanttData.OrderTypes | plm_customizations/api/gantt_data.py:23-26 | no filter selects all three kinds; otherwise the stripped comma-separated parts |
| GanttData.GanttTasks | plm_customizations/api/gantt_data.py:7-40 | the chart has, in kind order, exactly the tasks of the selected kinds |
| ItemNaming.CodeIn | plm_customizations/api/item_naming.py:22-26 | the mapped code of a category, "" when it is not mapped |
| ItemNaming.CategoryCode | plm_customizations/api/item_naming.py:22-26 | each category is looked up in its own map |
| ItemNaming.CategoryCodesAreClean | plm_customizations/api/item_naming.py:6-19 | no category code is empty or holds a dash or underscore |
| ItemNaming.ParseNat | plm_customizations/api/item_naming.py:47-51 | a number is read iff the text is a non-empty digit string |
| ItemNaming.NatToStringValue | plm_customizations/api/item_naming.py:80-85 | a number's decimal text reads back as the number |
| ItemNaming.Padded | plm_customizations/api/item_naming.py:80-85 | zero padding to the width keeps the value and gives the wider of the width and the digits |
| ItemNaming.LeadingZerosValue | plm_customizations/api/item_naming.py:80-85 | leading zeros do not change the value of a digit string |
| ItemNaming.BeforeUnderscore | plm_customizations/api/item_naming.py:47 | the part before the first underscore |
| ItemNaming.RemoveAll | plm_customizations/api/item_naming.py:47 | removing a prefix never lengthens the code |
| ItemNaming.RemoveAllAbsent | plm_customizations/api/item_naming.py:47 | removing text that does not occur changes nothing |
| ItemNaming.NextSequence | plm_customizations/api/item_naming.py:29-53 | the next number is at least 1, and 1 when there is no code yet |
| ItemNaming.GenerateItemCode | plm_customizations/api/item_naming.py:57-87 | both category codes are required; the code is the prefix, the padded number and the optional version |
| ItemNaming.NextAfterGenerated | plm_customizations/api/item_naming.py:29-87 | the sequence read back from a generated code is one past the number it was generated with |
| ItemNaming.PreviewItemCode | plm_customizations/api/item_naming.py:91-98 | "" until both categories are set; otherwise the code without version |
| ItemNaming.SyncedGroup | plm_customizations/api/item_naming.py:130-150 | with both categories and both codes set, the group becomes the category-code group when that group exists, else the first category's group when that exists, else it is kept; otherwise it is kept |
| ItemNaming.ItemForm.SyncItemGroup | plm_customizations/api/item_naming.py:130-150 | only the item group changes, to `SyncedGroup` |
| ItemNaming.ItemForm.BeforeInsert | plm_customizations/api/item_naming.py:101-112 | with auto naming and both categories, code and name become the generated code; otherwise nothing changes |
| ItemNaming.ItemForm.Validate | plm_customizations/api/item_naming.py:115-127 | with auto naming, a missing first or second category is refused; otherwise the group is synced |
| DocumentEvents.Basename | plm_customizations/api/document_events.py:22-23 | the part of the path after its last '/' |
| DocumentEvents.DocumentForm.Validate | plm_customizations/api/document_events.py:5-23 | a pending upload passes untouched; no attachment is refused; otherwise an empty file name becomes the attachment's base name |
| DocumentEvents.DocumentForm.BeforeCancel | plm_customizations/api/document_events.py:46-52 | the cancel is allowed to ignore the links to the Document |
| DocumentEvents.RemoveLinksExact | plm_customizations/api/document_events.py:55-74 | exactly the rows not pointing at the Document are kept |
| DocumentEvents.RemoveLinksKeepsDistinct | plm_customizations/api/document_events.py:55-74 | deleting links never makes two links collide |
| DocumentEvents.DropLinks | plm_customizations/api/document_events.py:60-69 | the loop over one table computes `RemoveLinks` |
| DocumentEvents.Unlinked | plm_customizations/api/document_events.py:55-74 | only the document list changes, to its rows without the Document |
| DocumentEvents.Linked | plm_customizations/api/document_events.py:41 | only the document list changes, by one appended link row |
| DocumentEvents.ItemDocuments.AfterInsert | plm_customizations/api/document_events.py:26-43 | the Document's Item ends with a link to it, added only if none existed; a missing Item is reported; an Item that linked no Document twice still does not |
| DocumentEvents.ItemDocuments.OnCancel | plm_customizations/api/document_events.py:55-74 | every Item loses exactly its links to the Document, duplicates included, and keeps its other rows in order; if no Item linked a Document twice before, none does after |
| DocumentEvents.CancelRemovesExactly | plm_customizations/api/document_events.py:55-74 | after a cancel, a row remains iff it was there and does not point at the Document |
| Ecn.Defaulted | plm_customizations/plm_customizations/doctype/ecn/ecn.py:10-22 | a set value is kept; an empty one takes the fallback |
| Ecn.DefaultedIdempotent | plm_customizations/plm_customizations/doctype/ecn/ecn.py:10-22 | defaulting a second time changes nothing |
| Ecn.EcnForm.BeforeInsert | plm_customizations/plm_customizations/doctype/ecn/ecn.py:10-15 | the author and creation date default to the session user and the time |
| Ecn.EcnForm.BeforeSave | plm_customizations/plm_customizations/doctype/ecn/ecn.py:17-22 | the same defaults on every save |
| Ecn.CitingRows | plm_customizations/plm_customizations/doctype/ecn/ecn.py:35-51 | never more rows than given |
| Ecn.CitingRowsExact | plm_customizations/plm_customizations/doctype/ecn/ecn.py:35-51 | a version is listed iff some row of its type cites the ECN |
| Ecn.GetLinkedVersions | plm_customizations/plm_customizations/doctype/ecn/ecn.py:26-53 | a version type that does not exist gives an empty list; no list is longer than its version rows |
| Ecn.LinkedVersionsExact | plm_customizations/plm_customizations/doctype/ecn/ecn.py:26-53 | both lists hold exactly the versions citing the ECN |
| Setup.ExistingRoles | plm_customizations/setup.py:104-122 | a role is kept iff it is listed and exists, in order |
| Setup.CountZero | plm_customizations/setup.py:125-140 | a role occurs zero times iff it is absent |
| Setup.WithEngineer | plm_customizations/setup.py:125-140 | Mechanical Engineer is present afterwards; no role is lost and at most one is added |
| Setup.WithEngineerOnce | plm_customizations/setup.py:125-140 | adding the role twice adds it once, and it never occurs twice |
| Setup.Configured | plm_customizations/setup.py:33-142 | configuring keeps the set of workspaces |
| Setup.ConfiguredIdempotent | plm_customizations/setup.py:33-142 | configuring again changes nothing |
| Setup.ConfiguredVisibility | plm_customizations/setup.py:33-142 | afterwards Mechanical Engineer sees the Item workspace and no restricted one; other workspaces keep their roles |
| Setup.ItemNotRestricted | plm_customizations/setup.py:51-102 | the Item workspace is not restricted |
| Setup.EngineerNotStandard | plm_customizations/setup.py:51-102 | Mechanical Engineer is not a standard role |
| Setup.Reset | plm_customizations/setup.py:145-159 | public workspaces lose every role; others keep theirs |
| Setup.RolesPresent | plm_customizations/setup.py:113-115 | the loop computes `ExistingRoles` |
| Setup.RestrictAll | plm_customizations/setup.py:104-122 | each existing restricted workspace gets the standard roles; the others are unchanged |
| Setup.AddEngineer | plm_customizations/setup.py:125-140 | the Item workspace gets the role unless already there; the others are unchanged |
| Setup.ComposedIsConfigured | plm_customizations/setup.py:104-140 | the two loops together give `Configured` |
| Setup.Workspaces.ConfigureRoles | plm_customizations/setup.py:33-142 | without the Workspace write permission a checked call changes nothing; otherwise the roles become `Configured` |
| Setup.Workspaces.ResetRoles | plm_customizations/setup.py:145-159 | the roles become `Reset` of the public workspaces |
| ClientLabels.PublishLabel | plm_customizations/public/js/item.js:243-253 | the publish button shows at least 1, and the current version unless Published or new |
| ClientLabels.DraftLabel | plm_customizations/public/js/item.js:255-263 | a draft number is shown iff the status is Published |
| ClientLabels.NextVersion | plm_customizations/public/js/item.js:126-137 | the predicted version is at least 1 |
| ClientLabels.BomNextVersions | plm_customizations/public/js/bom.js:130-146 | the BOM dialog predicts the same version for publish and draft |
| ClientLabels.BlockLabel | plm_customizations/public/js/bom.js:220 | the block button shows at least 1 |
| ClientLabels.StatusColour | plm_customizations/public/js/item.js:338-342 | green iff Published, red iff Blocked, orange otherwise |
| ClientLabels.LabelsMatchServer | plm_customizations/public/js/bom.js:251-271 | every number the forms show is the one the server then writes |
| ClientLabels.ColourFollowsStatus | plm_customizations/public/js/bom.js:411-415 | the colour follows the status the server reads |
| ClientLabels.PlmIndicator | plm_customizations/public/js/bom.js:666-680 | the indicator is shown iff the version is above 0, with the version, status text and colour |
| ClientLabels.SaveAction | plm_customizations/public/js/item.js:265-274 | the form calls the server iff an ECN is given, and passes that action and ECN |

## Left out

- Persistence, transactions and `frappe.db.commit`: the stores are in-memory maps updated atomically by each method.
- The session user, the current time and the user's roles are parameters.
- JSON encoding of snapshots is not modelled: snapshots are stored as documents. The JSON parse failures of the restore and compare code paths are therefore not modelled either.
- Exceptions from host calls other than those the model names (for example a failing `save` inside the `try` of a restore, or a failed save inside the loops of `setup.py`) are not modelled.
- The `ensure_*` functions that create the version doctypes and custom fields are schema set-up, not behaviour, and are not part of this model.
- An unknown `plm_status` text decodes as Draft (`Records.StatusOf`). The gates and checks compare the raw text, as the source does, so the Work Order gate lets an unknown text through.
- ItemVersion.DocumentSnapshot: `frappe.get_all` at plm_customizations/api/item_version.py:12-16 gives no `order_by`, so the order of the link rows it returns is the database's; the model takes them in the Item's table order.
- SnapshotCodec.Restored: a restored child row holds only the snapshot row without its identity keys. The host's `append` (plm_customizations/api/bom_version.py:657-661, plm_customizations/api/item_version.py:541-545) puts `parent`, `parentfield`, `parenttype`, `idx` and `doctype` back on each row, and the following `save()` gives it a new `name`; neither is modelled. The same holds for `BomStore.RestoreAsDraft`, `BomStore.RestoreThenDraft`, `ItemStore.RestoreAsDraft` and `ItemStore.RestoreThenDraft`, which use `Restored`.
- SnapshotCodec.CaptureAfterRestore: on the child tables it states the rows as `Restored` leaves them, without the identity keys the host re-sets; on the host the capture after save holds those keys too. Only the scalar half matches the host after save.
- BomVersion.ChildRow: the row `name`, `creation` and `modified` that `db_insert` assigns are not modelled; a row holds only the keys the source writes.
- Records.VersionOf: does not model a negative or non-integer `current_version`; a negative value reads as 0.
- ItemNaming.ParseNat: reads only plain digit strings; Python `int()` also accepts surrounding whitespace, a sign and underscores, which the model refuses.
- ItemNaming.NextSequence: the last code is an input. The SQL query that picks it by lexicographic order is not modelled.
- GanttData.IsSpace: the whitespace set is that of Python 3's `str.isspace()` for the current Unicode database; a later Unicode version that adds a space character is not followed.
- GanttData.WorkProgress: uses exact reals; `flt` rounding is not modelled.
- GanttData: `get_order_dependencies` is not part of this model, and each order's dependency list is an input. So are the database filters on project and docstatus, and the query order.
- Ecn.CitingRows: SQL treats a NULL ECN and an ECN filter differently from an empty string; the model compares the option values.
- Setup.ExistingRoles: that the standard role list has no duplicates is not proved.
- `document_download.py` (the file-streaming endpoint), the UI dialogs, form refreshes and flags of the JavaScript forms are not part of this model.
- Concurrency between requests is not modelled.

## Findings

| source | as written | input that shows it | evidently intended | confidence | as-written member | corrected member |
|---|---|---|---|---|---|---|
| plm_customizations/api/bom_version.py:666-683 | the nested `save_bom_as_draft` is called without an ECN, so it throws. The outer handler reports failure after the restored fields were saved, and no new version is written | any permitted restore of a BOM version that holds data | the restored BOM is saved as a new Draft version, as the docstring at bom_version.py:614-617 promises | high, not executed | BomVersion.BomStore.Restore | BomVersion.BomStore.RestoreAsDraft |
| plm_customizations/api/item_version.py:544-563 | the nested `save_as_draft` is called without an ECN, so it throws after the restored fields were saved, and no new version is written | any permitted restore of an Item version that holds data | the restored Item is saved as a new Draft version | high, not executed | ItemVersion.ItemStore.Restore | ItemVersion.ItemStore.RestoreAsDraft |
| plm_customizations/api/work_order_version.py:96 | the gate refuses every BOM whose docstatus is not 1, but PLM keeps BOMs at docstatus 0 (bom_version.py:244-245) and `convert_bom_to_plm_mode` sets docstatus 0 | a submitted BOM converted to PLM mode and then published: active and Published, yet refused (`WorkOrderVersion.ConvertedPublishedBomRejected`) | manufacturing use is controlled by `plm_status` and `is_active` alone, as the comment at bom_version.py:244-245 says; contested, since the Work Order form (plm_customizations/public/js/work_order.js:113) also refuses a BOM whose docstatus is not 1 | low, contested, not executed | WorkOrderVersion.WorkOrderGate | WorkOrderVersion.PlmWorkOrderGate |
