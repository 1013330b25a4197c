/** The Work Order side of BOM versioning: the gate that decides whether a BOM
    may back a new Work Order, the snapshot the Work Order pins, and the hooks
    that stop manufacturing once the BOM is Blocked. */
module WorkOrderVersion {
  import opened Records
  import opened VersionRules
  import opened SnapshotCodec
  import opened DiffEngine
  import opened BomVersion

  /** The reasons the gate refuses a BOM, in the order it checks them. */
  datatype GateError =
    | BomDoesNotExist
    | BomNotSubmitted
    | NotActive
    | BomIsBlocked
    | BomIsDraft
    | NoPublishedVersion

  /** What an accepted BOM gives the new Work Order: its version and the snapshot to pin. */
  datatype Pinned = Pinned(version: nat, snapshot: Doc)

  /** `get_bom_version_snapshot`: the record's stored data when a version is
      given and the record holds data, otherwise the live BOM without the
      bookkeeping keys (reading a missing BOM fails). */
  function BomVersionSnapshot(boms: map<string, Doc>, versions: map<VersionKey, BomRecord>, name: string, version: nat)
      : (r: Result<Doc, GateError>)
    ensures (version != 0 && VersionKey(name, version) in versions && versions[VersionKey(name, version)].data.Some?) ==>
              r == Ok(versions[VersionKey(name, version)].data.value)
    ensures !(version != 0 && VersionKey(name, version) in versions && versions[VersionKey(name, version)].data.Some?) ==>
              r == (if name in boms then Ok(Capture(boms[name])) else Err(BomDoesNotExist))
    ensures r.Ok? && !(version != 0 && VersionKey(name, version) in versions && versions[VersionKey(name, version)].data.Some?) ==>
              forall k :: k in SystemKeys ==> k !in r.value
  {
    var key := VersionKey(name, version);
    if version != 0 && key in versions && versions[key].data.Some? then Ok(versions[key].data.value)
    else if name in boms then Ok(Capture(boms[name]))
    else Err(BomDoesNotExist)
  }

  /** `validate_bom_for_work_order` as written: existence, then docstatus 1,
      then active, then not Blocked, then not Draft, then a version above 0;
      the first check that fails decides. */
  function WorkOrderGate(boms: map<string, Doc>, versions: map<VersionKey, BomRecord>, name: string): (r: Result<Pinned, GateError>)
    ensures name !in boms ==> r == Err(BomDoesNotExist)
    ensures name in boms ==>
              var d := boms[name];
              r == (if DocStatusOf(d) != 1 then Err(BomNotSubmitted)
                    else if !IsActive(d) then Err(NotActive)
                    else if RawStatus(d) == "Blocked" then Err(BomIsBlocked)
                    else if RawStatus(d) == "Draft" then Err(BomIsDraft)
                    else if VersionOf(d) == 0 then Err(NoPublishedVersion)
                    else Ok(Pinned(VersionOf(d), BomVersionSnapshot(boms, versions, name, VersionOf(d)).value)))
    ensures r.Ok? ==> name in boms && DocStatusOf(boms[name]) == 1 && IsActive(boms[name]) &&
                      RawStatus(boms[name]) !in {"Blocked", "Draft"} && r.value.version == VersionOf(boms[name]) >= 1
  {
    if name !in boms then Err(BomDoesNotExist)
    else
      var d := boms[name];
      if DocStatusOf(d) != 1 then Err(BomNotSubmitted)
      else if !IsActive(d) then Err(NotActive)
      else if RawStatus(d) == "Blocked" then Err(BomIsBlocked)
      else if RawStatus(d) == "Draft" then Err(BomIsDraft)
      else if VersionOf(d) == 0 then Err(NoPublishedVersion)
      else Ok(Pinned(VersionOf(d), BomVersionSnapshot(boms, versions, name, VersionOf(d)).value))
  }

  /** The gate without the docstatus check. The comment at bom_version.py:244-245
      says PLM keeps BOMs at docstatus 0 and controls manufacturing use through
      `plm_status` and `is_active`; this gate drops the docstatus check and keeps
      every other check in order. */
  function PlmWorkOrderGate(boms: map<string, Doc>, versions: map<VersionKey, BomRecord>, name: string): (r: Result<Pinned, GateError>)
    ensures name !in boms ==> r == Err(BomDoesNotExist)
    ensures name in boms && DocStatusOf(boms[name]) == 1 ==> r == WorkOrderGate(boms, versions, name)
    ensures r.Ok? <==> name in boms && IsActive(boms[name]) && RawStatus(boms[name]) !in {"Blocked", "Draft"} && VersionOf(boms[name]) >= 1
    ensures r.Ok? ==> r.value.version == VersionOf(boms[name]) &&
                      r.value.snapshot == BomVersionSnapshot(boms, versions, name, VersionOf(boms[name])).value
  {
    if name !in boms then Err(BomDoesNotExist)
    else
      var d := boms[name];
      if !IsActive(d) then Err(NotActive)
      else if RawStatus(d) == "Blocked" then Err(BomIsBlocked)
      else if RawStatus(d) == "Draft" then Err(BomIsDraft)
      else if VersionOf(d) == 0 then Err(NoPublishedVersion)
      else Ok(Pinned(VersionOf(d), BomVersionSnapshot(boms, versions, name, VersionOf(d)).value))
  }

  /** A BOM converted to PLM mode and then published is refused by the gate as
      written, although publishing made it active and Published. */
  lemma ConvertedPublishedBomRejected(boms: map<string, Doc>, versions: map<VersionKey, BomRecord>, name: string,
                                     d: Doc, v: nat, now: int, user: string, ecn: string)
    ensures var p := PublishedBom(ConvertedBom(d), v, now, user, ecn);
            && IsActive(p) && StatusOf(p) == Published
            && WorkOrderGate(boms[name := p], versions, name) == Err(BomNotSubmitted)
  {
    var p := PublishedBom(ConvertedBom(d), v, now, user, ecn);
    assert Get(p, "docstatus") == Get(ConvertedBom(d), "docstatus");
  }

  /** With the docstatus check dropped, every published BOM backs a Work Order
      and pins the version just published. */
  lemma PublishedBomAccepted(boms: map<string, Doc>, versions: map<VersionKey, BomRecord>, name: string,
                             d: Doc, now: int, user: string, ecn: string)
    ensures var v := PublishVersion(StatusOf(d), VersionOf(d));
            var g := PlmWorkOrderGate(boms[name := PublishedBom(d, v, now, user, ecn)], versions, name);
            g.Ok? && g.value.version == v
  {
  }

  /** The gate as written accepts a published BOM exactly when it is still at docstatus 1. */
  lemma PublishedBomAcceptedIffSubmitted(boms: map<string, Doc>, versions: map<VersionKey, BomRecord>, name: string,
                                         d: Doc, now: int, user: string, ecn: string)
    ensures var v := PublishVersion(StatusOf(d), VersionOf(d));
            var p := PublishedBom(d, v, now, user, ecn);
            WorkOrderGate(boms[name := p], versions, name).Ok? <==> DocStatusOf(d) == 1
  {
    var v := PublishVersion(StatusOf(d), VersionOf(d));
    var p := PublishedBom(d, v, now, user, ecn);
    assert Get(p, "docstatus") == Get(d, "docstatus");
  }

  /** Blocking, saving as draft or setting as draft makes both gates refuse the BOM. */
  lemma NonPublishedBomsRejected(boms: map<string, Doc>, versions: map<VersionKey, BomRecord>, name: string,
                                 d: Doc, v: nat, now: int, user: string, ecn: string)
    ensures WorkOrderGate(boms[name := BlockedBom(d, v, now, user)], versions, name).Err?
    ensures PlmWorkOrderGate(boms[name := BlockedBom(d, v, now, user)], versions, name).Err?
    ensures WorkOrderGate(boms[name := DraftedBom(d, v, now, user, ecn)], versions, name).Err?
    ensures PlmWorkOrderGate(boms[name := DraftedBom(d, v, now, user, ecn)], versions, name).Err?
    ensures WorkOrderGate(boms[name := WithStatus(d, Draft)], versions, name).Err?
    ensures PlmWorkOrderGate(boms[name := WithStatus(d, Draft)], versions, name).Err?
  {
  }

  // ---------------------------------------------------------------------------
  // Work Orders and the block checks

  /** The PLM fields of a Work Order: its BOM (`bom_no`, "" when unset), the
      pinned version and snapshot, and the status recorded at creation. */
  datatype WorkOrder = WorkOrder(bomNo: string, bomVersion: Option<nat>, snapshot: Option<Doc>, statusAtCreation: string)

  /** The Work Order being saved, as the validate hook sees it. */
  class WorkOrderForm {
    const isNew: bool
    var wo: WorkOrder

    constructor(isNew0: bool, wo0: WorkOrder)
      ensures isNew == isNew0 && wo == wo0
    {
      isNew := isNew0;
      wo := wo0;
    }

    /** `on_work_order_validate`: a new Work Order with a BOM must pass the
        gate, and then pins the BOM's version and snapshot. */
    method OnValidate(boms: map<string, Doc>, versions: map<VersionKey, BomRecord>) returns (r: Outcome<GateError>)
      modifies this
      ensures !isNew || old(wo).bomNo == "" ==> r == Pass && wo == old(wo)
      ensures isNew && old(wo).bomNo != "" ==>
                match WorkOrderGate(boms, versions, old(wo).bomNo)
                case Err(e) => r == Fail(e) && wo == old(wo)
                case Ok(p) => r == Pass && wo == old(wo).(bomVersion := Some(p.version), snapshot := Some(p.snapshot),
                                                          statusAtCreation := "Published")
    {
      if !isNew || wo.bomNo == "" { return Pass; }
      var g := WorkOrderGate(boms, versions, wo.bomNo);
      if g.Err? { return Fail(g.error); }
      wo := wo.(bomVersion := Some(g.value.version), snapshot := Some(g.value.snapshot), statusAtCreation := "Published");
      r := Pass;
    }
  }

  datatype BlockStatus = NotBlocked | BlockedBy(reason: GateError)

  /** `check_bom_block_status`: a missing BOM counts as blocked. */
  function CheckBlockStatus(boms: map<string, Doc>, name: string): (r: BlockStatus)
    ensures r == NotBlocked <==> name in boms && StatusOf(boms[name]) != Blocked
    ensures r == BlockedBy(BomDoesNotExist) <==> name !in boms
    ensures r.BlockedBy? ==> r.reason in {BomDoesNotExist, BomIsBlocked}
  {
    if name !in boms then BlockedBy(BomDoesNotExist)
    else if RawStatus(boms[name]) == "Blocked" then BlockedBy(BomIsBlocked)
    else NotBlocked
  }

  datatype HookError = BomMissing | WorkOrderMissing | SubmitBlocked | OperationBlocked(reason: GateError)

  /** `on_work_order_before_submit`: a Work Order whose BOM is Blocked cannot be submitted. */
  function BeforeSubmit(boms: map<string, Doc>, wo: WorkOrder): (r: Outcome<HookError>)
    ensures wo.bomNo == "" ==> r == Pass
    ensures wo.bomNo != "" && wo.bomNo !in boms ==> r == Fail(BomMissing)
    ensures wo.bomNo != "" && wo.bomNo in boms ==>
              r == (if StatusOf(boms[wo.bomNo]) == Blocked then Fail(SubmitBlocked) else Pass)
  {
    if wo.bomNo == "" then Pass
    else if wo.bomNo !in boms then Fail(BomMissing)
    else if RawStatus(boms[wo.bomNo]) == "Blocked" then Fail(SubmitBlocked)
    else Pass
  }

  /** `on_job_card_validate`: the Job Card's Work Order must not use a blocked BOM. */
  function JobCardValidate(wos: map<string, WorkOrder>, boms: map<string, Doc>, woName: string): (r: Outcome<HookError>)
    ensures woName == "" ==> r == Pass
    ensures woName != "" && woName !in wos ==> r == Fail(WorkOrderMissing)
    ensures woName != "" && woName in wos && wos[woName].bomNo == "" ==> r == Pass
    ensures woName != "" && woName in wos && wos[woName].bomNo != "" ==>
              (r == Pass <==> CheckBlockStatus(boms, wos[woName].bomNo) == NotBlocked) &&
              (r.Fail? ==> r.error == OperationBlocked(CheckBlockStatus(boms, wos[woName].bomNo).reason))
  {
    if woName == "" then Pass
    else if woName !in wos then Fail(WorkOrderMissing)
    else if wos[woName].bomNo == "" then Pass
    else match CheckBlockStatus(boms, wos[woName].bomNo)
         case NotBlocked => Pass
         case BlockedBy(e) => Fail(OperationBlocked(e))
  }

  /** The Stock Entry purposes the block check applies to. */
  const ManufacturingPurposes: set<string> := {"Manufacture", "Material Transfer for Manufacture"}

  /** `on_stock_entry_validate`: the Job Card check, for manufacturing entries only. */
  function StockEntryValidate(wos: map<string, WorkOrder>, boms: map<string, Doc>, woName: string, purpose: string)
      : (r: Outcome<HookError>)
    ensures purpose !in ManufacturingPurposes ==> r == Pass
    ensures purpose in ManufacturingPurposes ==> r == JobCardValidate(wos, boms, woName)
  {
    if purpose in ManufacturingPurposes then JobCardValidate(wos, boms, woName) else Pass
  }

  /** `override_work_order_get_items`: the pinned snapshot's items, if it has any. */
  function ItemsOverride(wo: WorkOrder): (r: Option<Field>)
    ensures r.Some? <==> wo.snapshot.Some? && "items" in wo.snapshot.value
    ensures r.Some? ==> r.value == wo.snapshot.value["items"]
  {
    match wo.snapshot
    case Some(s) => if "items" in s then Some(s["items"]) else None
    case None => None
  }

  /** `get_work_order_items_from_snapshot`: the pinned items, otherwise the live
      BOM's items, otherwise none. */
  function ItemsFromSnapshot(wos: map<string, WorkOrder>, boms: map<string, Doc>, woName: string): (r: Result<Field, HookError>)
    ensures woName in wos && ItemsOverride(wos[woName]).Some? ==> r == Ok(ItemsOverride(wos[woName]).value)
    ensures woName !in wos ==> r == Err(WorkOrderMissing)
    ensures woName in wos && ItemsOverride(wos[woName]).None? ==>
              var bom := wos[woName].bomNo;
              r == (if bom == "" then Ok(Table([]))
                    else if bom in boms then Ok(Table(TableRows(boms[bom], "items")))
                    else Err(BomMissing))
  {
    if woName !in wos then Err(WorkOrderMissing)
    else match ItemsOverride(wos[woName])
         case Some(items) => Ok(items)
         case None =>
           var bom := wos[woName].bomNo;
           if bom == "" then Ok(Table([]))
           else if bom in boms then Ok(Table(TableRows(boms[bom], "items")))
           else Err(BomMissing)
  }

  /** The answer of `check_bom_status_for_operation`. */
  datatype OperationVerdict =
    | NoWorkOrder
    | NoBom
    | BomBlockedVerdict(reason: GateError)
    | Proceed(bomVersion: Option<nat>, currentBomVersion: Field)

  /** `can_proceed` of the answer: false only when the Work Order is missing or its BOM is blocked. */
  predicate CanProceed(v: OperationVerdict): (r: bool)
    ensures r <==> !v.NoWorkOrder? && !v.BomBlockedVerdict?
  {
    v.NoBom? || v.Proceed?
  }

  /** `check_bom_status_for_operation`. */
  function OperationCheck(wos: map<string, WorkOrder>, boms: map<string, Doc>, woName: string): (r: OperationVerdict)
    ensures CanProceed(r) <==> woName in wos && (wos[woName].bomNo == "" || CheckBlockStatus(boms, wos[woName].bomNo) == NotBlocked)
    ensures r == NoWorkOrder <==> woName !in wos
    ensures r.BomBlockedVerdict? ==> r.reason == CheckBlockStatus(boms, wos[woName].bomNo).reason
    ensures r.Proceed? ==> var bom := wos[woName].bomNo;
                           bom in boms && r.bomVersion == wos[woName].bomVersion &&
                           r.currentBomVersion == Get(boms[bom], "current_version")
  {
    if woName !in wos then NoWorkOrder
    else
      var bom := wos[woName].bomNo;
      if bom == "" then NoBom
      else match CheckBlockStatus(boms, bom)
           case BlockedBy(e) => BomBlockedVerdict(e)
           case NotBlocked => Proceed(wos[woName].bomVersion, Get(boms[bom], "current_version"))
  }

  /** Once the BOM of a Work Order is blocked, the Work Order cannot be
      submitted, no Job Card or manufacturing Stock Entry passes, no
      operation may proceed and no new Work Order can use the BOM. */
  lemma BlockStopsManufacturing(wos: map<string, WorkOrder>, boms: map<string, Doc>, versions: map<VersionKey, BomRecord>,
                                woName: string, d: Doc, v: nat, now: int, user: string)
    requires woName in wos && wos[woName].bomNo != ""
    ensures var boms' := boms[wos[woName].bomNo := BlockedBom(d, v, now, user)];
            && BeforeSubmit(boms', wos[woName]) == Fail(SubmitBlocked)
            && (woName != "" ==> JobCardValidate(wos, boms', woName) == Fail(OperationBlocked(BomIsBlocked)))
            && (woName != "" ==> StockEntryValidate(wos, boms', woName, "Manufacture").Fail?)
            && OperationCheck(wos, boms', woName) == BomBlockedVerdict(BomIsBlocked)
            && WorkOrderGate(boms', versions, wos[woName].bomNo).Err?
  {
    var boms' := boms[wos[woName].bomNo := BlockedBom(d, v, now, user)];
    assert CheckBlockStatus(boms', wos[woName].bomNo) == BlockedBy(BomIsBlocked);
  }

  /** Unblocking lets manufacturing operations on the BOM proceed again. */
  lemma UnblockResumesManufacturing(wos: map<string, WorkOrder>, boms: map<string, Doc>, woName: string, d: Doc)
    requires woName in wos && wos[woName].bomNo != ""
    ensures var boms' := boms[wos[woName].bomNo := UnblockedBom(d)];
            && BeforeSubmit(boms', wos[woName]) == Pass
            && CanProceed(OperationCheck(wos, boms', woName))
            && JobCardValidate(wos, boms', woName) == Pass
  {
  }

  /** A Work Order that passed validation fetches its items from the pinned
      snapshot whenever that snapshot has items. */
  lemma ValidatedOrderUsesPinnedItems(boms: map<string, Doc>, versions: map<VersionKey, BomRecord>, wo: WorkOrder,
                                      wos: map<string, WorkOrder>, woName: string)
    requires wo.bomNo != "" && WorkOrderGate(boms, versions, wo.bomNo).Ok?
    requires "items" in WorkOrderGate(boms, versions, wo.bomNo).value.snapshot
    ensures var p := WorkOrderGate(boms, versions, wo.bomNo).value;
            var pinned := wo.(bomVersion := Some(p.version), snapshot := Some(p.snapshot), statusAtCreation := "Published");
            ItemsFromSnapshot(wos[woName := pinned], boms, woName) == Ok(p.snapshot["items"])
  {
  }
}
