/** The BOM side of the PLM controller: publish, save as draft, block, unblock
    and set-as-draft on a BOM's live record and its version records; conversion
    of a submitted BOM to PLM mode; direct saving of line and operation changes;
    delete and bulk delete; version history, version data, restore and compare. */
module BomVersion {
  import opened Records
  import opened VersionRules
  import opened SnapshotCodec
  import opened DiffEngine

  /** Roles that may publish, block, save, restore, convert and delete BOMs. */
  const BomPublishRoles: set<string> := {"System Manager", "Manufacturing Manager", "Mechanical Engineer"}

  /** `has_bom_publish_permission`: the user holds at least one allowed role. */
  predicate HasBomPublishPermission(roles: set<string>): (r: bool)
    ensures r <==> "System Manager" in roles || "Manufacturing Manager" in roles || "Mechanical Engineer" in roles
  {
    exists role :: role in roles && role in BomPublishRoles
  }

  datatype BomError =
    | NoPermission
    | EcnRequired
    | BomNotFound
    | NotSubmitted
    | LinkedToWorkOrders
    | VersionNotFound(key: VersionKey)
    | NoVersionData
    | CouldNotLoad
    | MalformedChanges

  /** A BOM Version record; its snapshot (`bom_data`) may be missing. */
  type BomRecord = VersionRecord<Option<Doc>>

  /** `True` when a BOM is active (Check field `is_active`). */
  predicate IsActive(d: Doc) { Flag(d, "is_active") }

  /** `True` when a BOM is the item's default BOM. */
  predicate IsDefault(d: Doc) { Flag(d, "is_default") }

  // ---------------------------------------------------------------------------
  // Live-record writes

  const PublishWrites: set<string> :=
    {"current_version", "plm_status", "bom_published_date", "bom_published_by", "is_active", "is_default", "current_ecn"}

  const BlockWrites: set<string> :=
    {"current_version", "plm_status", "bom_published_date", "bom_published_by", "is_active", "is_default"}

  const UnblockWrites: set<string> := {"plm_status", "is_active", "is_default"}

  /** The live BOM after a publish to version `v`: usable for manufacturing. */
  function PublishedBom(d: Doc, v: nat, now: int, user: string, ecn: string): (r: Doc)
    ensures StatusOf(r) == Published && VersionOf(r) == v
    ensures IsActive(r) && IsDefault(r)
    ensures Get(r, "current_ecn") == TextField(ecn)
    ensures Get(r, "bom_published_date") == IntField(now) && Get(r, "bom_published_by") == TextField(user)
    ensures forall k :: k !in PublishWrites ==> Get(r, k) == Get(d, k)
  {
    d["current_version" := IntField(v)]["plm_status" := StatusField(Published)]
     ["bom_published_date" := IntField(now)]["bom_published_by" := TextField(user)]
     ["is_active" := FlagField(true)]["is_default" := FlagField(true)]["current_ecn" := TextField(ecn)]
  }

  /** The live BOM after a save as draft to version `v`: still active, no longer the default. */
  function DraftedBom(d: Doc, v: nat, now: int, user: string, ecn: string): (r: Doc)
    ensures StatusOf(r) == Draft && VersionOf(r) == v
    ensures IsActive(r) && !IsDefault(r)
    ensures Get(r, "current_ecn") == TextField(ecn)
    ensures Get(r, "bom_published_date") == IntField(now) && Get(r, "bom_published_by") == TextField(user)
    ensures forall k :: k !in PublishWrites ==> Get(r, k) == Get(d, k)
  {
    d["current_version" := IntField(v)]["plm_status" := StatusField(Draft)]
     ["bom_published_date" := IntField(now)]["bom_published_by" := TextField(user)]
     ["is_active" := FlagField(true)]["is_default" := FlagField(false)]["current_ecn" := TextField(ecn)]
  }

  /** The live BOM after a block at version `v`: neither active nor default; the
      current ECN is left as it was. */
  function BlockedBom(d: Doc, v: nat, now: int, user: string): (r: Doc)
    ensures StatusOf(r) == Blocked && VersionOf(r) == v
    ensures !IsActive(r) && !IsDefault(r)
    ensures Get(r, "bom_published_date") == IntField(now) && Get(r, "bom_published_by") == TextField(user)
    ensures forall k :: k !in BlockWrites ==> Get(r, k) == Get(d, k)
  {
    d["current_version" := IntField(v)]["plm_status" := StatusField(Blocked)]
     ["bom_published_date" := IntField(now)]["bom_published_by" := TextField(user)]
     ["is_active" := FlagField(false)]["is_default" := FlagField(false)]
  }

  /** The live BOM after an unblock: Published, active and default again, at the same version. */
  function UnblockedBom(d: Doc): (r: Doc)
    ensures StatusOf(r) == Published && VersionOf(r) == VersionOf(d)
    ensures IsActive(r) && IsDefault(r)
    ensures forall k :: k !in UnblockWrites ==> Get(r, k) == Get(d, k)
  {
    d["plm_status" := StatusField(Published)]["is_active" := FlagField(true)]["is_default" := FlagField(true)]
  }

  /** `convert_bom_to_plm_mode` on a submitted BOM: back to docstatus 0 and active;
      an unset or Draft status becomes Published, any other status is kept. */
  function ConvertedBom(d: Doc): (r: Doc)
    ensures DocStatusOf(r) == 0 && IsActive(r)
    ensures VersionOf(r) == VersionOf(d)
    ensures StatusOf(d) != Draft ==> StatusOf(r) == StatusOf(d)
    ensures Get(d, "plm_status") in {Scalar(Null), TextField(""), TextField("Draft")} ==> StatusOf(r) == Published
    ensures forall k :: k !in {"docstatus", "is_active", "plm_status"} ==> Get(r, k) == Get(d, k)
  {
    var e := d["docstatus" := IntField(0)]["is_active" := FlagField(true)];
    var s := Get(d, "plm_status");
    if !FieldTruthy(s) || s == TextField("Draft") then e["plm_status" := StatusField(Published)] else e
  }

  /** Each live-record write moves the decoded (status, version) exactly as the
      shared version rules say. */
  lemma LiveWritesFollowVersionRules(d: Doc, now: int, user: string, ecn: string)
    ensures var s := Live(StatusOf(d), VersionOf(d));
            && Live(StatusOf(PublishedBom(d, PublishVersion(s.status, s.version), now, user, ecn)),
                    VersionOf(PublishedBom(d, PublishVersion(s.status, s.version), now, user, ecn))) == Step(s, Publish)
            && Live(StatusOf(DraftedBom(d, DraftVersion(s.status, s.version), now, user, ecn)),
                    VersionOf(DraftedBom(d, DraftVersion(s.status, s.version), now, user, ecn))) == Step(s, SaveDraft)
            && Live(StatusOf(BlockedBom(d, BlockVersion(s.version), now, user)),
                    VersionOf(BlockedBom(d, BlockVersion(s.version), now, user))) == Step(s, Block)
            && Live(StatusOf(UnblockedBom(d)), VersionOf(UnblockedBom(d))) == Step(s, Unblock)
            && Live(StatusOf(WithStatus(d, Draft)), VersionOf(WithStatus(d, Draft))) == Step(s, SetDraft)
  {
  }

  /** The version records without those of the named BOMs. */
  function VersionsWithout(vs: map<VersionKey, BomRecord>, names: set<string>): (r: map<VersionKey, BomRecord>)
    ensures forall k :: k in r <==> k in vs && k.owner !in names
    ensures forall k :: k in r ==> r[k] == vs[k]
  {
    map k | k in vs && k.owner !in names :: vs[k]
  }

  lemma VersionsWithoutTwice(vs: map<VersionKey, BomRecord>, names: set<string>, n: string)
    ensures VersionsWithout(VersionsWithout(vs, names), {n}) == VersionsWithout(vs, names + {n})
  {
    var a := VersionsWithout(VersionsWithout(vs, names), {n});
    var b := VersionsWithout(vs, names + {n});
    assert forall k :: k in a <==> k in b;
  }

  // ---------------------------------------------------------------------------
  // `save_bom_changes`: rebuilt child rows

  datatype ChildKind = ItemLine | OperationLine

  /** `item.get(k, default)`: the default only when the key is missing. */
  function RowGetOr(r: Row, k: string, dflt: Atom): Atom {
    if k in r then r[k] else dflt
  }

  /** The child row `save_bom_changes` inserts at position `idx` (1-based). */
  function ChildRow(kind: ChildKind, bom: string, idx: nat, src: Row): (r: Row)
    ensures RowGet(r, "parent") == Text(bom) && RowGet(r, "parenttype") == Text("BOM") && RowGet(r, "idx") == Int(idx)
    ensures kind == ItemLine ==>
              && RowGet(r, "doctype") == Text("BOM Item") && RowGet(r, "parentfield") == Text("items")
              && RowGet(r, "item_code") == RowGet(src, "item_code") && RowGet(r, "uom") == RowGet(src, "uom")
              && RowGet(r, "qty") == (if "qty" in src then src["qty"] else Int(1))
              && RowGet(r, "rate") == (if "rate" in src then src["rate"] else Int(0))
              && RowGet(r, "amount") == (if "amount" in src then src["amount"] else Int(0))
              && RowGet(r, "source_warehouse") == RowGet(src, "source_warehouse")
    ensures kind == OperationLine ==>
              && RowGet(r, "doctype") == Text("BOM Operation") && RowGet(r, "parentfield") == Text("operations")
              && RowGet(r, "operation") == RowGet(src, "operation") && RowGet(r, "workstation") == RowGet(src, "workstation")
              && RowGet(r, "time_in_mins") == (if "time_in_mins" in src then src["time_in_mins"] else Int(0))
              && RowGet(r, "operating_cost") == (if "operating_cost" in src then src["operating_cost"] else Int(0))
  {
    match kind
    case ItemLine =>
      map["doctype" := Text("BOM Item"), "parent" := Text(bom), "parentfield" := Text("items"),
          "parenttype" := Text("BOM"), "idx" := Int(idx),
          "item_code" := RowGet(src, "item_code"), "qty" := RowGetOr(src, "qty", Int(1)),
          "uom" := RowGet(src, "uom"), "rate" := RowGetOr(src, "rate", Int(0)),
          "amount" := RowGetOr(src, "amount", Int(0)), "source_warehouse" := RowGet(src, "source_warehouse")]
    case OperationLine =>
      map["doctype" := Text("BOM Operation"), "parent" := Text(bom), "parentfield" := Text("operations"),
          "parenttype" := Text("BOM"), "idx" := Int(idx),
          "operation" := RowGet(src, "operation"), "workstation" := RowGet(src, "workstation"),
          "time_in_mins" := RowGetOr(src, "time_in_mins", Int(0)),
          "operating_cost" := RowGetOr(src, "operating_cost", Int(0))]
  }

  /** The `enumerate(changes[...], 1)` loop: one inserted row per given row, numbered 1..n in order. */
  method InsertRows(kind: ChildKind, bom: string, src: seq<Row>) returns (rows: seq<Row>)
    ensures |rows| == |src|
    ensures forall i :: 0 <= i < |rows| ==> rows[i] == ChildRow(kind, bom, i + 1, src[i])
  {
    rows := [];
    var i := 0;
    while i < |src|
      invariant 0 <= i <= |src| && |rows| == i
      invariant forall j :: 0 <= j < i ==> rows[j] == ChildRow(kind, bom, j + 1, src[j])
    {
      rows := rows + [ChildRow(kind, bom, i + 1, src[i])];
      i := i + 1;
    }
  }

  /** The rows `save_bom_changes` leaves are numbered 1..n without gaps and each
      is attached to the BOM. */
  lemma InsertedRowsNumbered(kind: ChildKind, bom: string, src: seq<Row>, rows: seq<Row>)
    requires |rows| == |src|
    requires forall i :: 0 <= i < |rows| ==> rows[i] == ChildRow(kind, bom, i + 1, src[i])
    ensures forall i :: 0 <= i < |rows| ==> RowGet(rows[i], "idx") == Int(i + 1) && RowGet(rows[i], "parent") == Text(bom)
  {
  }

  const BasicFields: seq<string> := ["quantity", "rm_cost_as_per", "buying_price_list"]

  /** The basic fields a change set overwrites: present and not None. */
  predicate BasicChanged(changes: Doc, f: string) {
    f in changes && changes[f] != Scalar(Null)
  }

  /** The basic fields of `e` are those of `d` overwritten by the change set. */
  ghost predicate BasicApplied(e: Doc, d: Doc, changes: Doc) {
    forall f :: f in BasicFields ==> Get(e, f) == (if BasicChanged(changes, f) then changes[f] else Get(d, f))
  }

  /** `e` and `d` agree on every field outside `fields`. */
  ghost predicate SameOutside(e: Doc, d: Doc, fields: set<string>) {
    forall k :: k !in fields ==> Get(e, k) == Get(d, k)
  }

  /** The basic-field loop of `save_bom_changes`. */
  method ApplyBasicFields(d: Doc, changes: Doc) returns (e: Doc)
    ensures BasicApplied(e, d, changes)
    ensures SameOutside(e, d, set f | f in BasicFields)
  {
    e := d;
    var i := 0;
    while i < |BasicFields|
      invariant 0 <= i <= |BasicFields|
      invariant forall j :: 0 <= j < i ==>
                  Get(e, BasicFields[j]) == (if BasicChanged(changes, BasicFields[j]) then changes[BasicFields[j]]
                                             else Get(d, BasicFields[j]))
      invariant forall k :: k !in BasicFields[..i] ==> Get(e, k) == Get(d, k)
    {
      var f := BasicFields[i];
      if BasicChanged(changes, f) {
        e := e[f := changes[f]];
      }
      assert BasicFields[..i + 1] == BasicFields[..i] + [f];
      i := i + 1;
    }
  }

  /** A change set gives a truthy value for a table that is not a list of rows. */
  predicate Malformed(changes: Doc, field: string) {
    FieldTruthy(Get(changes, field)) && Get(changes, field).Scalar?
  }

  /** Table `field` of `e` is what one table block of `save_bom_changes` leaves
      from `d`: a non-empty list replaces the table with freshly numbered rows;
      a truthy non-list value clears it; anything falsy leaves it as it was. */
  ghost predicate LinesReplaced(e: Doc, d: Doc, changes: Doc, field: string, kind: ChildKind, bom: string) {
    var given := Get(changes, field);
    && (!FieldTruthy(given) ==> Get(e, field) == Get(d, field))
    && (Malformed(changes, field) ==> Get(e, field) == Table([]))
    && (given.Table? && given.rows != [] ==>
          var rs := TableRows(e, field);
          && |rs| == |given.rows|
          && forall i :: 0 <= i < |rs| ==> rs[i] == ChildRow(kind, bom, i + 1, given.rows[i]))
  }

  /** One table block of `save_bom_changes`; `ok` is false when the value given
      for the table is not a list. */
  method ReplaceLines(d: Doc, changes: Doc, field: string, kind: ChildKind, bom: string) returns (e: Doc, ok: bool)
    ensures ok <==> !Malformed(changes, field)
    ensures LinesReplaced(e, d, changes, field, kind, bom)
    ensures SameOutside(e, d, {field})
  {
    e, ok := d, true;
    var given := Get(changes, field);
    if FieldTruthy(given) {
      match given
      case Table(src) =>
        var rows := InsertRows(kind, bom, src);
        e := d[field := Table(rows)];
      case Scalar(_) =>
        e := d[field := Table([])];
        ok := false;
    }
  }

  /** The fields `save_bom_changes` may write. */
  const SaveWrites: set<string> := {"quantity", "rm_cost_as_per", "buying_price_list", "items", "operations"}

  /** The writes of `save_bom_changes` on an existing BOM `d` named `bom`. */
  method ApplyChanges(d: Doc, changes: Doc, bom: string) returns (e: Doc, r: Outcome<BomError>)
    ensures BasicApplied(e, d, changes)
    ensures SameOutside(e, d, SaveWrites)
    ensures LinesReplaced(e, d, changes, "items", ItemLine, bom)
    ensures !Malformed(changes, "items") ==> LinesReplaced(e, d, changes, "operations", OperationLine, bom)
    ensures Malformed(changes, "items") ==> Get(e, "operations") == Get(d, "operations")
    ensures r.Fail? <==> Malformed(changes, "items") || Malformed(changes, "operations")
    ensures r.Fail? ==> r == Fail(MalformedChanges)
    ensures VersionOf(e) == VersionOf(d) && StatusOf(e) == StatusOf(d)
  {
    var d1 := ApplyBasicFields(d, changes);
    var d2, ok := ReplaceLines(d1, changes, "items", ItemLine, bom);
    e := d2;
    if ok {
      e, ok := ReplaceLines(d2, changes, "operations", OperationLine, bom);
    }
    r := if ok then Pass else Fail(MalformedChanges);
    assert Get(e, "current_version") == Get(d, "current_version");
    assert Get(e, "plm_status") == Get(d, "plm_status");
  }

  // ---------------------------------------------------------------------------
  // Restore and compare constants

  /** Keys `restore_bom_version` never copies back onto the live BOM. */
  const BomRestoreExclude: set<string> :=
    {"name", "doctype", "docstatus", "idx"} + SystemKeys +
    {"current_version", "plm_status", "bom_published_date", "bom_published_by"}

  /** Child tables `restore_bom_version` rebuilds from the snapshot. */
  const BomChildTables: seq<string> := ["items", "operations", "scrap_items", "exploded_items"]

  /** Keys `compare_bom_versions` leaves out of the field comparison. */
  const BomCompareExclude: set<string> := SystemKeys + {"items", "operations", "scrap_items", "exploded_items"}

  /** A restore never touches the PLM bookkeeping of the live BOM: status,
      version and docstatus stay as they were. */
  lemma RestoreKeepsPlmState(target: Doc, snap: Doc)
    ensures var r := Restored(target, snap, BomRestoreExclude, BomChildTables);
            && VersionOf(r) == VersionOf(target) && StatusOf(r) == StatusOf(target)
            && DocStatusOf(r) == DocStatusOf(target)
            && Get(r, "bom_published_date") == Get(target, "bom_published_date")
            && Get(r, "bom_published_by") == Get(target, "bom_published_by")
            && forall k :: k in BomRestoreExclude ==> Get(r, k) == Get(target, k)
  {
    var r := Restored(target, snap, BomRestoreExclude, BomChildTables);
    forall k | k in BomRestoreExclude ensures Get(r, k) == Get(target, k) {
      assert k !in BomChildTables;
    }
    assert !TableRestored(snap, BomChildTables, "current_version");
    assert !TableRestored(snap, BomChildTables, "plm_status");
    assert !TableRestored(snap, BomChildTables, "docstatus");
    assert !TableRestored(snap, BomChildTables, "bom_published_date");
    assert Get(r, "current_version") == Get(target, "current_version");
    assert Get(r, "plm_status") == Get(target, "plm_status");
  }

  /** The note of the draft a restore saves. */
  function RestoreNote(v: nat): string {
    "Restored from version v" + NatToString(v)
  }

  /** The result of `compare_bom_versions`. */
  datatype BomDiff = BomDiff(fields: seq<FieldChange>, items: KeyedDiff<Atom, Row>)

  /** A reference from a Work Order to its BOM (`bom_no`) with its docstatus. */
  datatype WorkOrderRef = WorkOrderRef(bomNo: string, docstatus: int)

  /** Some Work Order on the BOM is not cancelled. */
  predicate HasOpenWorkOrder(wos: seq<WorkOrderRef>, name: string) {
    exists i :: 0 <= i < |wos| && wos[i].bomNo == name && wos[i].docstatus != 2
  }

  /** The verdict of `delete_bom`, in the order the source checks. */
  function DeleteVerdict(boms: map<string, Doc>, roles: set<string>, wos: seq<WorkOrderRef>, name: string): Outcome<BomError> {
    if !HasBomPublishPermission(roles) then Fail(NoPermission)
    else if name !in boms then Fail(BomNotFound)
    else if HasOpenWorkOrder(wos, name) then Fail(LinkedToWorkOrders)
    else Pass
  }

  /** Where `bulk_delete_boms` stands after some of its names: the names
      deleted, the names that failed with their error, and the BOMs left. */
  datatype BulkRun = BulkRun(deleted: seq<string>, failed: seq<(string, BomError)>, left: map<string, Doc>)

  /** `bulk_delete_boms` on `names`: each name in turn meets `delete_bom`
      against the BOMs the earlier names left behind. */
  function BulkDeleteRun(names: seq<string>, boms: map<string, Doc>, roles: set<string>, wos: seq<WorkOrderRef>): (r: BulkRun)
    ensures |r.deleted| + |r.failed| == |names|
    decreases |names|
  {
    if names == [] then BulkRun([], [], boms)
    else
      var p := BulkDeleteRun(names[..|names| - 1], boms, roles, wos);
      var n := names[|names| - 1];
      var v := DeleteVerdict(p.left, roles, wos, n);
      if v.Pass? then BulkRun(p.deleted + [n], p.failed, p.left - {n})
      else BulkRun(p.deleted, p.failed + [(n, v.error)], p.left)
  }

  /** Every name ends up either deleted or failed, as often as it was given. */
  lemma {:induction false} BulkDeletePartition(names: seq<string>, boms: map<string, Doc>, roles: set<string>, wos: seq<WorkOrderRef>)
    ensures var r := BulkDeleteRun(names, boms, roles, wos);
            multiset(r.deleted) + multiset(FailedNames(r.failed)) == multiset(names)
    decreases |names|
  {
    if names != [] {
      var init := names[..|names| - 1];
      var n := names[|names| - 1];
      BulkDeletePartition(init, boms, roles, wos);
      var p := BulkDeleteRun(init, boms, roles, wos);
      var v := DeleteVerdict(p.left, roles, wos, n);
      assert names == init + [n];
      PartitionSnoc(p.deleted, p.failed, init, n, if v.Fail? then v.error else NoPermission);
    }
  }

  /** One more name, deleted or failed, keeps the partition. */
  lemma PartitionSnoc(deleted: seq<string>, failed: seq<(string, BomError)>, names: seq<string>, n: string, e: BomError)
    requires multiset(deleted) + multiset(FailedNames(failed)) == multiset(names)
    ensures multiset(deleted + [n]) + multiset(FailedNames(failed)) == multiset(names + [n])
    ensures multiset(deleted) + multiset(FailedNames(failed + [(n, e)])) == multiset(names + [n])
  {
    FailedNamesSnoc(failed, (n, e));
    assert multiset(names + [n]) == multiset(names) + multiset{n};
    assert multiset(deleted + [n]) == multiset(deleted) + multiset{n};
    assert multiset(FailedNames(failed) + [n]) == multiset(FailedNames(failed)) + multiset{n};
  }

  /** Only BOMs that existed, by a user with the permission, and with no open
      Work Order are deleted, each once; the BOMs left are the others, and
      every failure names a given name. */
  lemma {:induction false} BulkDeleteSafe(names: seq<string>, boms: map<string, Doc>, roles: set<string>, wos: seq<WorkOrderRef>)
    ensures var r := BulkDeleteRun(names, boms, roles, wos);
            && r.left == boms - (set n | n in r.deleted)
            && (forall n :: n in r.deleted ==> n in names && n in boms && HasBomPublishPermission(roles) && !HasOpenWorkOrder(wos, n))
            && (forall i, j :: 0 <= i < j < |r.deleted| ==> r.deleted[i] != r.deleted[j])
            && (forall i :: 0 <= i < |r.failed| ==> r.failed[i].0 in names)
            && (!HasBomPublishPermission(roles) ==> r.deleted == [])
    decreases |names|
  {
    if names != [] {
      var init := names[..|names| - 1];
      var n := names[|names| - 1];
      BulkDeleteSafe(init, boms, roles, wos);
      var p := BulkDeleteRun(init, boms, roles, wos);
      if DeleteVerdict(p.left, roles, wos, n).Pass? {
        assert (set m | m in p.deleted + [n]) == (set m | m in p.deleted) + {n};
      }
    }
  }

  /** Every name given that names an existing BOM with no open Work Order is
      deleted when the user has the permission. */
  lemma {:induction false} BulkDeleteComplete(names: seq<string>, boms: map<string, Doc>, roles: set<string>, wos: seq<WorkOrderRef>)
    requires HasBomPublishPermission(roles)
    ensures var r := BulkDeleteRun(names, boms, roles, wos);
            forall n :: n in names && n in boms && !HasOpenWorkOrder(wos, n) ==> n in r.deleted
    decreases |names|
  {
    if names != [] {
      var init := names[..|names| - 1];
      BulkDeleteComplete(init, boms, roles, wos);
      BulkDeleteSafe(init, boms, roles, wos);
    }
  }

  /** The error of each failed name, as `delete_bom` reports it. */
  lemma {:induction false} BulkDeleteErrors(names: seq<string>, boms: map<string, Doc>, roles: set<string>, wos: seq<WorkOrderRef>)
    ensures var r := BulkDeleteRun(names, boms, roles, wos);
            && (forall i :: 0 <= i < |r.failed| ==> (r.failed[i].1 == NoPermission <==> !HasBomPublishPermission(roles)))
            && (forall i :: 0 <= i < |r.failed| && r.failed[i].1 == LinkedToWorkOrders ==>
                  r.failed[i].0 in boms && HasOpenWorkOrder(wos, r.failed[i].0))
            && (forall i :: 0 <= i < |r.failed| && r.failed[i].1 == BomNotFound ==>
                  r.failed[i].0 !in boms || r.failed[i].0 in r.deleted)
    decreases |names|
  {
    if names != [] {
      var init := names[..|names| - 1];
      BulkDeleteErrors(init, boms, roles, wos);
      BulkDeleteSafe(init, boms, roles, wos);
    }
  }

  /** The names of the failed entries, in order. */
  function FailedNames(failed: seq<(string, BomError)>): (r: seq<string>)
    ensures |r| == |failed| && forall i :: 0 <= i < |failed| ==> r[i] == failed[i].0
  {
    if failed == [] then [] else FailedNames(failed[..|failed| - 1]) + [failed[|failed| - 1].0]
  }

  lemma FailedNamesSnoc(failed: seq<(string, BomError)>, x: (string, BomError))
    ensures FailedNames(failed + [x]) == FailedNames(failed) + [x.0]
  {
    assert (failed + [x])[..|failed|] == failed;
  }

  /** The BOMs of the host with their PLM fields, and the BOM Version records. */
  class BomStore {
    var boms: map<string, Doc>
    var versions: map<VersionKey, BomRecord>

    ghost predicate Valid()
      reads this
    {
      Consistent(boms, versions)
    }

    constructor(boms0: map<string, Doc>)
      ensures Valid() && boms == boms0 && versions == map[]
    {
      boms := boms0;
      versions := map[];
    }

    /** `publish_bom`. */
    method Publish(name: string, notes: string, ecn: string, roles: set<string>, now: int, user: string)
        returns (r: Result<nat, BomError>)
      requires Valid()
      modifies this
      ensures Valid()
      ensures !HasBomPublishPermission(roles) ==> r == Err(NoPermission) && unchanged(this)
      ensures HasBomPublishPermission(roles) && ecn == "" ==> r == Err(EcnRequired) && unchanged(this)
      ensures HasBomPublishPermission(roles) && ecn != "" && name !in old(boms) ==> r == Err(BomNotFound) && unchanged(this)
      ensures HasBomPublishPermission(roles) && ecn != "" && name in old(boms) ==>
                var d := old(boms)[name];
                var v := PublishVersion(StatusOf(d), VersionOf(d));
                var key := VersionKey(name, v);
                && r == Ok(v)
                && boms == old(boms)[name := PublishedBom(d, v, now, user, ecn)]
                && versions == old(versions)[key := PublishRecord(Lookup(old(versions), key), Some(Capture(d)), now, user, notes, ecn)]
    {
      if !HasBomPublishPermission(roles) { return Err(NoPermission); }
      if ecn == "" { return Err(EcnRequired); }
      if name !in boms { return Err(BomNotFound); }
      var d := boms[name];
      var v := PublishVersion(StatusOf(d), VersionOf(d));
      var key := VersionKey(name, v);
      versions := versions[key := PublishRecord(Lookup(versions, key), Some(Capture(d)), now, user, notes, ecn)];
      boms := boms[name := PublishedBom(d, v, now, user, ecn)];
      r := Ok(v);
    }

    /** `save_bom_as_draft`. */
    method SaveAsDraft(name: string, notes: string, ecn: string, roles: set<string>, now: int, user: string)
        returns (r: Result<nat, BomError>)
      requires Valid()
      modifies this
      ensures Valid()
      ensures !HasBomPublishPermission(roles) ==> r == Err(NoPermission) && unchanged(this)
      ensures HasBomPublishPermission(roles) && ecn == "" ==> r == Err(EcnRequired) && unchanged(this)
      ensures HasBomPublishPermission(roles) && ecn != "" && name !in old(boms) ==> r == Err(BomNotFound) && unchanged(this)
      ensures HasBomPublishPermission(roles) && ecn != "" && name in old(boms) ==>
                var d := old(boms)[name];
                var v := DraftVersion(StatusOf(d), VersionOf(d));
                var key := VersionKey(name, v);
                && r == Ok(v)
                && boms == old(boms)[name := DraftedBom(d, v, now, user, ecn)]
                && versions == old(versions)[key := DraftRecord(Lookup(old(versions), key), Some(Capture(d)), now, user, notes, ecn)]
    {
      if !HasBomPublishPermission(roles) { return Err(NoPermission); }
      if ecn == "" { return Err(EcnRequired); }
      if name !in boms { return Err(BomNotFound); }
      var d := boms[name];
      var v := DraftVersion(StatusOf(d), VersionOf(d));
      var key := VersionKey(name, v);
      versions := versions[key := DraftRecord(Lookup(versions, key), Some(Capture(d)), now, user, notes, ecn)];
      boms := boms[name := DraftedBom(d, v, now, user, ecn)];
      r := Ok(v);
    }

    /** `block_bom`: no ECN is asked for. */
    method Block(name: string, notes: string, roles: set<string>, now: int, user: string)
        returns (r: Result<nat, BomError>)
      requires Valid()
      modifies this
      ensures Valid()
      ensures !HasBomPublishPermission(roles) ==> r == Err(NoPermission) && unchanged(this)
      ensures HasBomPublishPermission(roles) && name !in old(boms) ==> r == Err(BomNotFound) && unchanged(this)
      ensures HasBomPublishPermission(roles) && name in old(boms) ==>
                var d := old(boms)[name];
                var v := BlockVersion(VersionOf(d));
                var key := VersionKey(name, v);
                && r == Ok(v)
                && boms == old(boms)[name := BlockedBom(d, v, now, user)]
                && versions == old(versions)[key := BlockRecord(Lookup(old(versions), key), Some(Capture(d)), now, user, notes, "BOM blocked")]
    {
      if !HasBomPublishPermission(roles) { return Err(NoPermission); }
      if name !in boms { return Err(BomNotFound); }
      var d := boms[name];
      var v := BlockVersion(VersionOf(d));
      var key := VersionKey(name, v);
      versions := versions[key := BlockRecord(Lookup(versions, key), Some(Capture(d)), now, user, notes, "BOM blocked")];
      boms := boms[name := BlockedBom(d, v, now, user)];
      r := Ok(v);
    }

    /** `unblock_bom`: the record of `current_version or 1` is marked Published if it exists. */
    method Unblock(name: string, roles: set<string>) returns (r: Outcome<BomError>)
      requires Valid()
      modifies this
      ensures Valid()
      ensures !HasBomPublishPermission(roles) ==> r == Fail(NoPermission) && unchanged(this)
      ensures HasBomPublishPermission(roles) && name !in old(boms) ==> r == Fail(BomNotFound) && unchanged(this)
      ensures HasBomPublishPermission(roles) && name in old(boms) ==>
                var d := old(boms)[name];
                var key := VersionKey(name, UnblockVersion(VersionOf(d)));
                && r == Pass
                && boms == old(boms)[name := UnblockedBom(d)]
                && versions == (if key in old(versions) then old(versions)[key := old(versions)[key].(status := Published)]
                                else old(versions))
    {
      if !HasBomPublishPermission(roles) { return Fail(NoPermission); }
      if name !in boms { return Fail(BomNotFound); }
      var d := boms[name];
      var key := VersionKey(name, UnblockVersion(VersionOf(d)));
      if key in versions {
        versions := versions[key := versions[key].(status := Published)];
      }
      boms := boms[name := UnblockedBom(d)];
      r := Pass;
    }

    /** `set_bom_as_draft`: a direct field write, so a missing BOM is silently skipped. */
    method SetAsDraft(name: string, roles: set<string>) returns (r: Outcome<BomError>)
      requires Valid()
      modifies this
      ensures Valid()
      ensures !HasBomPublishPermission(roles) ==> r == Fail(NoPermission) && unchanged(this)
      ensures HasBomPublishPermission(roles) ==>
                && r == Pass && versions == old(versions)
                && boms == (if name in old(boms) then old(boms)[name := WithStatus(old(boms)[name], Draft)] else old(boms))
    {
      if !HasBomPublishPermission(roles) { return Fail(NoPermission); }
      if name in boms {
        boms := boms[name := WithStatus(boms[name], Draft)];
      }
      r := Pass;
    }

    /** `convert_bom_to_plm_mode`. */
    method ConvertToPlmMode(name: string, roles: set<string>) returns (r: Outcome<BomError>)
      requires Valid()
      modifies this
      ensures Valid()
      ensures r == (if !HasBomPublishPermission(roles) then Fail(NoPermission)
                    else if name !in old(boms) then Fail(BomNotFound)
                    else if DocStatusOf(old(boms)[name]) != 1 then Fail(NotSubmitted)
                    else Pass)
      ensures r.Fail? ==> unchanged(this)
      ensures r.Pass? ==> boms == old(boms)[name := ConvertedBom(old(boms)[name])] && versions == old(versions)
    {
      if !HasBomPublishPermission(roles) { return Fail(NoPermission); }
      if name !in boms { return Fail(BomNotFound); }
      var d := boms[name];
      if DocStatusOf(d) != 1 { return Fail(NotSubmitted); }
      boms := boms[name := ConvertedBom(d)];
      r := Pass;
    }

    /** `save_bom_changes`: basic fields written when given and not None; item
        and operation lines replaced when a non-empty list is given. A truthy
        non-list value for a table clears it and then fails, with the writes
        made so far kept. */
    method SaveChanges(name: string, changes: Doc, roles: set<string>) returns (r: Outcome<BomError>)
      requires Valid()
      modifies this
      ensures Valid()
      ensures versions == old(versions)
      ensures !HasBomPublishPermission(roles) ==> r == Fail(NoPermission) && boms == old(boms)
      ensures HasBomPublishPermission(roles) && changes == map[] ==> r == Pass && boms == old(boms)
      ensures HasBomPublishPermission(roles) && changes != map[] && name !in old(boms) ==>
                r == Fail(BomNotFound) && boms == old(boms)
      ensures HasBomPublishPermission(roles) && changes != map[] && name in old(boms) ==>
                name in boms &&
                var (d, e) := (old(boms)[name], boms[name]);
                && boms == old(boms)[name := e]
                && BasicApplied(e, d, changes)
                && SameOutside(e, d, SaveWrites)
                && LinesReplaced(e, d, changes, "items", ItemLine, name)
                && (!Malformed(changes, "items") ==> LinesReplaced(e, d, changes, "operations", OperationLine, name))
                && (Malformed(changes, "items") ==> Get(e, "operations") == Get(d, "operations"))
                && (r.Fail? <==> Malformed(changes, "items") || Malformed(changes, "operations"))
                && (r.Fail? ==> r == Fail(MalformedChanges))
    {
      if !HasBomPublishPermission(roles) { return Fail(NoPermission); }
      if changes == map[] { return Pass; }
      if name !in boms { return Fail(BomNotFound); }
      var e;
      e, r := ApplyChanges(boms[name], changes, name);
      ReplaceKeepsConsistent(boms, versions, name, e);
      boms := boms[name := e];
    }

    /** `delete_bom`: on success the BOM and all its version records are gone. */
    method Delete(name: string, roles: set<string>, wos: seq<WorkOrderRef>) returns (r: Outcome<BomError>)
      requires Valid()
      modifies this
      ensures Valid()
      ensures r == DeleteVerdict(old(boms), roles, wos, name)
      ensures r.Fail? ==> unchanged(this)
      ensures r.Pass? ==> boms == old(boms) - {name} && versions == VersionsWithout(old(versions), {name})
    {
      r := DeleteVerdict(boms, roles, wos, name);
      if r.Pass? {
        versions := VersionsWithout(versions, {name});
        boms := boms - {name};
      }
    }

    /** `bulk_delete_boms`: `delete_bom` on each name in turn. */
    method BulkDelete(names: seq<string>, roles: set<string>, wos: seq<WorkOrderRef>)
        returns (deleted: seq<string>, failed: seq<(string, BomError)>)
      requires Valid()
      modifies this
      ensures Valid()
      ensures BulkRun(deleted, failed, boms) == BulkDeleteRun(names, old(boms), roles, wos)
      ensures |deleted| + |failed| == |names|
      ensures boms == old(boms) - (set n | n in deleted)
      ensures versions == VersionsWithout(old(versions), set n | n in deleted)
      ensures forall n :: n in deleted ==> n in names && n in old(boms)
      ensures forall i :: 0 <= i < |failed| ==> failed[i].0 in names
      ensures !HasBomPublishPermission(roles) ==> deleted == [] && forall i :: 0 <= i < |failed| ==> failed[i].1 == NoPermission
      ensures forall n :: n in names && n in old(boms) && HasBomPublishPermission(roles) && !HasOpenWorkOrder(wos, n) ==>
                n in deleted
    {
      deleted, failed := [], [];
      ghost var gone: set<string> := {};
      var i := 0;
      while i < |names|
        invariant 0 <= i <= |names|
        invariant Valid()
        invariant BulkRun(deleted, failed, boms) == BulkDeleteRun(names[..i], old(boms), roles, wos)
        invariant gone == set n | n in deleted
        invariant versions == VersionsWithout(old(versions), gone)
      {
        var n := names[i];
        assert names[..i + 1][..i] == names[..i];
        var res := Delete(n, roles, wos);
        if res.Pass? {
          VersionsWithoutTwice(old(versions), gone, n);
          deleted := deleted + [n];
          gone := gone + {n};
        } else {
          failed := failed + [(n, res.error)];
        }
        i := i + 1;
      }
      assert names[..i] == names;
      BulkDeleteSafe(names, old(boms), roles, wos);
      BulkDeleteErrors(names, old(boms), roles, wos);
      if HasBomPublishPermission(roles) {
        BulkDeleteComplete(names, old(boms), roles, wos);
      }
    }

    /** `get_bom_version_data`: the snapshot of a record, if the record exists and has one. */
    function VersionData(key: VersionKey): (r: Option<Doc>)
      reads this
      ensures r.Some? ==> key in versions && versions[key].data == r
      ensures r.None? ==> key !in versions || versions[key].data.None?
    {
      if key in versions then versions[key].data else None
    }

    /** `compare_bom_versions`: fields compared outside the bookkeeping keys and
        child tables, BOM lines compared by item code. */
    method Compare(name: string, v1: nat, v2: nat) returns (r: Result<BomDiff, BomError>)
      ensures VersionKey(name, v1) !in versions ==> r == Err(VersionNotFound(VersionKey(name, v1)))
      ensures VersionKey(name, v1) in versions && VersionKey(name, v2) !in versions ==>
                r == Err(VersionNotFound(VersionKey(name, v2)))
      ensures r == Err(CouldNotLoad) <==>
                VersionKey(name, v1) in versions && VersionKey(name, v2) in versions &&
                (VersionData(VersionKey(name, v1)) in {None, Some(map[])} ||
                 VersionData(VersionKey(name, v2)) in {None, Some(map[])})
      ensures (&& VersionKey(name, v1) in versions && VersionKey(name, v2) in versions
               && VersionData(VersionKey(name, v1)) !in {None, Some(map[])}
               && VersionData(VersionKey(name, v2)) !in {None, Some(map[])}) ==> r.Ok?
      ensures r.Ok? ==>
                var d1 := VersionData(VersionKey(name, v1)).value;
                var d2 := VersionData(VersionKey(name, v2)).value;
                && (forall i :: 0 <= i < |r.value.fields| ==>
                      r.value.fields[i].before == Get(d1, r.value.fields[i].field) &&
                      r.value.fields[i].after == Get(d2, r.value.fields[i].field))
                && FieldsOf(r.value.fields) == ChangedKeys(d1, d2, BomCompareExclude)
                && DiffCovers(r.value.items, KeyedRows(TableRows(d1, "items"), "item_code", false),
                              KeyedRows(TableRows(d2, "items"), "item_code", false),
                              KeyedRows(TableRows(d1, "items"), "item_code", false).Keys +
                              KeyedRows(TableRows(d2, "items"), "item_code", false).Keys)
      ensures r.Ok? && v1 == v2 ==> r.value == BomDiff([], KeyedDiff([], [], []))
    {
      var k1 := VersionKey(name, v1);
      var k2 := VersionKey(name, v2);
      if k1 !in versions { return Err(VersionNotFound(k1)); }
      if k2 !in versions { return Err(VersionNotFound(k2)); }
      var o1 := VersionData(k1);
      var o2 := VersionData(k2);
      if o1.None? || o2.None? || o1.value == map[] || o2.value == map[] { return Err(CouldNotLoad); }
      var d1 := o1.value;
      var d2 := o2.value;
      var fields := CompareFields(d1, d2, BomCompareExclude);
      var items := CompareKeyed(KeyedRows(TableRows(d1, "items"), "item_code", false),
                                KeyedRows(TableRows(d2, "items"), "item_code", false));
      if v1 == v2 {
        ChangedKeysEmptyIff(d1, d2, BomCompareExclude);
        NoFieldsIffEmpty(fields);
        CompareKeyedSelfIsEmpty(KeyedRows(TableRows(d1, "items"), "item_code", false), items);
      }
      r := Ok(BomDiff(fields, items));
    }

    /** `restore_bom_version` as written: the snapshot is copied onto the live
        BOM, then the nested `save_bom_as_draft` runs without an ECN and fails;
        the restored fields stay and no new version is written. */
    method Restore(name: string, key: VersionKey, roles: set<string>) returns (r: Result<nat, BomError>)
      requires Valid()
      modifies this
      ensures Valid()
      ensures versions == old(versions)
      ensures !HasBomPublishPermission(roles) ==> r == Err(NoPermission) && boms == old(boms)
      ensures HasBomPublishPermission(roles) && key !in old(versions) ==> r == Err(VersionNotFound(key)) && boms == old(boms)
      ensures HasBomPublishPermission(roles) && key in old(versions) && old(versions)[key].data.None? ==>
                r == Err(NoVersionData) && boms == old(boms)
      ensures (HasBomPublishPermission(roles) && key in old(versions) && old(versions)[key].data.Some? &&
               name !in old(boms)) ==> r == Err(BomNotFound) && boms == old(boms)
      ensures (HasBomPublishPermission(roles) && key in old(versions) && old(versions)[key].data.Some? &&
               name in old(boms)) ==>
                && r == Err(EcnRequired)
                && boms == old(boms)[name := Restored(old(boms)[name], old(versions)[key].data.value,
                                                      BomRestoreExclude, BomChildTables)]
    {
      if !HasBomPublishPermission(roles) { return Err(NoPermission); }
      if key !in versions { return Err(VersionNotFound(key)); }
      var data := versions[key].data;
      if data.None? { return Err(NoVersionData); }
      if name !in boms { return Err(BomNotFound); }
      RestoreSnapshot(name, data.value);
      r := SaveAsDraft(name, RestoreNote(key.version), "", roles, 0, "");
    }

    /** The restore the docstring of `restore_bom_version` promises ("creates a
        new version with the restored data"): the snapshot is copied onto the
        live BOM, which the nested `save_bom_as_draft` then saves as a new draft
        version under an ECN given up front. */
    method RestoreAsDraft(name: string, key: VersionKey, ecn: string, roles: set<string>, now: int, user: string)
        returns (r: Result<nat, BomError>)
      requires Valid()
      modifies this
      ensures Valid()
      ensures r.Err? ==> unchanged(this)
      ensures !HasBomPublishPermission(roles) ==> r == Err(NoPermission)
      ensures HasBomPublishPermission(roles) && ecn == "" ==> r == Err(EcnRequired)
      ensures HasBomPublishPermission(roles) && ecn != "" && key !in old(versions) ==> r == Err(VersionNotFound(key))
      ensures (HasBomPublishPermission(roles) && ecn != "" && key in old(versions) &&
               old(versions)[key].data.None?) ==> r == Err(NoVersionData)
      ensures (HasBomPublishPermission(roles) && ecn != "" && key in old(versions) &&
               old(versions)[key].data.Some? && name !in old(boms)) ==> r == Err(BomNotFound)
      ensures (HasBomPublishPermission(roles) && ecn != "" && key in old(versions) &&
               old(versions)[key].data.Some? && name in old(boms)) ==>
                var restored := Restored(old(boms)[name], old(versions)[key].data.value, BomRestoreExclude, BomChildTables);
                var v := DraftVersion(StatusOf(restored), VersionOf(restored));
                var k := VersionKey(name, v);
                && r == Ok(v)
                && boms == old(boms)[name := DraftedBom(restored, v, now, user, ecn)]
                && versions == old(versions)[k := DraftRecord(Lookup(old(versions), k), Some(Capture(restored)), now, user,
                                                             RestoreNote(key.version), ecn)]
    {
      if !HasBomPublishPermission(roles) { return Err(NoPermission); }
      if ecn == "" { return Err(EcnRequired); }
      if key !in versions { return Err(VersionNotFound(key)); }
      var data := versions[key].data;
      if data.None? { return Err(NoVersionData); }
      if name !in boms { return Err(BomNotFound); }
      var v := RestoreThenDraft(name, data.value, RestoreNote(key.version), ecn, roles, now, user);
      r := Ok(v);
    }

    /** The two writes of a restore with an ECN: the snapshot onto the live BOM,
        then a save as draft of the result. */
    method RestoreThenDraft(name: string, snap: Doc, notes: string, ecn: string, roles: set<string>, now: int, user: string)
        returns (v: nat)
      requires Valid() && name in boms && ecn != "" && HasBomPublishPermission(roles)
      modifies this
      ensures Valid()
      ensures var restored := Restored(old(boms)[name], snap, BomRestoreExclude, BomChildTables);
              var k := VersionKey(name, v);
              && v == DraftVersion(StatusOf(restored), VersionOf(restored))
              && boms == old(boms)[name := DraftedBom(restored, v, now, user, ecn)]
              && versions == old(versions)[k := DraftRecord(Lookup(old(versions), k), Some(Capture(restored)), now, user, notes, ecn)]
    {
      RestoreSnapshot(name, snap);
      var r := SaveAsDraft(name, notes, ecn, roles, now, user);
      v := r.value;
    }

    /** The copy of a snapshot onto the live BOM, shared by both restores. */
    method RestoreSnapshot(name: string, snap: Doc)
      requires Valid() && name in boms
      modifies this
      ensures Valid()
      ensures boms == old(boms)[name := Restored(old(boms)[name], snap, BomRestoreExclude, BomChildTables)]
      ensures versions == old(versions)
    {
      var restored := SnapshotCodec.Restore(boms[name], snap, BomRestoreExclude, BomChildTables);
      RestoreKeepsPlmState(boms[name], snap);
      ReplaceKeepsConsistent(boms, versions, name, restored);
      boms := boms[name := restored];
    }
  }
}
