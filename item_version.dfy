/** The Item side of the PLM controller: the same publish / save as draft /
    block / unblock / set-as-draft cycle as for BOMs, plus the snapshot of the
    documents linked to an Item, the view and download rules, the list of
    downloadable versions, restore and compare. */
module ItemVersion {
  import opened Records
  import opened VersionRules
  import opened SnapshotCodec
  import opened DiffEngine

  /** Roles that may publish, block, save and restore Items (`has_publish_permission`). */
  const ItemPublishRoles: set<string> := {"System Manager", "Item Manager", "Stock Manager", "Mechanical Engineer"}

  predicate HasPublishPermission(roles: set<string>): (r: bool)
    ensures r <==> "System Manager" in roles || "Item Manager" in roles || "Stock Manager" in roles ||
                    "Mechanical Engineer" in roles
  {
    exists role :: role in roles && role in ItemPublishRoles
  }

  datatype ItemError =
    | NoPermission
    | EcnRequired
    | ItemNotFound
    | VersionNotFound(key: VersionKey)
    | NoVersionData
    | CouldNotLoad
    | NoDocumentSnapshot

  /** One entry of a document snapshot: the link row's document, version and
      type, with the attachment and file name of the Document it points to. */
  datatype DocEntry = DocEntry(link: string, version: Atom, kind: Atom, attachment: Field, filename: Field)

  /** What an Item Version stores: the Item (`item_data`) and its documents
      (`document_snapshot`); either may be missing on a record. */
  datatype ItemSnapshot = ItemSnapshot(itemData: Option<Doc>, documents: Option<seq<DocEntry>>)

  type ItemRecord = VersionRecord<ItemSnapshot>

  /** The Item's child table of "Item Drawing Link" rows. */
  const DocumentList: string := "custom_document_list"

  // ---------------------------------------------------------------------------
  // `get_document_snapshot`

  /** The document a link row names, when its `link` is a non-empty text. */
  function LinkOf(row: Row): Option<string> {
    match RowGet(row, "link")
    case Text(s) => if s != "" then Some(s) else None
    case _ => None
  }

  /** The snapshot entry of one link row: only rows whose Document exists count;
      the file name falls back to the attachment. */
  function EntryFor(row: Row, documents: map<string, Doc>): (r: Option<DocEntry>)
    ensures r.Some? <==> LinkOf(row).Some? && LinkOf(row).value in documents
    ensures r.Some? ==>
              && LinkOf(row).Some? && LinkOf(row).value in documents
              && var doc := documents[LinkOf(row).value];
              && r.value.link == LinkOf(row).value
              && r.value.version == RowGet(row, "version") && r.value.kind == RowGet(row, "type")
              && r.value.attachment == Get(doc, "attachment")
              && r.value.filename == (if FieldTruthy(Get(doc, "filename")) then Get(doc, "filename") else Get(doc, "attachment"))
  {
    match LinkOf(row)
    case Some(l) =>
      if l in documents then
        var doc := documents[l];
        Some(DocEntry(l, RowGet(row, "version"), RowGet(row, "type"), Get(doc, "attachment"),
                      if FieldTruthy(Get(doc, "filename")) then Get(doc, "filename") else Get(doc, "attachment")))
      else None
    case None => None
  }

  /** The entries of the rows in order, rows without an existing Document dropped. */
  function DocumentSnapshot(rows: seq<Row>, documents: map<string, Doc>): (s: seq<DocEntry>)
    ensures |s| <= |rows|
    ensures forall j :: 0 <= j < |s| ==> s[j].link in documents
    decreases |rows|
  {
    if rows == [] then []
    else
      var init := DocumentSnapshot(rows[..|rows| - 1], documents);
      match EntryFor(rows[|rows| - 1], documents)
      case Some(e) => init + [e]
      case None => init
  }

  /** Every entry of the snapshot comes from some link row. */
  lemma {:induction false} DocumentSnapshotSound(rows: seq<Row>, documents: map<string, Doc>, j: nat)
    requires j < |DocumentSnapshot(rows, documents)|
    ensures exists i :: 0 <= i < |rows| && EntryFor(rows[i], documents) == Some(DocumentSnapshot(rows, documents)[j])
    decreases |rows|
  {
    var init := rows[..|rows| - 1];
    var s0 := DocumentSnapshot(init, documents);
    if j < |s0| {
      DocumentSnapshotSound(init, documents, j);
      var i :| 0 <= i < |init| && EntryFor(init[i], documents) == Some(s0[j]);
      assert rows[i] == init[i];
    } else {
      assert EntryFor(rows[|rows| - 1], documents) == Some(DocumentSnapshot(rows, documents)[j]);
    }
  }

  /** Every link row whose Document exists has its entry in the snapshot. */
  lemma {:induction false} DocumentSnapshotComplete(rows: seq<Row>, documents: map<string, Doc>, i: nat)
    requires i < |rows| && LinkOf(rows[i]).Some? && LinkOf(rows[i]).value in documents
    ensures exists j :: 0 <= j < |DocumentSnapshot(rows, documents)| &&
                        Some(DocumentSnapshot(rows, documents)[j]) == EntryFor(rows[i], documents)
    decreases |rows|
  {
    var init := rows[..|rows| - 1];
    var s := DocumentSnapshot(rows, documents);
    if i < |rows| - 1 {
      assert init[i] == rows[i];
      DocumentSnapshotComplete(init, documents, i);
      var j :| 0 <= j < |DocumentSnapshot(init, documents)| &&
               Some(DocumentSnapshot(init, documents)[j]) == EntryFor(init[i], documents);
      assert s[j] == DocumentSnapshot(init, documents)[j];
    } else {
      assert s[|s| - 1] == EntryFor(rows[i], documents).value;
    }
  }

  /** The loop of `get_document_snapshot` over the Item's link rows. */
  method SnapshotDocuments(rows: seq<Row>, documents: map<string, Doc>) returns (s: seq<DocEntry>)
    ensures s == DocumentSnapshot(rows, documents)
  {
    s := [];
    var i := 0;
    while i < |rows|
      invariant 0 <= i <= |rows|
      invariant s == DocumentSnapshot(rows[..i], documents)
    {
      assert rows[..i + 1][..i] == rows[..i];
      var e := EntryFor(rows[i], documents);
      if e.Some? {
        s := s + [e.value];
      }
      i := i + 1;
    }
    assert rows[..i] == rows;
  }

  // ---------------------------------------------------------------------------
  // Live-record writes

  const ItemPublishWrites: set<string> := {"current_version", "plm_status", "published_date", "published_by", "current_ecn"}

  const ItemBlockWrites: set<string> := {"current_version", "plm_status", "published_date", "published_by"}

  /** The live Item after a publish to version `v`. */
  function PublishedItem(d: Doc, v: nat, now: int, user: string, ecn: string): (r: Doc)
    ensures StatusOf(r) == Published && VersionOf(r) == v
    ensures Get(r, "current_ecn") == TextField(ecn)
    ensures Get(r, "published_date") == IntField(now) && Get(r, "published_by") == TextField(user)
    ensures forall k :: k !in ItemPublishWrites ==> Get(r, k) == Get(d, k)
  {
    d["current_version" := IntField(v)]["plm_status" := StatusField(Published)]
     ["published_date" := IntField(now)]["published_by" := TextField(user)]["current_ecn" := TextField(ecn)]
  }

  /** The live Item after a save as draft to version `v`. */
  function DraftedItem(d: Doc, v: nat, now: int, user: string, ecn: string): (r: Doc)
    ensures StatusOf(r) == Draft && VersionOf(r) == v
    ensures Get(r, "current_ecn") == TextField(ecn)
    ensures Get(r, "published_date") == IntField(now) && Get(r, "published_by") == TextField(user)
    ensures forall k :: k !in ItemPublishWrites ==> Get(r, k) == Get(d, k)
  {
    d["current_version" := IntField(v)]["plm_status" := StatusField(Draft)]
     ["published_date" := IntField(now)]["published_by" := TextField(user)]["current_ecn" := TextField(ecn)]
  }

  /** The live Item after a block at version `v`; the current ECN is left as it was. */
  function BlockedItem(d: Doc, v: nat, now: int, user: string): (r: Doc)
    ensures StatusOf(r) == Blocked && VersionOf(r) == v
    ensures Get(r, "published_date") == IntField(now) && Get(r, "published_by") == TextField(user)
    ensures forall k :: k !in ItemBlockWrites ==> Get(r, k) == Get(d, k)
  {
    d["current_version" := IntField(v)]["plm_status" := StatusField(Blocked)]
     ["published_date" := IntField(now)]["published_by" := TextField(user)]
  }

  /** Each live-record write moves the decoded (status, version) exactly as the
      shared version rules say. */
  lemma LiveWritesFollowVersionRules(d: Doc, now: int, user: string, ecn: string)
    ensures var s := Live(StatusOf(d), VersionOf(d));
            && Live(StatusOf(PublishedItem(d, PublishVersion(s.status, s.version), now, user, ecn)),
                    VersionOf(PublishedItem(d, PublishVersion(s.status, s.version), now, user, ecn))) == Step(s, Publish)
            && Live(StatusOf(DraftedItem(d, DraftVersion(s.status, s.version), now, user, ecn)),
                    VersionOf(DraftedItem(d, DraftVersion(s.status, s.version), now, user, ecn))) == Step(s, SaveDraft)
            && Live(StatusOf(BlockedItem(d, BlockVersion(s.version), now, user)),
                    VersionOf(BlockedItem(d, BlockVersion(s.version), now, user))) == Step(s, Block)
            && Live(StatusOf(WithStatus(d, Published)), VersionOf(WithStatus(d, Published))) == Step(s, Unblock)
            && Live(StatusOf(WithStatus(d, Draft)), VersionOf(WithStatus(d, Draft))) == Step(s, SetDraft)
  {
  }

  // ---------------------------------------------------------------------------
  // View and download rules

  datatype DenyReason = ItemIsBlocked | ItemNotPublished

  datatype Download = Allowed | Denied(reason: DenyReason)

  /** `can_view_item`: publishers see every Item, viewers only Published ones. */
  function CanView(items: map<string, Doc>, code: string, roles: set<string>): (r: Result<bool, ItemError>)
    ensures HasPublishPermission(roles) ==> r == Ok(true)
    ensures !HasPublishPermission(roles) && code !in items ==> r == Err(ItemNotFound)
    ensures !HasPublishPermission(roles) && code in items ==> r == Ok(StatusOf(items[code]) == Published)
  {
    if HasPublishPermission(roles) then Ok(true)
    else if code !in items then Err(ItemNotFound)
    else Ok(RawStatus(items[code]) == "Published")
  }

  /** `can_download_documents`: a Blocked Item is refused before any role is
      looked at; a viewer may only download a Published Item. */
  function CanDownload(items: map<string, Doc>, code: string, roles: set<string>): (r: Result<Download, ItemError>)
    ensures code !in items ==> r == Err(ItemNotFound)
    ensures code in items && StatusOf(items[code]) == Blocked ==> r == Ok(Denied(ItemIsBlocked))
    ensures code in items && StatusOf(items[code]) != Blocked ==>
              r == (if !HasPublishPermission(roles) && StatusOf(items[code]) != Published
                    then Ok(Denied(ItemNotPublished)) else Ok(Allowed))
  {
    if code !in items then Err(ItemNotFound)
    else
      var status := RawStatus(items[code]);
      if status == "Blocked" then Ok(Denied(ItemIsBlocked))
      else if !HasPublishPermission(roles) && status != "Published" then Ok(Denied(ItemNotPublished))
      else Ok(Allowed)
  }

  /** Whoever may download an Item's documents may also view the Item, and a
      Blocked Item is never downloadable, whatever the roles. */
  lemma DownloadRules(items: map<string, Doc>, code: string, roles: set<string>)
    ensures CanDownload(items, code, roles) == Ok(Allowed) ==> CanView(items, code, roles) == Ok(true)
    ensures code in items && StatusOf(items[code]) == Blocked ==> CanDownload(items, code, roles) != Ok(Allowed)
    ensures CanDownload(items, code, roles) == Ok(Allowed) && !HasPublishPermission(roles) ==>
              StatusOf(items[code]) == Published
  {
  }

  // ---------------------------------------------------------------------------
  // Restore and compare constants

  /** Keys `restore_version` never copies back onto the live Item. */
  const ItemRestoreExclude: set<string> :=
    {"name", "doctype", "docstatus", "idx"} + SystemKeys +
    {"current_version", "plm_status", "published_date", "published_by"}

  /** Child tables `restore_version` rebuilds from the snapshot. */
  const ItemChildTables: seq<string> :=
    ["custom_document_list", "uoms", "barcodes", "reorder_levels", "attributes",
     "supplier_items", "customer_items", "taxes", "item_defaults"]

  /** Keys `compare_versions` leaves out of the field comparison. */
  const ItemCompareExclude: set<string> :=
    SystemKeys + {"custom_document_list", "uoms", "barcodes", "reorder_levels", "attributes",
                  "supplier_items", "customer_items", "taxes", "item_defaults"}

  /** No key kept back from a restore is a child table it rebuilds. */
  lemma ExcludedAreNotTables()
    ensures forall k :: k in ItemChildTables ==> k !in ItemRestoreExclude
  {
    forall i | 0 <= i < |ItemChildTables| ensures ItemChildTables[i] !in ItemRestoreExclude {
    }
  }

  /** A restore never touches the PLM bookkeeping of the live Item. */
  lemma RestoreKeepsPlmState(target: Doc, snap: Doc)
    ensures var r := Restored(target, snap, ItemRestoreExclude, ItemChildTables);
            && VersionOf(r) == VersionOf(target) && StatusOf(r) == StatusOf(target)
            && Get(r, "published_date") == Get(target, "published_date")
            && Get(r, "published_by") == Get(target, "published_by")
            && DocStatusOf(r) == DocStatusOf(target)
            && forall k :: k in ItemRestoreExclude ==> Get(r, k) == Get(target, k)
  {
    var r := Restored(target, snap, ItemRestoreExclude, ItemChildTables);
    ExcludedAreNotTables();
    assert !TableRestored(snap, ItemChildTables, "current_version");
    assert !TableRestored(snap, ItemChildTables, "plm_status");
    assert !TableRestored(snap, ItemChildTables, "published_date");
    assert Get(r, "current_version") == Get(target, "current_version");
    assert Get(r, "plm_status") == Get(target, "plm_status");
  }

  /** The note of the draft a restore saves. */
  function RestoreNote(v: nat): string {
    "Restored from version v" + NatToString(v)
  }

  /** The result of `compare_versions`. */
  datatype ItemDiff = ItemDiff(fields: seq<FieldChange>, documents: KeyedDiff<Atom, Row>)

  /** An entry of `get_downloadable_versions`. */
  datatype DownloadOption = DownloadOption(
    version: nat,
    key: VersionKey,
    caption: string,
    status: string,
    isCurrent: bool,
    documentCount: nat,
    publishedAt: Option<int>)

  /** A historical record is offered for download when its document snapshot is a non-empty list. */
  predicate HasDocuments(rec: ItemRecord) {
    rec.data.documents.Some? && rec.data.documents.value != []
  }

  /** `get_version_documents` takes no version or "current" for the live
      documents, otherwise a version number. */
  datatype VersionChoice = Current | Numbered(n: nat)

  /** The historical entry of `get_downloadable_versions` for a record. */
  function HistoricalOption(key: VersionKey, rec: ItemRecord): (o: DownloadOption)
    requires HasDocuments(rec)
    ensures o.version == key.version && o.key == key && !o.isCurrent
    ensures o.status == StatusText(rec.status) && o.documentCount > 0
    ensures o.documentCount == |rec.data.documents.value|
    ensures o.publishedAt.Some? <==> rec.publishedAt != 0
    ensures o.publishedAt.Some? ==> o.publishedAt.value == rec.publishedAt
  {
    DownloadOption(key.version, key, "v" + NatToString(key.version) + " - " + StatusText(rec.status),
                   StatusText(rec.status), false, |rec.data.documents.value|,
                   if rec.publishedAt != 0 then Some(rec.publishedAt) else None)
  }

  /** `tail` lists, highest version first, exactly the owner's records other
      than the current version whose document snapshot is a non-empty list. */
  ghost predicate ListsHistory(tail: seq<DownloadOption>, versions: map<VersionKey, ItemRecord>, code: string, cur: nat) {
    && (forall i :: 0 <= i < |tail| ==>
          var key := VersionKey(code, tail[i].version);
          && tail[i].version != cur && key in versions && HasDocuments(versions[key])
          && tail[i] == HistoricalOption(key, versions[key]))
    && (forall i, j :: 0 <= i < j < |tail| ==> tail[i].version > tail[j].version)
    && (forall v :: VersionKey(code, v) in versions && v != cur && HasDocuments(versions[VersionKey(code, v)]) ==>
          exists i :: 0 <= i < |tail| && tail[i].version == v)
  }

  /** The loop over the owner's records in descending version order. */
  method HistoricalOptions(versions: map<VersionKey, ItemRecord>, code: string, cur: nat, order: seq<nat>)
      returns (tail: seq<DownloadOption>)
    requires forall i, j :: 0 <= i < j < |order| ==> order[i] > order[j]
    requires forall v :: v in order <==> VersionKey(code, v) in versions
    ensures ListsHistory(tail, versions, code, cur)
  {
    tail := [];
    var i := 0;
    while i < |order|
      invariant 0 <= i <= |order|
      invariant forall j :: 0 <= j < |tail| ==>
                  var key := VersionKey(code, tail[j].version);
                  && tail[j].version != cur && key in versions && HasDocuments(versions[key])
                  && tail[j] == HistoricalOption(key, versions[key])
      invariant forall j, k :: 0 <= j < k < |tail| ==> tail[j].version > tail[k].version
      invariant i < |order| ==> forall j :: 0 <= j < |tail| ==> tail[j].version > order[i]
      invariant forall k :: 0 <= k < i && order[k] != cur && HasDocuments(versions[VersionKey(code, order[k])]) ==>
                  exists j :: 0 <= j < |tail| && tail[j].version == order[k]
    {
      var key := VersionKey(code, order[i]);
      if order[i] != cur && HasDocuments(versions[key]) {
        ghost var before := tail;
        tail := tail + [HistoricalOption(key, versions[key])];
        assert tail[|tail| - 1].version == order[i];
        assert forall j :: 0 <= j < |before| ==> tail[j] == before[j];
      }
      i := i + 1;
    }
    forall v | VersionKey(code, v) in versions && v != cur && HasDocuments(versions[VersionKey(code, v)])
      ensures exists j :: 0 <= j < |tail| && tail[j].version == v
    {
      var k :| 0 <= k < |order| && order[k] == v;
    }
  }

  /** The Items of the host, their Item Version records, and the Document records
      their link rows point to. */
  class ItemStore {
    var items: map<string, Doc>
    var versions: map<VersionKey, ItemRecord>
    var documents: map<string, Doc>

    ghost predicate Valid()
      reads this
    {
      Consistent(items, versions)
    }

    constructor(items0: map<string, Doc>, documents0: map<string, Doc>)
      ensures Valid() && items == items0 && versions == map[] && documents == documents0
    {
      items := items0;
      versions := map[];
      documents := documents0;
    }

    /** The live documents of an Item; an unknown Item has none. */
    function CurrentDocuments(code: string): (s: seq<DocEntry>)
      reads this
      ensures code !in items ==> s == []
      ensures code in items ==> s == DocumentSnapshot(TableRows(items[code], DocumentList), documents)
    {
      if code in items then DocumentSnapshot(TableRows(items[code], DocumentList), documents) else []
    }

    /** `get_document_snapshot`. */
    method GetDocumentSnapshot(code: string) returns (s: seq<DocEntry>)
      ensures s == CurrentDocuments(code)
    {
      s := [];
      if code in items {
        s := SnapshotDocuments(TableRows(items[code], DocumentList), documents);
      }
    }

    /** `publish_item`. */
    method Publish(code: string, notes: string, ecn: string, roles: set<string>, now: int, user: string)
        returns (r: Result<nat, ItemError>)
      requires Valid()
      modifies this
      ensures Valid() && documents == old(documents)
      ensures !HasPublishPermission(roles) ==> r == Err(NoPermission) && unchanged(this)
      ensures HasPublishPermission(roles) && ecn == "" ==> r == Err(EcnRequired) && unchanged(this)
      ensures HasPublishPermission(roles) && ecn != "" && code !in old(items) ==> r == Err(ItemNotFound) && unchanged(this)
      ensures HasPublishPermission(roles) && ecn != "" && code in old(items) ==>
                var d := old(items)[code];
                var v := PublishVersion(StatusOf(d), VersionOf(d));
                var key := VersionKey(code, v);
                var snap := ItemSnapshot(Some(Capture(d)), Some(DocumentSnapshot(TableRows(d, DocumentList), old(documents))));
                && r == Ok(v)
                && items == old(items)[code := PublishedItem(d, v, now, user, ecn)]
                && versions == old(versions)[key := PublishRecord(Lookup(old(versions), key), snap, now, user, notes, ecn)]
    {
      if !HasPublishPermission(roles) { return Err(NoPermission); }
      if ecn == "" { return Err(EcnRequired); }
      if code !in items { return Err(ItemNotFound); }
      var d := items[code];
      var v := PublishVersion(StatusOf(d), VersionOf(d));
      var docs := GetDocumentSnapshot(code);
      var key := VersionKey(code, v);
      versions := versions[key := PublishRecord(Lookup(versions, key), ItemSnapshot(Some(Capture(d)), Some(docs)), now, user, notes, ecn)];
      items := items[code := PublishedItem(d, v, now, user, ecn)];
      r := Ok(v);
    }

    /** `save_as_draft`. */
    method SaveAsDraft(code: string, notes: string, ecn: string, roles: set<string>, now: int, user: string)
        returns (r: Result<nat, ItemError>)
      requires Valid()
      modifies this
      ensures Valid() && documents == old(documents)
      ensures !HasPublishPermission(roles) ==> r == Err(NoPermission) && unchanged(this)
      ensures HasPublishPermission(roles) && ecn == "" ==> r == Err(EcnRequired) && unchanged(this)
      ensures HasPublishPermission(roles) && ecn != "" && code !in old(items) ==> r == Err(ItemNotFound) && unchanged(this)
      ensures HasPublishPermission(roles) && ecn != "" && code in old(items) ==>
                var d := old(items)[code];
                var v := DraftVersion(StatusOf(d), VersionOf(d));
                var key := VersionKey(code, v);
                var snap := ItemSnapshot(Some(Capture(d)), Some(DocumentSnapshot(TableRows(d, DocumentList), old(documents))));
                && r == Ok(v)
                && items == old(items)[code := DraftedItem(d, v, now, user, ecn)]
                && versions == old(versions)[key := DraftRecord(Lookup(old(versions), key), snap, now, user, notes, ecn)]
    {
      if !HasPublishPermission(roles) { return Err(NoPermission); }
      if ecn == "" { return Err(EcnRequired); }
      if code !in items { return Err(ItemNotFound); }
      var d := items[code];
      var v := DraftVersion(StatusOf(d), VersionOf(d));
      var docs := GetDocumentSnapshot(code);
      var key := VersionKey(code, v);
      versions := versions[key := DraftRecord(Lookup(versions, key), ItemSnapshot(Some(Capture(d)), Some(docs)), now, user, notes, ecn)];
      items := items[code := DraftedItem(d, v, now, user, ecn)];
      r := Ok(v);
    }

    /** `block_item`: no ECN is asked for. */
    method Block(code: string, notes: string, roles: set<string>, now: int, user: string)
        returns (r: Result<nat, ItemError>)
      requires Valid()
      modifies this
      ensures Valid() && documents == old(documents)
      ensures !HasPublishPermission(roles) ==> r == Err(NoPermission) && unchanged(this)
      ensures HasPublishPermission(roles) && code !in old(items) ==> r == Err(ItemNotFound) && unchanged(this)
      ensures HasPublishPermission(roles) && code in old(items) ==>
                var d := old(items)[code];
                var v := BlockVersion(VersionOf(d));
                var key := VersionKey(code, v);
                var snap := ItemSnapshot(Some(Capture(d)), Some(DocumentSnapshot(TableRows(d, DocumentList), old(documents))));
                && r == Ok(v)
                && items == old(items)[code := BlockedItem(d, v, now, user)]
                && versions == old(versions)[key := BlockRecord(Lookup(old(versions), key), snap, now, user, notes, "Item blocked")]
    {
      if !HasPublishPermission(roles) { return Err(NoPermission); }
      if code !in items { return Err(ItemNotFound); }
      var d := items[code];
      var v := BlockVersion(VersionOf(d));
      var docs := GetDocumentSnapshot(code);
      var key := VersionKey(code, v);
      versions := versions[key := BlockRecord(Lookup(versions, key), ItemSnapshot(Some(Capture(d)), Some(docs)), now, user, notes, "Item blocked")];
      items := items[code := BlockedItem(d, v, now, user)];
      r := Ok(v);
    }

    /** `unblock_item`: only the status moves; the record of `current_version or 1`
        is marked Published if it exists. */
    method Unblock(code: string, roles: set<string>) returns (r: Outcome<ItemError>)
      requires Valid()
      modifies this
      ensures Valid() && documents == old(documents)
      ensures !HasPublishPermission(roles) ==> r == Fail(NoPermission) && unchanged(this)
      ensures HasPublishPermission(roles) && code !in old(items) ==> r == Fail(ItemNotFound) && unchanged(this)
      ensures HasPublishPermission(roles) && code in old(items) ==>
                var d := old(items)[code];
                var key := VersionKey(code, UnblockVersion(VersionOf(d)));
                && r == Pass
                && items == old(items)[code := WithStatus(d, Published)]
                && versions == (if key in old(versions) then old(versions)[key := old(versions)[key].(status := Published)]
                                else old(versions))
    {
      if !HasPublishPermission(roles) { return Fail(NoPermission); }
      if code !in items { return Fail(ItemNotFound); }
      var d := items[code];
      var key := VersionKey(code, UnblockVersion(VersionOf(d)));
      if key in versions {
        versions := versions[key := versions[key].(status := Published)];
      }
      items := items[code := WithStatus(d, Published)];
      r := Pass;
    }

    /** `set_as_draft`: a direct field write, so an unknown Item is silently skipped. */
    method SetAsDraft(code: string, roles: set<string>) returns (r: Outcome<ItemError>)
      requires Valid()
      modifies this
      ensures Valid() && documents == old(documents) && versions == old(versions)
      ensures !HasPublishPermission(roles) ==> r == Fail(NoPermission) && items == old(items)
      ensures HasPublishPermission(roles) ==>
                && r == Pass
                && items == (if code in old(items) then old(items)[code := WithStatus(old(items)[code], Draft)] else old(items))
    {
      if !HasPublishPermission(roles) { return Fail(NoPermission); }
      if code in items {
        items := items[code := WithStatus(items[code], Draft)];
      }
      r := Pass;
    }

    /** `get_version_data`: the Item snapshot of a record, if present. */
    function VersionData(key: VersionKey): (r: Option<Doc>)
      reads this
      ensures r.Some? ==> key in versions && versions[key].data.itemData == r
      ensures r.None? ==> key !in versions || versions[key].data.itemData.None?
    {
      if key in versions then versions[key].data.itemData else None
    }

    /** `get_version_documents`. */
    function VersionDocuments(code: string, choice: VersionChoice): (r: Result<seq<DocEntry>, ItemError>)
      reads this
      ensures choice == Current ==> r == Ok(CurrentDocuments(code))
      ensures choice.Numbered? && VersionKey(code, choice.n) !in versions ==> r == Err(VersionNotFound(VersionKey(code, choice.n)))
      ensures choice.Numbered? && VersionKey(code, choice.n) in versions ==>
                r == (match versions[VersionKey(code, choice.n)].data.documents
                      case Some(docs) => Ok(docs)
                      case None => Err(NoDocumentSnapshot))
    {
      match choice
      case Current => Ok(CurrentDocuments(code))
      case Numbered(n) =>
        var key := VersionKey(code, n);
        if key !in versions then Err(VersionNotFound(key))
        else match versions[key].data.documents
             case Some(docs) => Ok(docs)
             case None => Err(NoDocumentSnapshot)
    }

    /** `get_downloadable_versions`: the live documents first, then the records
        of other versions that hold documents, highest version first. */
    method DownloadableVersions(code: string) returns (opts: seq<DownloadOption>)
      ensures code !in items ==> opts == []
      ensures code in items ==>
                var cur := VersionOf(items[code]);
                var status := RawStatus(items[code]);
                && |opts| >= 1
                && opts[0] == DownloadOption(cur, VersionKey(code, cur), "v" + NatToString(cur) + " - Current (" + status + ")",
                                             status, true, |CurrentDocuments(code)|, None)
                && ListsHistory(opts[1..], versions, code, cur)
    {
      if code !in items { return []; }
      var d := items[code];
      var cur := VersionOf(d);
      var docs := GetDocumentSnapshot(code);
      var status := RawStatus(d);
      var order := SortedDescending(VersionsOf(versions, code));
      var tail := HistoricalOptions(versions, code, cur, order);
      opts := [DownloadOption(cur, VersionKey(code, cur), "v" + NatToString(cur) + " - Current (" + status + ")",
                              status, true, |docs|, None)] + tail;
      assert opts[1..] == tail;
    }

    /** `compare_versions`: fields compared outside the bookkeeping keys and
        child tables, linked documents compared by link, rows without one ignored. */
    method Compare(code: string, v1: nat, v2: nat) returns (r: Result<ItemDiff, ItemError>)
      ensures VersionKey(code, v1) !in versions ==> r == Err(VersionNotFound(VersionKey(code, v1)))
      ensures VersionKey(code, v1) in versions && VersionKey(code, v2) !in versions ==>
                r == Err(VersionNotFound(VersionKey(code, v2)))
      ensures r == Err(CouldNotLoad) <==>
                VersionKey(code, v1) in versions && VersionKey(code, v2) in versions &&
                (VersionData(VersionKey(code, v1)) in {None, Some(map[])} ||
                 VersionData(VersionKey(code, v2)) in {None, Some(map[])})
      ensures (&& VersionKey(code, v1) in versions && VersionKey(code, v2) in versions
               && VersionData(VersionKey(code, v1)) !in {None, Some(map[])}
               && VersionData(VersionKey(code, v2)) !in {None, Some(map[])}) ==> r.Ok?
      ensures r.Ok? ==>
                var d1 := VersionData(VersionKey(code, v1)).value;
                var d2 := VersionData(VersionKey(code, v2)).value;
                var m1 := KeyedRows(TableRows(d1, DocumentList), "link", true);
                var m2 := KeyedRows(TableRows(d2, DocumentList), "link", true);
                && (forall i :: 0 <= i < |r.value.fields| ==>
                      r.value.fields[i].before == Get(d1, r.value.fields[i].field) &&
                      r.value.fields[i].after == Get(d2, r.value.fields[i].field))
                && FieldsOf(r.value.fields) == ChangedKeys(d1, d2, ItemCompareExclude)
                && DiffCovers(r.value.documents, m1, m2, m1.Keys + m2.Keys)
      ensures r.Ok? && v1 == v2 ==> r.value == ItemDiff([], KeyedDiff([], [], []))
    {
      var k1 := VersionKey(code, v1);
      var k2 := VersionKey(code, v2);
      if k1 !in versions { return Err(VersionNotFound(k1)); }
      if k2 !in versions { return Err(VersionNotFound(k2)); }
      var o1 := VersionData(k1);
      var o2 := VersionData(k2);
      if o1.None? || o2.None? || o1.value == map[] || o2.value == map[] { return Err(CouldNotLoad); }
      var d1 := o1.value;
      var d2 := o2.value;
      var fields := CompareFields(d1, d2, ItemCompareExclude);
      var docs := CompareKeyed(KeyedRows(TableRows(d1, DocumentList), "link", true),
                               KeyedRows(TableRows(d2, DocumentList), "link", true));
      if v1 == v2 {
        ChangedKeysEmptyIff(d1, d2, ItemCompareExclude);
        NoFieldsIffEmpty(fields);
        CompareKeyedSelfIsEmpty(KeyedRows(TableRows(d1, DocumentList), "link", true), docs);
      }
      r := Ok(ItemDiff(fields, docs));
    }

    /** The copy of a snapshot onto the live Item, shared by both restores. */
    method RestoreSnapshot(code: string, snap: Doc)
      requires Valid() && code in items
      modifies this
      ensures Valid()
      ensures items == old(items)[code := Restored(old(items)[code], snap, ItemRestoreExclude, ItemChildTables)]
      ensures versions == old(versions) && documents == old(documents)
    {
      var restored := SnapshotCodec.Restore(items[code], snap, ItemRestoreExclude, ItemChildTables);
      RestoreKeepsPlmState(items[code], snap);
      ReplaceKeepsConsistent(items, versions, code, restored);
      items := items[code := restored];
    }

    /** `restore_version` as written: the snapshot is copied onto the live Item,
        then the nested `save_as_draft` runs without an ECN and fails; the
        restored fields stay and no new version is written. */
    method Restore(code: string, key: VersionKey, roles: set<string>) returns (r: Result<nat, ItemError>)
      requires Valid()
      modifies this
      ensures Valid()
      ensures versions == old(versions) && documents == old(documents)
      ensures !HasPublishPermission(roles) ==> r == Err(NoPermission) && items == old(items)
      ensures HasPublishPermission(roles) && key !in old(versions) ==> r == Err(VersionNotFound(key)) && items == old(items)
      ensures HasPublishPermission(roles) && key in old(versions) && old(versions)[key].data.itemData.None? ==>
                r == Err(NoVersionData) && items == old(items)
      ensures (HasPublishPermission(roles) && key in old(versions) && old(versions)[key].data.itemData.Some? &&
               code !in old(items)) ==> r == Err(ItemNotFound) && items == old(items)
      ensures (HasPublishPermission(roles) && key in old(versions) && old(versions)[key].data.itemData.Some? &&
               code in old(items)) ==>
                && r == Err(EcnRequired)
                && items == old(items)[code := Restored(old(items)[code], old(versions)[key].data.itemData.value,
                                                        ItemRestoreExclude, ItemChildTables)]
    {
      if !HasPublishPermission(roles) { return Err(NoPermission); }
      if key !in versions { return Err(VersionNotFound(key)); }
      var data := versions[key].data.itemData;
      if data.None? { return Err(NoVersionData); }
      if code !in items { return Err(ItemNotFound); }
      RestoreSnapshot(code, data.value);
      r := SaveAsDraft(code, RestoreNote(key.version), "", roles, 0, "");
    }

    /** The restore the docstring of `restore_version` promises ("creates a new
        version with the restored data"): with an ECN given up front, the
        snapshot is copied onto the live Item, which the nested `save_as_draft`
        then saves as a new draft version. */
    method RestoreAsDraft(code: string, key: VersionKey, ecn: string, roles: set<string>, now: int, user: string)
        returns (r: Result<nat, ItemError>)
      requires Valid()
      modifies this
      ensures Valid() && documents == old(documents)
      ensures r.Err? ==> unchanged(this)
      ensures !HasPublishPermission(roles) ==> r == Err(NoPermission)
      ensures HasPublishPermission(roles) && ecn == "" ==> r == Err(EcnRequired)
      ensures HasPublishPermission(roles) && ecn != "" && key !in old(versions) ==> r == Err(VersionNotFound(key))
      ensures (HasPublishPermission(roles) && ecn != "" && key in old(versions) &&
               old(versions)[key].data.itemData.None?) ==> r == Err(NoVersionData)
      ensures (HasPublishPermission(roles) && ecn != "" && key in old(versions) &&
               old(versions)[key].data.itemData.Some? && code !in old(items)) ==> r == Err(ItemNotFound)
      ensures (HasPublishPermission(roles) && ecn != "" && key in old(versions) &&
               old(versions)[key].data.itemData.Some? && code in old(items)) ==>
                var restored := Restored(old(items)[code], old(versions)[key].data.itemData.value,
                                         ItemRestoreExclude, ItemChildTables);
                var v := DraftVersion(StatusOf(restored), VersionOf(restored));
                var k := VersionKey(code, v);
                var docs := DocumentSnapshot(TableRows(restored, DocumentList), old(documents));
                && r == Ok(v)
                && items == old(items)[code := DraftedItem(restored, v, now, user, ecn)]
                && versions == old(versions)[k := DraftRecord(Lookup(old(versions), k),
                                                             ItemSnapshot(Some(Capture(restored)), Some(docs)),
                                                             now, user, RestoreNote(key.version), ecn)]
    {
      if !HasPublishPermission(roles) { return Err(NoPermission); }
      if ecn == "" { return Err(EcnRequired); }
      if key !in versions { return Err(VersionNotFound(key)); }
      var data := versions[key].data.itemData;
      if data.None? { return Err(NoVersionData); }
      if code !in items { return Err(ItemNotFound); }
      var v := RestoreThenDraft(code, data.value, RestoreNote(key.version), ecn, roles, now, user);
      r := Ok(v);
    }

    /** The two writes of a restore with an ECN. */
    method RestoreThenDraft(code: string, snap: Doc, notes: string, ecn: string, roles: set<string>, now: int, user: string)
        returns (v: nat)
      requires Valid() && code in items && ecn != "" && HasPublishPermission(roles)
      modifies this
      ensures Valid() && documents == old(documents)
      ensures var restored := Restored(old(items)[code], snap, ItemRestoreExclude, ItemChildTables);
              var k := VersionKey(code, v);
              var docs := DocumentSnapshot(TableRows(restored, DocumentList), old(documents));
              && v == DraftVersion(StatusOf(restored), VersionOf(restored))
              && items == old(items)[code := DraftedItem(restored, v, now, user, ecn)]
              && versions == old(versions)[k := DraftRecord(Lookup(old(versions), k),
                                                           ItemSnapshot(Some(Capture(restored)), Some(docs)),
                                                           now, user, notes, ecn)]
    {
      RestoreSnapshot(code, snap);
      var r := SaveAsDraft(code, notes, ecn, roles, now, user);
      v := r.value;
    }
  }
}
