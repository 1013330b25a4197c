/** The Document hooks: an attachment is required (unless its upload is still
    pending) and names the file when no name was chosen; inserting a Document
    links it once from its Item; cancelling it removes every link to it. */
module DocumentEvents {
  import opened Records
  import opened DiffEngine

  /** The placeholder a new Document carries until its file is uploaded. */
  const PendingUpload: string := "pending_upload"

  /** The Item's child table of links to Documents. */
  const DocumentList: string := "custom_document_list"

  datatype DocumentError = AttachmentRequired | ItemNotFound

  /** `os.path.basename`: the part after the last '/'. */
  function Basename(path: string): (b: string)
    ensures |b| <= |path| && path == path[..|path| - |b|] + b
    ensures '/' !in b
    ensures |b| < |path| ==> path[|path| - |b| - 1] == '/'
    decreases |path|
  {
    if path == [] || path[|path| - 1] == '/' then []
    else
      var init := path[..|path| - 1];
      var b := Basename(init);
      assert init == init[..|init| - |b|] + b;
      b + [path[|path| - 1]]
  }

  /** The Document being saved or cancelled. */
  class DocumentForm {
    const name: string
    const item: string
    var attachment: string
    var filename: string
    var ignoreLinks: bool

    constructor(name0: string, item0: string, attachment0: string, filename0: string)
      ensures name == name0 && item == item0 && attachment == attachment0 && filename == filename0 && !ignoreLinks
    {
      name := name0;
      item := item0;
      attachment := attachment0;
      filename := filename0;
      ignoreLinks := false;
    }

    /** `validate_document`: a pending upload skips every check; otherwise the
        attachment is required and names the file unless a name is set. */
    method Validate() returns (r: Outcome<DocumentError>)
      modifies this
      ensures attachment == old(attachment) && ignoreLinks == old(ignoreLinks)
      ensures old(attachment) == PendingUpload ==> r == Pass && filename == old(filename)
      ensures old(attachment) == "" ==> r == Fail(AttachmentRequired) && filename == old(filename)
      ensures old(attachment) !in {PendingUpload, ""} ==>
                r == Pass && filename == (if old(filename) != "" then old(filename) else Basename(old(attachment)))
    {
      if attachment == PendingUpload { return Pass; }
      if attachment == "" { return Fail(AttachmentRequired); }
      if filename == "" {
        filename := Basename(attachment);
      }
      r := Pass;
    }

    /** `before_cancel_document`: a Document may be cancelled while Items still link to it. */
    method BeforeCancel()
      modifies this
      ensures ignoreLinks
      ensures attachment == old(attachment) && filename == old(filename)
    {
      ignoreLinks := true;
    }
  }

  /** A link row points at the Document `name`. */
  predicate LinksTo(row: Row, name: string) {
    RowGet(row, "link") == Text(name)
  }

  /** No two link rows of a table point at the same Document. */
  predicate DistinctLinks(rows: seq<Row>) {
    forall i, j :: 0 <= i < j < |rows| && RowGet(rows[i], "link").Text? ==> RowGet(rows[i], "link") != RowGet(rows[j], "link")
  }

  /** The rows left after deleting those that point at `name`, in their order. */
  function RemoveLinks(rows: seq<Row>, name: string): seq<Row>
    decreases |rows|
  {
    if rows == [] then []
    else
      var last := rows[|rows| - 1];
      RemoveLinks(rows[..|rows| - 1], name) + (if LinksTo(last, name) then [] else [last])
  }

  /** Deleting the links to a Document keeps exactly the other rows. */
  lemma {:induction false} RemoveLinksExact(rows: seq<Row>, name: string, x: Row)
    ensures x in RemoveLinks(rows, name) <==> x in rows && !LinksTo(x, name)
    decreases |rows|
  {
    if rows != [] {
      var init := rows[..|rows| - 1];
      RemoveLinksExact(init, name, x);
      assert rows == init + [rows[|rows| - 1]];
    }
  }

  /** Deleting rows never makes two links collide. */
  lemma {:induction false} RemoveLinksKeepsDistinct(rows: seq<Row>, name: string)
    requires DistinctLinks(rows)
    ensures DistinctLinks(RemoveLinks(rows, name))
    decreases |rows|
  {
    if rows != [] {
      var init := rows[..|rows| - 1];
      var last := rows[|rows| - 1];
      assert DistinctLinks(init) by {
        forall i, j | 0 <= i < j < |init| && RowGet(init[i], "link").Text?
          ensures RowGet(init[i], "link") != RowGet(init[j], "link")
        {
          assert init[i] == rows[i] && init[j] == rows[j];
        }
      }
      RemoveLinksKeepsDistinct(init, name);
      var kept := RemoveLinks(init, name);
      if !LinksTo(last, name) {
        var r := kept + [last];
        forall i, j | 0 <= i < j < |r| && RowGet(r[i], "link").Text?
          ensures RowGet(r[i], "link") != RowGet(r[j], "link")
        {
          if j == |r| - 1 {
            RemoveLinksExact(init, name, r[i]);
            var k :| 0 <= k < |init| && init[k] == r[i];
            assert rows[k] == r[i];
          } else {
            assert r[i] == kept[i] && r[j] == kept[j];
          }
        }
      }
    }
  }

  /** The loop of `on_cancel_document` over one table's rows. */
  method DropLinks(rows: seq<Row>, name: string) returns (kept: seq<Row>)
    ensures kept == RemoveLinks(rows, name)
  {
    kept := [];
    var i := 0;
    while i < |rows|
      invariant 0 <= i <= |rows|
      invariant kept == RemoveLinks(rows[..i], name)
    {
      assert rows[..i + 1][..i] == rows[..i];
      if !LinksTo(rows[i], name) {
        kept := kept + [rows[i]];
      }
      i := i + 1;
    }
    assert rows[..i] == rows;
  }

  /** An Item with the links to `name` deleted from its document list. */
  function Unlinked(d: Doc, name: string): (r: Doc)
    ensures forall k :: k != DocumentList ==> Get(r, k) == Get(d, k)
    ensures TableRows(r, DocumentList) == RemoveLinks(TableRows(d, DocumentList), name)
  {
    match Get(d, DocumentList)
    case Table(rows) => d[DocumentList := Table(RemoveLinks(rows, name))]
    case Scalar(_) => d
  }

  /** An Item after `after_insert_document` appended a link to `name`. */
  function Linked(d: Doc, name: string): (r: Doc)
    ensures forall k :: k != DocumentList ==> Get(r, k) == Get(d, k)
    ensures TableRows(r, DocumentList) == TableRows(d, DocumentList) + [map["link" := Text(name)]]
  {
    d[DocumentList := Table(TableRows(d, DocumentList) + [map["link" := Text(name)]])]
  }

  /** The host's Items, as far as the Document hooks touch them. */
  class ItemDocuments {
    var items: map<string, Doc>

    /** No Item links the same Document twice. */
    ghost predicate Valid()
      reads this
    {
      forall k :: k in items ==> DistinctLinks(TableRows(items[k], DocumentList))
    }

    constructor(items0: map<string, Doc>)
      ensures items == items0
    {
      items := items0;
    }

    /** `after_insert_document`: the Document's Item gets one link row to it,
        unless it already has one. */
    method AfterInsert(doc: string, item: string) returns (r: Outcome<DocumentError>)
      modifies this
      ensures old(Valid()) ==> Valid()
      ensures item == "" ==> r == Pass && items == old(items)
      ensures item != "" && item !in old(items) ==> r == Fail(ItemNotFound) && items == old(items)
      ensures item != "" && item in old(items) ==>
                var rows := TableRows(old(items)[item], DocumentList);
                && r == Pass
                && items == (if exists i :: 0 <= i < |rows| && LinksTo(rows[i], doc) then old(items)
                             else old(items)[item := Linked(old(items)[item], doc)])
      ensures item != "" && item in old(items) ==>
                exists i :: 0 <= i < |TableRows(items[item], DocumentList)| && LinksTo(TableRows(items[item], DocumentList)[i], doc)
    {
      ghost var wasValid := Valid();
      if item == "" { return Pass; }
      if item !in items { return Fail(ItemNotFound); }
      var rows := TableRows(items[item], DocumentList);
      var i := 0;
      while i < |rows|
        invariant 0 <= i <= |rows|
        invariant forall j :: 0 <= j < i ==> !LinksTo(rows[j], doc)
      {
        if LinksTo(rows[i], doc) {
          assert LinksTo(TableRows(items[item], DocumentList)[i], doc);
          return Pass;
        }
        i := i + 1;
      }
      var d := Linked(items[item], doc);
      var rows' := TableRows(d, DocumentList);
      assert LinksTo(rows'[|rows|], doc);
      if wasValid {
        forall a, b | 0 <= a < b < |rows'| && RowGet(rows'[a], "link").Text?
          ensures RowGet(rows'[a], "link") != RowGet(rows'[b], "link")
        {
          if b < |rows| {
            assert rows'[a] == rows[a] && rows'[b] == rows[b];
          } else {
            assert rows'[a] == rows[a];
          }
        }
      }
      items := items[item := d];
      assert LinksTo(TableRows(items[item], DocumentList)[|rows|], doc);
      r := Pass;
    }

    /** `on_cancel_document`: every link row pointing at the Document is
        deleted; every other row stays, in order. */
    method OnCancel(doc: string)
      modifies this
      ensures old(Valid()) ==> Valid()
      ensures items.Keys == old(items).Keys
      ensures forall k :: k in items ==> items[k] == Unlinked(old(items)[k], doc)
    {
      ghost var wasValid := Valid();
      var todo := items.Keys;
      while todo != {}
        invariant todo <= items.Keys && items.Keys == old(items).Keys
        invariant forall k :: k in items && k in todo ==> items[k] == old(items)[k]
        invariant forall k :: k in items && k !in todo ==> items[k] == Unlinked(old(items)[k], doc)
        decreases todo
      {
        var k :| k in todo;
        var d := items[k];
        if Get(d, DocumentList).Table? {
          var kept := DropLinks(Get(d, DocumentList).rows, doc);
          items := items[k := d[DocumentList := Table(kept)]];
        }
        todo := todo - {k};
      }
      if wasValid {
        forall k | k in items ensures DistinctLinks(TableRows(items[k], DocumentList)) {
          RemoveLinksKeepsDistinct(TableRows(old(items)[k], DocumentList), doc);
        }
      }
    }
  }

  /** After a cancel no Item links the Document, and no other link is lost. */
  lemma CancelRemovesExactly(d: Doc, name: string, x: Row)
    ensures x in TableRows(Unlinked(d, name), DocumentList) <==> x in TableRows(d, DocumentList) && !LinksTo(x, name)
  {
    RemoveLinksExact(TableRows(d, DocumentList), name, x);
  }
}
