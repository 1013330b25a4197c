/** The snapshot codec shared by the BOM and Item controllers: capturing a live
    document into a version record, and restoring a record back onto the live
    document. */
module SnapshotCodec {
  import opened Records

  /** `as_dict()` with the host's eight bookkeeping keys popped. */
  function Capture(d: Doc): (s: Doc)
    ensures forall k :: k in s <==> k in d && k !in SystemKeys
    ensures forall k :: k in s ==> s[k] == d[k]
  {
    d - SystemKeys
  }

  /** A child row with its identity and parent linkage popped. */
  function StripRow(r: Row): (s: Row)
    ensures forall k :: k in s <==> k in r && k !in RowIdentityKeys
    ensures forall k :: k in s ==> s[k] == r[k]
  {
    r - RowIdentityKeys
  }

  function StripRows(rows: seq<Row>): (s: seq<Row>)
    ensures |s| == |rows|
    ensures forall i :: 0 <= i < |s| ==> s[i] == StripRow(rows[i])
  {
    seq(|rows|, i requires 0 <= i < |rows| => StripRow(rows[i]))
  }

  /** Restore overwrites key `k` of the target with the snapshot's scalar: the
      key exists on the target, is not excluded, and holds no list in the snapshot. */
  predicate ScalarRestored(target: Doc, snap: Doc, exclude: set<string>, k: string) {
    k in target && k in snap && k !in exclude && snap[k].Scalar?
  }

  /** Restore replaces child table `k` with the snapshot's rows: it is a listed
      child table and the snapshot holds a list for it. */
  predicate TableRestored(snap: Doc, tables: seq<string>, k: string) {
    k in tables && k in snap && snap[k].Table?
  }

  /** The document restore produces, stated key by key. */
  function Restored(target: Doc, snap: Doc, exclude: set<string>, tables: seq<string>): (r: Doc)
    ensures forall k :: k in r <==> k in target || TableRestored(snap, tables, k)
    ensures forall k :: TableRestored(snap, tables, k) ==> r[k] == Table(StripRows(snap[k].rows))
    ensures forall k :: ScalarRestored(target, snap, exclude, k) ==> r[k] == snap[k]
    ensures forall k :: (k in target && !TableRestored(snap, tables, k) && !ScalarRestored(target, snap, exclude, k))
                          ==> r[k] == target[k]
  {
    map k | k in target.Keys + (set t | t in tables && t in snap && snap[t].Table?) ::
      if TableRestored(snap, tables, k) then Table(StripRows(snap[k].rows))
      else if ScalarRestored(target, snap, exclude, k) then snap[k]
      else target[k]
  }

  /** The loops of `restore_bom_version` / `restore_version` over the snapshot's
      keys and over the listed child tables, applied to the in-memory document. */
  method Restore(target: Doc, snap: Doc, exclude: set<string>, tables: seq<string>) returns (r: Doc)
    ensures r == Restored(target, snap, exclude, tables)
  {
    r := target;
    var keys := snap.Keys;
    ghost var done: set<string> := {};
    while keys != {}
      invariant keys + done == snap.Keys && keys !! done
      invariant r.Keys == target.Keys
      invariant forall k :: k in r ==>
                  r[k] == (if k in done && ScalarRestored(target, snap, exclude, k) then snap[k] else target[k])
      decreases keys
    {
      var k :| k in keys;
      if k !in exclude && snap[k].Scalar? && k in r {
        r := r[k := snap[k]];
      }
      keys := keys - {k};
      done := done + {k};
    }
    var i := 0;
    while i < |tables|
      invariant 0 <= i <= |tables|
      invariant forall k :: k in r <==> k in target || TableRestored(snap, tables[..i], k)
      invariant forall k :: k in r ==>
                  r[k] == (if TableRestored(snap, tables[..i], k) then Table(StripRows(snap[k].rows))
                           else if ScalarRestored(target, snap, exclude, k) then snap[k]
                           else target[k])
    {
      var t := tables[i];
      assert tables[..i + 1] == tables[..i] + [t];
      if t in snap && snap[t].Table? {
        r := r[t := Table(StripRows(snap[t].rows))];
      }
      i := i + 1;
    }
    assert tables[..i] == tables;
    var want := Restored(target, snap, exclude, tables);
    assert forall k :: k in r <==> k in want;
    assert forall k :: k in r ==> r[k] == want[k];
  }

  /** Restoring a document's own snapshot gives every scalar field back unchanged. */
  lemma RestoreOwnCaptureKeepsScalars(d: Doc, exclude: set<string>, tables: seq<string>)
    ensures var r := Restored(d, Capture(d), exclude, tables);
            forall k :: k in d && d[k].Scalar? ==> k in r && r[k] == d[k]
  {
  }

  /** capture -> restore -> capture: every scalar the restore carries over is in
      the new capture with the snapshot's value, and every restored child table
      holds the snapshot's rows stripped of their identity. */
  lemma CaptureAfterRestore(target: Doc, snap: Doc, exclude: set<string>, tables: seq<string>)
    requires SystemKeys <= exclude
    requires forall t :: t in tables ==> t !in SystemKeys
    ensures var c := Capture(Restored(target, snap, exclude, tables));
            && (forall k :: ScalarRestored(target, snap, exclude, k) ==> k in c && c[k] == snap[k])
            && (forall k :: TableRestored(snap, tables, k) ==> k in c && c[k] == Table(StripRows(snap[k].rows)))
  {
  }

  /** Restoring the same snapshot twice changes nothing the first restore did not. */
  lemma RestoreIdempotent(target: Doc, snap: Doc, exclude: set<string>, tables: seq<string>)
    ensures var once := Restored(target, snap, exclude, tables);
            Restored(once, snap, exclude, tables) == once
  {
    var once := Restored(target, snap, exclude, tables);
    var twice := Restored(once, snap, exclude, tables);
    forall k | k in twice ensures k in once && twice[k] == once[k] {
      if TableRestored(snap, tables, k) {
      } else if ScalarRestored(once, snap, exclude, k) {
        assert ScalarRestored(target, snap, exclude, k);
      }
    }
    assert forall k :: k in once ==> k in twice;
  }
}
