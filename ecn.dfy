/** The Engineering Change Notice: its author and creation date default on
    insert and save, and it lists the Item and BOM versions that cite it. */
module Ecn {
  import opened Records

  /** A value left as it is when it is set, else the fallback. */
  function Defaulted(value: string, fallback: string): (r: string)
    ensures value != "" ==> r == value
    ensures value == "" ==> r == fallback
  {
    if value != "" then value else fallback
  }

  /** Defaulting twice is defaulting once, whatever the second default is. */
  lemma DefaultedIdempotent(value: string, d1: string, d2: string)
    requires d1 != ""
    ensures Defaulted(Defaulted(value, d1), d2) == Defaulted(value, d1)
  {
  }

  /** The ECN form: author and creation date are empty until set. */
  class EcnForm {
    var author: string
    var creationDate: string

    constructor(author0: string, creationDate0: string)
      ensures author == author0 && creationDate == creationDate0
    {
      author := author0;
      creationDate := creationDate0;
    }

    /** `before_insert`: the session user and the current time fill in only
        what is empty. */
    method BeforeInsert(user: string, now: string)
      modifies this
      ensures author == Defaulted(old(author), user)
      ensures creationDate == Defaulted(old(creationDate), now)
    {
      if author == "" {
        author := user;
      }
      if creationDate == "" {
        creationDate := now;
      }
    }

    /** `before_save`: the same defaults, applied on every save. */
    method BeforeSave(user: string, now: string)
      modifies this
      ensures author == Defaulted(old(author), user)
      ensures creationDate == Defaulted(old(creationDate), now)
    {
      if author == "" {
        author := user;
      }
      if creationDate == "" {
        creationDate := now;
      }
    }
  }

  /** A version record as the host lists it: Item Versions carry an item
      code, BOM Versions a BOM name, in `owner`. */
  datatype VersionRow = VersionRow(name: string, owner: string, version: nat, status: string,
                                   publishedDate: Option<string>, ecn: Option<string>)

  /** The fields `get_linked_versions` selects. */
  datatype LinkedVersion = LinkedVersion(name: string, owner: string, version: nat, status: string,
                                         publishedDate: Option<string>)

  function Selected(row: VersionRow): LinkedVersion {
    LinkedVersion(row.name, row.owner, row.version, row.status, row.publishedDate)
  }

  /** The rows citing the ECN `ecn`, selected, in the host's order. */
  function CitingRows(rows: seq<VersionRow>, ecn: string): (r: seq<LinkedVersion>)
    ensures |r| <= |rows|
    decreases |rows|
  {
    if rows == [] then []
    else
      var last := rows[|rows| - 1];
      CitingRows(rows[..|rows| - 1], ecn) + (if last.ecn == Some(ecn) then [Selected(last)] else [])
  }

  /** A listed version cites the ECN, and every version citing it is listed. */
  lemma {:induction false} CitingRowsExact(rows: seq<VersionRow>, ecn: string, x: LinkedVersion)
    ensures x in CitingRows(rows, ecn) <==> exists i :: 0 <= i < |rows| && rows[i].ecn == Some(ecn) && Selected(rows[i]) == x
    decreases |rows|
  {
    if rows != [] {
      var init := rows[..|rows| - 1];
      var last := rows[|rows| - 1];
      CitingRowsExact(init, ecn, x);
      if x in CitingRows(rows, ecn) {
        if x in CitingRows(init, ecn) {
          var i :| 0 <= i < |init| && init[i].ecn == Some(ecn) && Selected(init[i]) == x;
          assert rows[i] == init[i];
        } else {
          assert rows[|rows| - 1].ecn == Some(ecn) && Selected(rows[|rows| - 1]) == x;
        }
      }
      if exists i :: 0 <= i < |rows| && rows[i].ecn == Some(ecn) && Selected(rows[i]) == x {
        var i :| 0 <= i < |rows| && rows[i].ecn == Some(ecn) && Selected(rows[i]) == x;
        if i < |init| {
          assert init[i] == rows[i];
        }
      }
    }
  }

  /** What `get_linked_versions` returns. */
  datatype LinkedVersions = LinkedVersions(itemVersions: seq<LinkedVersion>, bomVersions: seq<LinkedVersion>)

  /** `get_linked_versions`: each version type that exists contributes the
      rows citing the ECN; one that does not exist contributes nothing. */
  function GetLinkedVersions(itemVersions: Option<seq<VersionRow>>, bomVersions: Option<seq<VersionRow>>, ecn: string)
    : (r: LinkedVersions)
    ensures itemVersions.None? ==> r.itemVersions == []
    ensures bomVersions.None? ==> r.bomVersions == []
    ensures itemVersions.Some? ==> |r.itemVersions| <= |itemVersions.value|
    ensures bomVersions.Some? ==> |r.bomVersions| <= |bomVersions.value|
  {
    LinkedVersions(
      if itemVersions.Some? then CitingRows(itemVersions.value, ecn) else [],
      if bomVersions.Some? then CitingRows(bomVersions.value, ecn) else [])
  }

  /** Both lists hold exactly the versions of their type citing the ECN. */
  lemma LinkedVersionsExact(itemVersions: Option<seq<VersionRow>>, bomVersions: Option<seq<VersionRow>>,
                            ecn: string, x: LinkedVersion)
    ensures x in GetLinkedVersions(itemVersions, bomVersions, ecn).itemVersions <==>
              itemVersions.Some? && exists i :: 0 <= i < |itemVersions.value| && itemVersions.value[i].ecn == Some(ecn) && Selected(itemVersions.value[i]) == x
    ensures x in GetLinkedVersions(itemVersions, bomVersions, ecn).bomVersions <==>
              bomVersions.Some? && exists i :: 0 <= i < |bomVersions.value| && bomVersions.value[i].ecn == Some(ecn) && Selected(bomVersions.value[i]) == x
  {
    if itemVersions.Some? {
      CitingRowsExact(itemVersions.value, ecn, x);
    }
    if bomVersions.Some? {
      CitingRowsExact(bomVersions.value, ecn, x);
    }
  }
}
