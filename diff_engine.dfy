/** The diff engine behind `compare_bom_versions` and `compare_versions`: a
    field-by-field comparison of two snapshots, and a keyed comparison of one
    child table (BOM lines by item code, Item documents by link). */
module DiffEngine {
  import opened Records

  /** One entry of `differences["fields"]`. */
  datatype FieldChange = FieldChange(field: string, before: Field, after: Field)

  /** One entry of `items_changed` / `documents_changed`. */
  datatype RowChange<K, V> = RowChange(key: K, before: V, after: V)

  /** The fields whose values differ between two snapshots, excluded keys aside;
      a key missing from one side reads as None there. */
  function ChangedKeys(d1: Doc, d2: Doc, exclude: set<string>): (ks: set<string>)
    ensures forall k :: k in ks <==> (k in d1 || k in d2) && k !in exclude && Get(d1, k) != Get(d2, k)
  {
    set k | k in d1.Keys + d2.Keys && k !in exclude && Get(d1, k) != Get(d2, k)
  }

  /** The field names a list of changes reports. */
  function FieldsOf(diffs: seq<FieldChange>): set<string> {
    set i | 0 <= i < |diffs| :: diffs[i].field
  }

  /** The loop over the union of both snapshots' keys. */
  method CompareFields(d1: Doc, d2: Doc, exclude: set<string>) returns (diffs: seq<FieldChange>)
    ensures forall i :: 0 <= i < |diffs| ==>
              diffs[i].before == Get(d1, diffs[i].field) && diffs[i].after == Get(d2, diffs[i].field)
    ensures FieldsOf(diffs) == ChangedKeys(d1, d2, exclude)
    ensures forall i, j :: 0 <= i < j < |diffs| ==> diffs[i].field != diffs[j].field
  {
    diffs := [];
    var keys := d1.Keys + d2.Keys;
    ghost var done: set<string> := {};
    while keys != {}
      invariant keys + done == d1.Keys + d2.Keys && keys !! done
      invariant forall i :: 0 <= i < |diffs| ==>
                  diffs[i].field in done &&
                  diffs[i].before == Get(d1, diffs[i].field) && diffs[i].after == Get(d2, diffs[i].field)
      invariant FieldsOf(diffs) == ChangedKeys(d1, d2, exclude) * done
      invariant forall i, j :: 0 <= i < j < |diffs| ==> diffs[i].field != diffs[j].field
      decreases keys
    {
      var k :| k in keys;
      if k !in exclude {
        var v1 := Get(d1, k);
        var v2 := Get(d2, k);
        if v1 != v2 {
          FieldsOfAppend(diffs, FieldChange(k, v1, v2));
          diffs := diffs + [FieldChange(k, v1, v2)];
        }
      }
      keys := keys - {k};
      done := done + {k};
    }
  }

  lemma FieldsOfAppend(diffs: seq<FieldChange>, c: FieldChange)
    ensures FieldsOf(diffs + [c]) == FieldsOf(diffs) + {c.field}
  {
    var e := diffs + [c];
    assert e[|diffs|].field == c.field;
    forall f | f in FieldsOf(e) ensures f in FieldsOf(diffs) + {c.field} {
      var i :| 0 <= i < |e| && e[i].field == f;
      if i < |diffs| { assert diffs[i].field == f; }
    }
    forall f | f in FieldsOf(diffs) ensures f in FieldsOf(e) {
      var i :| 0 <= i < |diffs| && diffs[i].field == f;
      assert e[i].field == f;
    }
  }

  /** A list of field changes names no field exactly when it is empty. */
  lemma NoFieldsIffEmpty(diffs: seq<FieldChange>)
    ensures FieldsOf(diffs) == {} <==> diffs == []
  {
    if diffs != [] { assert diffs[0].field in FieldsOf(diffs); }
  }

  /** Two snapshots have no changed field exactly when they agree on every
      compared key; so comparing a snapshot with itself reports no field. */
  lemma ChangedKeysEmptyIff(d1: Doc, d2: Doc, exclude: set<string>)
    ensures ChangedKeys(d1, d2, exclude) == {} <==> forall k :: k !in exclude ==> Get(d1, k) == Get(d2, k)
    ensures ChangedKeys(d1, d1, exclude) == {}
    ensures ChangedKeys(d1, d2, exclude) == ChangedKeys(d2, d1, exclude)
  {
    if ChangedKeys(d1, d2, exclude) == {} {
      forall k | k !in exclude ensures Get(d1, k) == Get(d2, k) {
        if k !in d1 && k !in d2 {
        } else {
          assert k !in ChangedKeys(d1, d2, exclude);
        }
      }
    }
  }

  /** Whether a row takes part in the keyed comparison: the BOM comparison takes
      every line, the Item comparison only documents with a truthy link. */
  predicate Keeps(r: Row, key: string, truthyOnly: bool) {
    !truthyOnly || Truthy(RowGet(r, key))
  }

  /** The key values of the rows that take part. */
  function RowKeys(rows: seq<Row>, key: string, truthyOnly: bool): set<Atom> {
    set i | 0 <= i < |rows| && Keeps(rows[i], key, truthyOnly) :: RowGet(rows[i], key)
  }

  /** Row `i` is the last row that takes part with its key value. */
  predicate LastWithKey(rows: seq<Row>, key: string, truthyOnly: bool, i: int)
    requires 0 <= i < |rows|
  {
    Keeps(rows[i], key, truthyOnly) &&
    forall j :: i < j < |rows| && Keeps(rows[j], key, truthyOnly) ==> RowGet(rows[j], key) != RowGet(rows[i], key)
  }

  /** The dictionary comprehension `{row.get(key): row for row in rows}`. */
  function KeyedRows(rows: seq<Row>, key: string, truthyOnly: bool): (m: map<Atom, Row>)
    ensures m.Keys == RowKeys(rows, key, truthyOnly)
    ensures forall a :: a in m ==> RowGet(m[a], key) == a && Keeps(m[a], key, truthyOnly)
    decreases |rows|
  {
    if rows == [] then map[]
    else
      var init := rows[..|rows| - 1];
      var last := rows[|rows| - 1];
      var m := KeyedRows(init, key, truthyOnly);
      assert RowKeys(rows, key, truthyOnly) ==
             RowKeys(init, key, truthyOnly) + (if Keeps(last, key, truthyOnly) then {RowGet(last, key)} else {}) by {
        assert forall i :: 0 <= i < |init| ==> init[i] == rows[i];
      }
      if Keeps(last, key, truthyOnly) then m[RowGet(last, key) := last] else m
  }

  /** When several rows share a key, the later row wins: each key maps to the
      last row that carries it. */
  lemma {:induction false} KeyedRowsLastWins(rows: seq<Row>, key: string, truthyOnly: bool, i: int)
    requires 0 <= i < |rows| && LastWithKey(rows, key, truthyOnly, i)
    ensures RowGet(rows[i], key) in KeyedRows(rows, key, truthyOnly)
    ensures KeyedRows(rows, key, truthyOnly)[RowGet(rows[i], key)] == rows[i]
    decreases |rows|
  {
    var init := rows[..|rows| - 1];
    var last := rows[|rows| - 1];
    if i < |rows| - 1 {
      assert init[i] == rows[i];
      assert LastWithKey(init, key, truthyOnly, i) by {
        forall j | i < j < |init| && Keeps(init[j], key, truthyOnly)
          ensures RowGet(init[j], key) != RowGet(init[i], key)
        {
          assert init[j] == rows[j];
        }
      }
      KeyedRowsLastWins(init, key, truthyOnly, i);
      if Keeps(last, key, truthyOnly) {
        assert RowGet(last, key) != RowGet(rows[i], key);
      }
    }
  }

  /** An entry of `items_removed` / `items_added` (or the document lists), with
      the key it was filed under. */
  datatype KeyedRow<K, V> = KeyedRow(key: K, row: V)

  /** The keyed half of `differences`. */
  datatype KeyedDiff<K, V> = KeyedDiff(removed: seq<KeyedRow<K, V>>, added: seq<KeyedRow<K, V>>, changed: seq<RowChange<K, V>>)

  function RowKeysOf<K, V>(rows: seq<KeyedRow<K, V>>): set<K> {
    set i | 0 <= i < |rows| :: rows[i].key
  }

  function ChangeKeysOf<K, V>(cs: seq<RowChange<K, V>>): set<K> {
    set i | 0 <= i < |cs| :: cs[i].key
  }

  /** A list files no key exactly when it is empty. */
  lemma NoKeysIffEmpty<K, V>(rows: seq<KeyedRow<K, V>>, cs: seq<RowChange<K, V>>)
    ensures RowKeysOf(rows) == {} <==> rows == []
    ensures ChangeKeysOf(cs) == {} <==> cs == []
  {
    if rows != [] { assert rows[0].key in RowKeysOf(rows); }
    if cs != [] { assert cs[0].key in ChangeKeysOf(cs); }
  }

  /** The keys present on both sides whose rows differ. */
  function DifferingKeys<K, V(==)>(m1: map<K, V>, m2: map<K, V>): set<K> {
    set a | a in m1 && a in m2 && m1[a] != m2[a]
  }

  /** `rows` lists each key of `done` that `m` has and `other` lacks, once, with
      its row from `m`. */
  predicate ListsOnlyIn<K, V(==)>(rows: seq<KeyedRow<K, V>>, m: map<K, V>, other: map<K, V>, done: set<K>) {
    && RowKeysOf(rows) == done * (m.Keys - other.Keys)
    && (forall i :: 0 <= i < |rows| ==> rows[i].key in m && rows[i].row == m[rows[i].key])
    && (forall i, j :: 0 <= i < j < |rows| ==> rows[i].key != rows[j].key)
  }

  /** `cs` lists each key of `done` present on both sides with differing rows,
      once, with both rows. */
  predicate ListsChanged<K, V(==)>(cs: seq<RowChange<K, V>>, m1: map<K, V>, m2: map<K, V>, done: set<K>) {
    && ChangeKeysOf(cs) == done * DifferingKeys(m1, m2)
    && (forall i :: 0 <= i < |cs| ==>
          cs[i].key in m1 && cs[i].key in m2 && cs[i].before == m1[cs[i].key] && cs[i].after == m2[cs[i].key])
    && (forall i, j :: 0 <= i < j < |cs| ==> cs[i].key != cs[j].key)
  }

  /** `diff` reports exactly the keys of `done` at which the two tables differ. */
  predicate DiffCovers<K, V(==)>(diff: KeyedDiff<K, V>, m1: map<K, V>, m2: map<K, V>, done: set<K>) {
    && ListsOnlyIn(diff.removed, m1, m2, done)
    && ListsOnlyIn(diff.added, m2, m1, done)
    && ListsChanged(diff.changed, m1, m2, done)
  }

  lemma ListsOnlyInStep<K, V>(rows: seq<KeyedRow<K, V>>, m: map<K, V>, other: map<K, V>, done: set<K>, a: K)
    requires ListsOnlyIn(rows, m, other, done) && a !in done
    ensures a in m && a !in other ==> ListsOnlyIn(rows + [KeyedRow(a, m[a])], m, other, done + {a})
    ensures !(a in m && a !in other) ==> ListsOnlyIn(rows, m, other, done + {a})
  {
    var s := m.Keys - other.Keys;
    if a in m && a !in other {
      var e := rows + [KeyedRow(a, m[a])];
      assert e[|rows|].key == a;
      assert RowKeysOf(e) == RowKeysOf(rows) + {a} by {
        forall k | k in RowKeysOf(e) ensures k in RowKeysOf(rows) + {a} {
          var i :| 0 <= i < |e| && e[i].key == k;
          if i < |rows| { assert rows[i].key == k; }
        }
        forall k | k in RowKeysOf(rows) ensures k in RowKeysOf(e) {
          var i :| 0 <= i < |rows| && rows[i].key == k;
          assert e[i].key == k;
        }
      }
      assert (done + {a}) * s == done * s + {a};
      forall i, j | 0 <= i < j < |e| ensures e[i].key != e[j].key {
        if j == |rows| { assert rows[i].key in RowKeysOf(rows); }
      }
    } else {
      assert (done + {a}) * s == done * s;
    }
  }

  lemma ListsChangedStep<K, V>(cs: seq<RowChange<K, V>>, m1: map<K, V>, m2: map<K, V>, done: set<K>, a: K)
    requires ListsChanged(cs, m1, m2, done) && a !in done
    ensures a in m1 && a in m2 && m1[a] != m2[a] ==>
              ListsChanged(cs + [RowChange(a, m1[a], m2[a])], m1, m2, done + {a})
    ensures !(a in m1 && a in m2 && m1[a] != m2[a]) ==> ListsChanged(cs, m1, m2, done + {a})
  {
    var s := DifferingKeys(m1, m2);
    if a in m1 && a in m2 && m1[a] != m2[a] {
      var e := cs + [RowChange(a, m1[a], m2[a])];
      assert e[|cs|].key == a;
      assert ChangeKeysOf(e) == ChangeKeysOf(cs) + {a} by {
        forall k | k in ChangeKeysOf(e) ensures k in ChangeKeysOf(cs) + {a} {
          var i :| 0 <= i < |e| && e[i].key == k;
          if i < |cs| { assert cs[i].key == k; }
        }
        forall k | k in ChangeKeysOf(cs) ensures k in ChangeKeysOf(e) {
          var i :| 0 <= i < |cs| && cs[i].key == k;
          assert e[i].key == k;
        }
      }
      assert (done + {a}) * s == done * s + {a};
      forall i, j | 0 <= i < j < |e| ensures e[i].key != e[j].key {
        if j == |cs| { assert cs[i].key in ChangeKeysOf(cs); }
      }
    } else {
      assert (done + {a}) * s == done * s;
    }
  }

  /** The loop over the union of both keyed tables: rows only in the first are
      removed, rows only in the second are added, rows in both that differ are changed. */
  method CompareKeyed<K, V(==)>(m1: map<K, V>, m2: map<K, V>) returns (diff: KeyedDiff<K, V>)
    ensures DiffCovers(diff, m1, m2, m1.Keys + m2.Keys)
  {
    var removed, added, changed := [], [], [];
    var keys := m1.Keys + m2.Keys;
    ghost var done: set<K> := {};
    while keys != {}
      invariant keys + done == m1.Keys + m2.Keys && keys !! done
      invariant ListsOnlyIn(removed, m1, m2, done)
      invariant ListsOnlyIn(added, m2, m1, done)
      invariant ListsChanged(changed, m1, m2, done)
      decreases keys
    {
      var a :| a in keys;
      ListsOnlyInStep(removed, m1, m2, done, a);
      ListsOnlyInStep(added, m2, m1, done, a);
      ListsChangedStep(changed, m1, m2, done, a);
      if a in m1 && a !in m2 {
        removed := removed + [KeyedRow(a, m1[a])];
      } else if a !in m1 && a in m2 {
        added := added + [KeyedRow(a, m2[a])];
      } else if m1[a] != m2[a] {
        changed := changed + [RowChange(a, m1[a], m2[a])];
      }
      keys := keys - {a};
      done := done + {a};
    }
    diff := KeyedDiff(removed, added, changed);
  }

  /** Comparing a table with itself reports nothing added, removed or changed. */
  lemma CompareKeyedSelfIsEmpty<K, V>(m: map<K, V>, diff: KeyedDiff<K, V>)
    requires DiffCovers(diff, m, m, m.Keys)
    ensures diff == KeyedDiff([], [], [])
  {
    assert m.Keys * (m.Keys - m.Keys) == {};
    assert DifferingKeys(m, m) == {};
    NoKeysIffEmpty(diff.removed, diff.changed);
    NoKeysIffEmpty(diff.added, diff.changed);
  }

  /** The rows of a child table, or none when the snapshot has no such list
      (`data.get(table, [])`). */
  function TableRows(d: Doc, table: string): seq<Row> {
    match Get(d, table)
    case Table(rows) => rows
    case _ => []
  }
}
