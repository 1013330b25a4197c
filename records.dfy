/** Shared vocabulary of the PLM customization: the host platform's documents as
    field maps, the three PLM statuses, the keys the snapshot codec strips, and
    the version-record keys `{owner}-v{version}`. */
module Records {

  datatype Option<T> = None | Some(value: T)

  datatype Result<T, E> = Ok(value: T) | Err(error: E)

  datatype Outcome<E> = Pass | Fail(error: E)

  /** A scalar value of a document field in the host's JSON form. Python's
      None is `Null`; dates and datetimes are carried as integer tick numbers. */
  datatype Atom = Null | Int(i: int) | Text(s: string)

  /** Python truthiness of a scalar: None, 0 and "" are false. */
  predicate Truthy(a: Atom) {
    match a
    case Null => false
    case Int(i) => i != 0
    case Text(s) => s != ""
  }

  /** A child-table row (an `as_dict()` of a child document). */
  type Row = map<string, Atom>

  /** A top-level field: a scalar, or a child table given as a list of rows. */
  datatype Field = Scalar(atom: Atom) | Table(rows: seq<Row>)

  /** A document of the host platform: field name to value. */
  type Doc = map<string, Field>

  /** `doc.get(key)`: a missing key reads as None. */
  function Get(d: Doc, k: string): Field {
    if k in d then d[k] else Scalar(Null)
  }

  /** `row.get(key)`: a missing key reads as None. */
  function RowGet(r: Row, k: string): Atom {
    if k in r then r[k] else Null
  }

  /** Python truthiness of a field value: a list is true when it is not empty. */
  predicate FieldTruthy(f: Field) {
    match f
    case Scalar(a) => Truthy(a)
    case Table(rows) => rows != []
  }

  /** The host's bookkeeping keys removed from every snapshot. */
  const SystemKeys: set<string> :=
    {"modified", "creation", "modified_by", "owner", "_user_tags", "_comments", "_assign", "_liked_by"}

  /** The identity and parent-linkage keys removed from a child row before it is re-appended. */
  const RowIdentityKeys: set<string> :=
    {"name", "parent", "parentfield", "parenttype", "idx", "doctype"}

  datatype PlmStatus = Draft | Published | Blocked

  function StatusText(s: PlmStatus): string {
    match s
    case Draft => "Draft"
    case Published => "Published"
    case Blocked => "Blocked"
  }

  /** `doc.get("plm_status") or "Draft"` as the text the source compares. */
  function RawStatus(d: Doc): (t: string)
    ensures t != ""
  {
    match Get(d, "plm_status")
    case Scalar(Text(t)) => if t != "" then t else "Draft"
    case _ => "Draft"
  }

  /** The status a raw text stands for: anything but "Published" or "Blocked" acts as Draft. */
  function StatusOf(d: Doc): (s: PlmStatus)
    ensures s == Published <==> RawStatus(d) == "Published"
    ensures s == Blocked <==> RawStatus(d) == "Blocked"
    ensures Get(d, "plm_status") == StatusField(s) ==> RawStatus(d) == StatusText(s)
  {
    var t := RawStatus(d);
    if t == "Published" then Published else if t == "Blocked" then Blocked else Draft
  }

  /** `doc.get("current_version") or 0`. */
  function VersionOf(d: Doc): (v: nat)
    ensures Get(d, "current_version").Scalar? && Get(d, "current_version").atom.Int? ==>
              v == (if Get(d, "current_version").atom.i > 0 then Get(d, "current_version").atom.i else 0)
    ensures !(Get(d, "current_version").Scalar? && Get(d, "current_version").atom.Int?) ==> v == 0
  {
    match Get(d, "current_version")
    case Scalar(Int(i)) => if i > 0 then i else 0
    case _ => 0
  }

  /** A Check field read as Python truthiness. */
  predicate Flag(d: Doc, k: string) {
    FieldTruthy(Get(d, k))
  }

  /** `doc.docstatus`: 0 draft, 1 submitted, 2 cancelled. */
  function DocStatusOf(d: Doc): int {
    match Get(d, "docstatus")
    case Scalar(Int(i)) => i
    case _ => 0
  }

  function StatusField(s: PlmStatus): Field { Scalar(Text(StatusText(s))) }
  function IntField(n: int): Field { Scalar(Int(n)) }
  function TextField(s: string): Field { Scalar(Text(s)) }

  /** A Check field as the host stores it: 1 or 0. */
  function FlagField(b: bool): Field { Scalar(Int(if b then 1 else 0)) }

  /** Reading back what a writer stored gives the written status, version and text;
      these are the decoders' partners. */
  lemma WrittenFieldsReadBack(d: Doc, s: PlmStatus, v: nat, k: string, t: string)
    ensures StatusOf(d["plm_status" := StatusField(s)]) == s
    ensures VersionOf(d["current_version" := IntField(v)]) == v
    ensures Get(d[k := TextField(t)], k) == Scalar(Text(t))
    ensures FieldTruthy(FlagField(true)) && !FieldTruthy(FlagField(false))
  {
    assert Get(d["plm_status" := StatusField(s)], "plm_status") == StatusField(s);
  }

  /** A version record's key: the host names it `{owner}-v{version}`; since the
      part after the last "-v" is all digits, that name determines the pair. */
  datatype VersionKey = VersionKey(owner: string, version: nat)

  /** The version numbers recorded for one owner. */
  function VersionsOf<T>(m: map<VersionKey, T>, owner: string): (vs: set<nat>)
    ensures forall n :: n in vs <==> VersionKey(owner, n) in m
  {
    set k | k in m && k.owner == owner :: k.version
  }

  function Lookup<K, V>(m: map<K, V>, k: K): Option<V> {
    if k in m then Some(m[k]) else None
  }

  /** `notes or fallback`: an empty note falls back. */
  function NotesOr(notes: string, fallback: string): string {
    if notes != "" then notes else fallback
  }

  function DigitChar(n: nat): (c: char)
    requires n < 10
    ensures '0' <= c <= '9'
  {
    "0123456789"[n]
  }

  /** `str(n)` for a natural number: decimal digits, no leading zero except for 0 itself. */
  function NatToString(n: nat): (s: string)
    ensures |s| >= 1 && forall i :: 0 <= i < |s| ==> '0' <= s[i] <= '9'
    ensures |s| > 1 ==> s[0] != '0'
    decreases n
  {
    if n < 10 then [DigitChar(n)] else NatToString(n / 10) + [DigitChar(n % 10)]
  }

  /** Every finite non-empty set of version numbers has a largest element. */
  lemma {:induction false} MaxOf(s: set<nat>) returns (m: nat)
    requires s != {}
    ensures m in s && forall x :: x in s ==> x <= m
  {
    var y :| y in s;
    var rest := s - {y};
    if rest == {} {
      assert s == {y};
      m := y;
    } else {
      var m' := MaxOf(rest);
      m := if y <= m' then m' else y;
      forall x | x in s ensures x <= m {
        if x != y { assert x in rest; }
      }
    }
  }

  /** The host query's `order_by="version desc"`: the version numbers, largest first. */
  method SortedDescending(s: set<nat>) returns (r: seq<nat>)
    ensures forall i, j :: 0 <= i < j < |r| ==> r[i] > r[j]
    ensures forall x :: x in s <==> x in r
  {
    r := [];
    var rest := s;
    while rest != {}
      invariant rest <= s
      invariant forall x :: x in s <==> x in r || x in rest
      invariant forall i, j :: 0 <= i < j < |r| ==> r[i] > r[j]
      invariant forall i, x :: 0 <= i < |r| && x in rest ==> r[i] > x
      decreases rest
    {
      ghost var top := MaxOf(rest);
      var m :| m in rest && forall x :: x in rest ==> x <= m;
      r := r + [m];
      rest := rest - {m};
    }
  }
}
