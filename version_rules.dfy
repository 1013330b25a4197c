/** The version-number rules of the PLM controller, shared by BOM and Item
    (the source writes them out twice, once per entity type). Each rule maps the
    live record's (status, version) to the version the action writes. */
module VersionRules {
  import opened Records

  /** Version a publish writes: a publish from Published opens a new version,
      a first publish opens v1, a publish from Draft or Blocked keeps the version. */
  function PublishVersion(status: PlmStatus, v: nat): (r: nat)
    ensures r >= 1 && v <= r <= v + 1
    ensures r == v + 1 <==> status == Published || v == 0
  {
    if status == Published then v + 1
    else if v == 0 then 1
    else v
  }

  /** Version a save-as-draft writes: Published opens a new version, otherwise
      the version is kept but at least 1. It always equals the publish version. */
  function DraftVersion(status: PlmStatus, v: nat): (r: nat)
    ensures r == PublishVersion(status, v)
  {
    if status == Published then v + 1
    else if v > 0 then v else 1
  }

  /** Version a block writes: never an increment, except that an entity never
      versioned gets v1. */
  function BlockVersion(v: nat): (r: nat)
    ensures r >= 1 && v <= r <= v + 1
    ensures r == v + 1 <==> v == 0
  {
    if v > 0 then v else 1
  }

  /** Version whose record an unblock re-publishes: `current_version or 1`. */
  function UnblockVersion(v: nat): (r: nat)
    ensures r == BlockVersion(v)
  {
    if v != 0 then v else 1
  }

  /** The actions of the controller and their effect on the live (status, version). */
  datatype Action = Publish | SaveDraft | Block | Unblock | SetDraft

  datatype Live = Live(status: PlmStatus, version: nat)

  function Step(s: Live, a: Action): (t: Live)
    ensures a == Unblock || a == SetDraft ==> t.version == s.version
    ensures t.status == (match a
                         case Publish => Published
                         case Unblock => Published
                         case Block => Blocked
                         case _ => Draft)
  {
    match a
    case Publish => Live(Published, PublishVersion(s.status, s.version))
    case SaveDraft => Live(Draft, DraftVersion(s.status, s.version))
    case Block => Live(Blocked, BlockVersion(s.version))
    case Unblock => Live(Published, s.version)
    case SetDraft => Live(Draft, s.version)
  }

  function Run(s: Live, acts: seq<Action>): Live
    decreases |acts|
  {
    if acts == [] then s else Run(Step(s, acts[0]), acts[1..])
  }

  /** No sequence of actions ever lowers the version. */
  lemma {:induction false} RunNeverLowersVersion(s: Live, acts: seq<Action>)
    ensures Run(s, acts).version >= s.version
    decreases |acts|
  {
    if acts != [] {
      RunNeverLowersVersion(Step(s, acts[0]), acts[1..]);
    }
  }

  /** Each action raises the version by at most one, so the version after a run
      is bounded by the number of actions in it. */
  lemma {:induction false} RunRaisesVersionAtMostOncePerAction(s: Live, acts: seq<Action>)
    ensures Run(s, acts).version <= s.version + |acts|
    decreases |acts|
  {
    if acts != [] {
      RunRaisesVersionAtMostOncePerAction(Step(s, acts[0]), acts[1..]);
    }
  }

  /** Only publishing from Published, saving a draft from Published, or the first
      version-writing action on v0 open a new version number. */
  lemma StepIncrementsOnlyFromPublishedOrZero(s: Live, a: Action)
    ensures Step(s, a).version == s.version + 1 ==>
              ((a == Publish || a == SaveDraft) && (s.status == Published || s.version == 0))
              || (a == Block && s.version == 0)
    ensures Step(s, a).version == s.version || Step(s, a).version == s.version + 1
  {
  }

  /** A run from a new record: v0 Draft; publish, publish, save as draft,
      block, unblock give v1, v2, v3 Draft, v3 Blocked, v3 Published. */
  lemma PublishDraftBlockUnblockRun()
    ensures Run(Live(Draft, 0), [Publish]) == Live(Published, 1)
    ensures Run(Live(Draft, 0), [Publish, Publish]) == Live(Published, 2)
    ensures Run(Live(Draft, 0), [Publish, Publish, SaveDraft]) == Live(Draft, 3)
    ensures Run(Live(Draft, 0), [Publish, Publish, SaveDraft, Block]) == Live(Blocked, 3)
    ensures Run(Live(Draft, 0), [Publish, Publish, SaveDraft, Block, Unblock]) == Live(Published, 3)
  {
    var acts := [Publish, Publish, SaveDraft, Block, Unblock];
    assert acts[1..] == [Publish, SaveDraft, Block, Unblock];
    assert acts[2..] == [SaveDraft, Block, Unblock];
    assert acts[3..] == [Block, Unblock];
    assert acts[4..] == [Unblock];
  }

  /** A live record with only its status rewritten (unblock, set as draft). */
  function WithStatus(d: Doc, s: PlmStatus): (r: Doc)
    ensures StatusOf(r) == s && VersionOf(r) == VersionOf(d)
    ensures forall k :: k != "plm_status" ==> Get(r, k) == Get(d, k)
  {
    d["plm_status" := StatusField(s)]
  }

  // ---------------------------------------------------------------------------
  // Version records, shared by the BOM Version and Item Version doctypes

  /** A version record `{owner}-v{version}`; `S` is what the entity snapshots. */
  datatype VersionRecord<S> = VersionRecord(
    status: PlmStatus,
    publishedAt: int,
    publishedBy: string,
    data: S,
    notes: string,
    ecn: Option<string>)

  /** The record a publish leaves at the new version: an existing record is
      updated, keeping its notes when none are given; otherwise one is created. */
  function PublishRecord<S>(prev: Option<VersionRecord<S>>, snap: S, now: int, user: string, notes: string, ecn: string)
    : (r: VersionRecord<S>)
    ensures r.status == Published && r.data == snap && r.ecn == Some(ecn)
    ensures r.publishedAt == now && r.publishedBy == user
    ensures r.notes == (if prev.Some? then NotesOr(notes, prev.value.notes) else notes)
  {
    match prev
    case Some(p) => p.(status := Published, publishedAt := now, publishedBy := user, data := snap,
                       notes := NotesOr(notes, p.notes), ecn := Some(ecn))
    case None => VersionRecord(Published, now, user, snap, notes, Some(ecn))
  }

  /** The record a save as draft leaves: like publish with status Draft, and a
      new record's empty notes default to "Saved as draft". */
  function DraftRecord<S>(prev: Option<VersionRecord<S>>, snap: S, now: int, user: string, notes: string, ecn: string)
    : (r: VersionRecord<S>)
    ensures r.status == Draft && r.data == snap && r.ecn == Some(ecn)
    ensures r.publishedAt == now && r.publishedBy == user
    ensures r.notes == (if prev.Some? then NotesOr(notes, prev.value.notes) else NotesOr(notes, "Saved as draft"))
  {
    match prev
    case Some(p) => p.(status := Draft, publishedAt := now, publishedBy := user, data := snap,
                       notes := NotesOr(notes, p.notes), ecn := Some(ecn))
    case None => VersionRecord(Draft, now, user, snap, NotesOr(notes, "Saved as draft"), Some(ecn))
  }

  /** The record a block leaves: status Blocked, empty notes replaced by the
      entity's block note; an existing record keeps its ECN, a new one has none. */
  function BlockRecord<S>(prev: Option<VersionRecord<S>>, snap: S, now: int, user: string, notes: string, blockNote: string)
    : (r: VersionRecord<S>)
    ensures r.status == Blocked && r.data == snap
    ensures r.publishedAt == now && r.publishedBy == user
    ensures r.notes == NotesOr(notes, blockNote)
    ensures r.ecn == (if prev.Some? then prev.value.ecn else None)
  {
    match prev
    case Some(p) => p.(status := Blocked, publishedAt := now, publishedBy := user, data := snap,
                       notes := NotesOr(notes, blockNote))
    case None => VersionRecord(Blocked, now, user, snap, NotesOr(notes, blockNote), None)
  }

  /** Every version record belongs to an existing entity. */
  ghost predicate Consistent<S>(live: map<string, Doc>, versions: map<VersionKey, VersionRecord<S>>) {
    forall k :: k in versions ==> k.owner in live
  }

  /** Rewriting an existing entity keeps the store consistent. */
  lemma ReplaceKeepsConsistent<S>(live: map<string, Doc>, versions: map<VersionKey, VersionRecord<S>>, name: string, d: Doc)
    requires Consistent(live, versions) && name in live
    ensures Consistent(live[name := d], versions)
  {
  }

  /** An entity's version write (publish, save as draft, block) keeps the store
      consistent: the record at the new version is written with it. */
  lemma VersionWriteKeepsConsistent<S>(live: map<string, Doc>, versions: map<VersionKey, VersionRecord<S>>,
                                       name: string, d: Doc, rec: VersionRecord<S>)
    requires Consistent(live, versions) && name in live
    ensures Consistent(live[name := d], versions[VersionKey(name, VersionOf(d)) := rec])
  {
  }

  /** One row of the version history. */
  datatype HistoryEntry = HistoryEntry(
    version: nat,
    status: PlmStatus,
    publishedAt: int,
    publishedBy: string,
    notes: string,
    ecn: Option<string>,
    ecnNumber: Option<string>,
    ecnTitle: Option<string>)

  /** A history row: the ECN number and title are shown only when the ECN exists. */
  function HistoryEntryOf<S>(v: nat, rec: VersionRecord<S>, ecnTitles: map<string, string>): (h: HistoryEntry)
    ensures h.version == v && h.status == rec.status && h.ecn == rec.ecn && h.notes == rec.notes
    ensures h.ecnNumber.Some? <==> rec.ecn.Some? && rec.ecn.value != "" && rec.ecn.value in ecnTitles
    ensures h.ecnNumber.Some? ==> h.ecnNumber == rec.ecn && h.ecnTitle == Some(ecnTitles[rec.ecn.value])
    ensures h.ecnNumber.None? ==> h.ecnTitle.None?
  {
    var known := rec.ecn.Some? && rec.ecn.value != "" && rec.ecn.value in ecnTitles;
    HistoryEntry(v, rec.status, rec.publishedAt, rec.publishedBy, rec.notes, rec.ecn,
                 if known then rec.ecn else None,
                 if known then Some(ecnTitles[rec.ecn.value]) else None)
  }

  /** `get_*_version_history`: one owner's records, highest version first, each
      with the title of its ECN when that ECN exists (`ecnTitles`). */
  method History<S>(versions: map<VersionKey, VersionRecord<S>>, owner: string, ecnTitles: map<string, string>)
      returns (h: seq<HistoryEntry>)
    ensures forall i, j :: 0 <= i < j < |h| ==> h[i].version > h[j].version
    ensures forall v :: VersionKey(owner, v) in versions <==> exists i :: 0 <= i < |h| && h[i].version == v
    ensures forall i :: 0 <= i < |h| ==>
              VersionKey(owner, h[i].version) in versions &&
              h[i] == HistoryEntryOf(h[i].version, versions[VersionKey(owner, h[i].version)], ecnTitles)
  {
    var order := SortedDescending(VersionsOf(versions, owner));
    h := [];
    var i := 0;
    while i < |order|
      invariant 0 <= i <= |order| && |h| == i
      invariant forall j :: 0 <= j < i ==>
                  VersionKey(owner, order[j]) in versions &&
                  h[j] == HistoryEntryOf(order[j], versions[VersionKey(owner, order[j])], ecnTitles)
    {
      var v := order[i];
      h := h + [HistoryEntryOf(v, versions[VersionKey(owner, v)], ecnTitles)];
      i := i + 1;
    }
    forall v | VersionKey(owner, v) in versions
      ensures exists i :: 0 <= i < |h| && h[i].version == v
    {
      assert v in order;
      var i :| 0 <= i < |order| && order[i] == v;
      assert h[i].version == v;
    }
  }

  /** `get_current_*_version_ecn`: the ECN to pre-fill in the save dialog, only
      for an existing entity in Draft past v0 whose current record exists. */
  function CurrentVersionEcn<S>(live: map<string, Doc>, versions: map<VersionKey, VersionRecord<S>>, name: string)
    : (r: Option<string>)
    ensures r.Some? ==> name in live && RawStatus(live[name]) == "Draft" && VersionOf(live[name]) > 0
    ensures r.Some? ==> VersionKey(name, VersionOf(live[name])) in versions &&
                        versions[VersionKey(name, VersionOf(live[name]))].ecn == r
    ensures (name in live && RawStatus(live[name]) == "Draft" && VersionOf(live[name]) > 0 &&
             VersionKey(name, VersionOf(live[name])) in versions) ==>
              r == versions[VersionKey(name, VersionOf(live[name]))].ecn
  {
    if name !in live then None
    else
      var d := live[name];
      if RawStatus(d) != "Draft" || VersionOf(d) == 0 then None
      else match Lookup(versions, VersionKey(name, VersionOf(d)))
           case Some(rec) => rec.ecn
           case None => None
  }
}
