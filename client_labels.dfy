/** What the Item and BOM forms show before a save: the version number on
    each button, the predicted next version, the status colour and the
    dashboard indicator, and the ECN guard in front of every save. The forms
    read `plm_status || 'Draft'` and `current_version || 0`, which are
    `RawStatus` and `VersionOf` of the live record. */
module ClientLabels {
  import opened Records
  import opened VersionRules

  /** The number on the publish button. */
  function PublishLabel(status: string, v: nat): (n: nat)
    ensures n >= 1
    ensures v > 0 && status != "Published" ==> n == v
  {
    if v == 0 then 1
    else if status == "Published" then v + 1
    else v
  }

  /** The number on the save-as-draft button; none unless Published. */
  function DraftLabel(status: string, v: nat): (n: Option<nat>)
    ensures n.Some? <==> status == "Published"
  {
    if status == "Published" then Some(v + 1) else None
  }

  /** The Item dialog's predicted version: Published opens a new version,
      and a first save makes v1. */
  function NextVersion(status: string, v: nat): (n: nat)
    ensures n >= 1
  {
    var next := if status == "Published" then v + 1 else v;
    if v == 0 then 1 else next
  }

  /** The BOM dialog's two predictions. */
  datatype Predicted = Predicted(publish: nat, draft: nat)

  function BomNextVersions(status: string, v: nat): (p: Predicted)
    ensures p.publish == p.draft
  {
    var incrementPublish := status == "Published";
    var incrementDraft := status == "Published";
    var publish := if incrementPublish then v + 1 else v;
    var draft := if incrementDraft then v + 1 else v;
    if v == 0 then Predicted(1, 1) else Predicted(publish, draft)
  }

  /** The number on the BOM block button: `current_version || 1`. */
  function BlockLabel(v: nat): (n: nat)
    ensures n >= 1
  {
    if v == 0 then 1 else v
  }

  datatype Colour = Green | Red | Orange

  /** The indicator colour of a status text. */
  function StatusColour(status: string): (c: Colour)
    ensures c == Green <==> status == "Published"
    ensures c == Red <==> status == "Blocked"
  {
    if status == "Published" then Green
    else if status == "Blocked" then Red
    else Orange
  }

  /** Every number the forms predict is the one the server then writes. */
  lemma LabelsMatchServer(d: Doc)
    ensures PublishLabel(RawStatus(d), VersionOf(d)) == PublishVersion(StatusOf(d), VersionOf(d))
    ensures NextVersion(RawStatus(d), VersionOf(d)) == PublishVersion(StatusOf(d), VersionOf(d))
    ensures BomNextVersions(RawStatus(d), VersionOf(d)) ==
              Predicted(PublishVersion(StatusOf(d), VersionOf(d)), DraftVersion(StatusOf(d), VersionOf(d)))
    ensures DraftLabel(RawStatus(d), VersionOf(d)).Some? <==> StatusOf(d) == Published
    ensures DraftLabel(RawStatus(d), VersionOf(d)).Some? ==>
              DraftLabel(RawStatus(d), VersionOf(d)).value == DraftVersion(StatusOf(d), VersionOf(d))
    ensures BlockLabel(VersionOf(d)) == BlockVersion(VersionOf(d))
  {
  }

  /** The colour follows the status the server reads: green for Published,
      red for Blocked, orange for Draft and for any unknown text. */
  lemma ColourFollowsStatus(d: Doc)
    ensures StatusColour(RawStatus(d)) == match StatusOf(d)
                                         case Published => Green
                                         case Blocked => Red
                                         case Draft => Orange
  {
  }

  /** The BOM form's dashboard indicator. */
  datatype Indicator = Indicator(version: nat, status: string, colour: Colour)

  function PlmIndicator(d: Doc): (r: Option<Indicator>)
    ensures r.Some? <==> VersionOf(d) > 0
    ensures r.Some? ==> r.value == Indicator(VersionOf(d), RawStatus(d), StatusColour(RawStatus(d)))
  {
    var version := VersionOf(d);
    var noStatus := !FieldTruthy(Get(d, "plm_status"));
    if version == 0 && noStatus then None
    else if version > 0 then Some(Indicator(version, RawStatus(d), StatusColour(RawStatus(d))))
    else None
  }

  /** What a save button does: without an ECN the form shows a message and
      stops; with one it calls the server. */
  datatype ClientStep = EcnMissing | CallServer(action: Action, ecn: string)

  function SaveAction(action: Action, ecn: string): (s: ClientStep)
    ensures s.CallServer? <==> ecn != ""
    ensures s.CallServer? ==> s.action == action && s.ecn == ecn
  {
    if ecn == "" then EcnMissing else CallServer(action, ecn)
  }
}
