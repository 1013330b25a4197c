/** Workspace visibility for the Mechanical Engineer role: the restricted
    workspaces get the standard roles and no others, the Item workspace gets
    Mechanical Engineer once, and a reset clears every public workspace. */
module Setup {
  import opened Records

  const MechanicalEngineer: string := "Mechanical Engineer"

  /** The workspaces hidden from Mechanical Engineer. */
  const RestrictedWorkspaces: seq<string> := [
    "Accounting", "Payables", "Receivables", "Financial Reports", "Buying",
    "Selling", "Stock", "Manufacturing", "Assets", "Projects", "CRM",
    "Support", "Quality", "ERPNext Settings", "ERPNext Integrations",
    "Build", "Tools", "Users", "Website", "Integrations"]

  /** The workspaces Mechanical Engineer is added to. */
  const EngineerWorkspaces: seq<string> := ["Item"]

  /** The roles a restricted workspace is given, in this order. */
  const StandardRoles: seq<string> := [
    "System Manager", "Accounts Manager", "Accounts User", "Sales Manager",
    "Sales User", "Purchase Manager", "Purchase User", "Stock Manager",
    "Stock User", "Manufacturing Manager", "Manufacturing User", "Item Manager",
    "Quality Manager", "Projects Manager", "Projects User", "Support Team",
    "HR Manager", "HR User"]

  datatype SetupError = NeedsWorkspaceManager

  /** The members of `roles` that exist as Role records, in their order. */
  function ExistingRoles(roles: seq<string>, known: set<string>): (r: seq<string>)
    ensures |r| <= |roles|
    ensures forall x :: x in r <==> x in roles && x in known
    decreases |roles|
  {
    if roles == [] then []
    else
      var last := roles[|roles| - 1];
      ExistingRoles(roles[..|roles| - 1], known) + (if last in known then [last] else [])
  }

  /** How many times `x` occurs in `s`. */
  function Count(s: seq<string>, x: string): nat
    decreases |s|
  {
    if s == [] then 0 else Count(s[..|s| - 1], x) + (if s[|s| - 1] == x then 1 else 0)
  }

  lemma {:induction false} CountZero(s: seq<string>, x: string)
    ensures Count(s, x) == 0 <==> x !in s
    decreases |s|
  {
    if s != [] {
      CountZero(s[..|s| - 1], x);
      assert s == s[..|s| - 1] + [s[|s| - 1]];
    }
  }

  /** A role list with Mechanical Engineer appended unless already there. */
  function WithEngineer(roles: seq<string>): (r: seq<string>)
    ensures MechanicalEngineer in r
    ensures forall x :: x in r <==> x in roles || x == MechanicalEngineer
    ensures roles <= r && |r| <= |roles| + 1
  {
    if MechanicalEngineer in roles then roles else roles + [MechanicalEngineer]
  }

  /** Adding Mechanical Engineer twice adds it once, and never repeats it. */
  lemma WithEngineerOnce(roles: seq<string>)
    ensures WithEngineer(WithEngineer(roles)) == WithEngineer(roles)
    ensures Count(WithEngineer(roles), MechanicalEngineer) == if MechanicalEngineer in roles then Count(roles, MechanicalEngineer) else 1
  {
    if MechanicalEngineer !in roles {
      var r := roles + [MechanicalEngineer];
      assert r[..|r| - 1] == roles;
      CountZero(roles, MechanicalEngineer);
    }
  }

  /** The role lists after `configure_workspace_roles`, workspace by workspace. */
  function Configured(ws: map<string, seq<string>>, known: set<string>): (r: map<string, seq<string>>)
    ensures r.Keys == ws.Keys
  {
    map w | w in ws :: if w in RestrictedWorkspaces then ExistingRoles(StandardRoles, known)
                       else if w in EngineerWorkspaces then WithEngineer(ws[w])
                       else ws[w]
  }

  /** Configuring twice leaves what configuring once left. */
  lemma ConfiguredIdempotent(ws: map<string, seq<string>>, known: set<string>)
    ensures Configured(Configured(ws, known), known) == Configured(ws, known)
  {
    var once := Configured(ws, known);
    forall w | w in once ensures Configured(once, known)[w] == once[w] {
      if w !in RestrictedWorkspaces && w in EngineerWorkspaces {
        WithEngineerOnce(ws[w]);
      }
    }
  }

  /** After configuring, Mechanical Engineer sees the Item workspace and no
      restricted one; the workspaces in neither list keep their roles. */
  lemma ConfiguredVisibility(ws: map<string, seq<string>>, known: set<string>, w: string)
    requires w in ws
    ensures w in RestrictedWorkspaces ==> MechanicalEngineer !in Configured(ws, known)[w]
    ensures w == "Item" ==> MechanicalEngineer in Configured(ws, known)[w]
    ensures w !in RestrictedWorkspaces && w !in EngineerWorkspaces ==> Configured(ws, known)[w] == ws[w]
  {
    var r := Configured(ws, known);
    if w in RestrictedWorkspaces {
      assert r[w] == ExistingRoles(StandardRoles, known);
      EngineerNotStandard();
    } else if w == "Item" {
      assert w in EngineerWorkspaces;
    }
  }

  /** The Item workspace is not a restricted one. */
  lemma ItemNotRestricted()
    ensures "Item" !in RestrictedWorkspaces
  {
    forall i | 0 <= i < |RestrictedWorkspaces| ensures RestrictedWorkspaces[i] != "Item" {
      assert RestrictedWorkspaces[i][0] != 'I' || RestrictedWorkspaces[i][1] != 't';
    }
  }

  /** Mechanical Engineer is not one of the standard roles. */
  lemma EngineerNotStandard()
    ensures MechanicalEngineer !in StandardRoles
  {
    forall i | 0 <= i < |StandardRoles| ensures StandardRoles[i] != MechanicalEngineer {
      assert StandardRoles[i][0] != 'M' || StandardRoles[i][1] != 'e';
    }
  }

  /** The role lists after `remove_mechanical_engineer_workspace_restrictions`. */
  function Reset(ws: map<string, seq<string>>, public: set<string>): (r: map<string, seq<string>>)
    ensures r.Keys == ws.Keys
    ensures forall w :: w in ws && w in public ==> r[w] == []
    ensures forall w :: w in ws && w !in public ==> r[w] == ws[w]
  {
    map w | w in ws :: if w in public then [] else ws[w]
  }

  /** The loop of `configure_workspace_roles` that builds one restricted
      workspace's role list from `roles`, the standard roles. */
  method RolesPresent(roles: seq<string>, known: set<string>) returns (r: seq<string>)
    ensures r == ExistingRoles(roles, known)
  {
    r := [];
    var i := 0;
    while i < |roles|
      invariant 0 <= i <= |roles|
      invariant r == ExistingRoles(roles[..i], known)
    {
      assert roles[..i + 1][..i] == roles[..i];
      if roles[i] in known {
        r := r + [roles[i]];
      }
      i := i + 1;
    }
    assert roles[..i] == roles;
  }

  /** The first loop of `configure_workspace_roles`: each existing workspace
      of `names`, the restricted ones, has its roles cleared and refilled
      with `standard`. */
  method RestrictAll(ws: map<string, seq<string>>, names: seq<string>, standard: seq<string>)
    returns (r: map<string, seq<string>>)
    ensures r.Keys == ws.Keys
    ensures forall w :: w in r ==> r[w] == if w in names then standard else ws[w]
  {
    r := ws;
    var i := 0;
    while i < |names|
      invariant 0 <= i <= |names|
      invariant r.Keys == ws.Keys
      invariant forall w :: w in r && w in names[..i] ==> r[w] == standard
      invariant forall w :: w in r && w !in names[..i] ==> r[w] == ws[w]
    {
      var w := names[i];
      assert names[..i + 1] == names[..i] + [w];
      if w in r {
        r := r[w := standard];
      }
      i := i + 1;
    }
    assert names[..i] == names;
  }

  /** The second loop: Mechanical Engineer is appended to each existing
      workspace it needs, unless it is already among its roles. */
  method AddEngineer(ws: map<string, seq<string>>) returns (r: map<string, seq<string>>)
    ensures r.Keys == ws.Keys
    ensures forall w :: w in r ==> r[w] == if w in EngineerWorkspaces then WithEngineer(ws[w]) else ws[w]
  {
    r := ws;
    var j := 0;
    while j < |EngineerWorkspaces|
      invariant 0 <= j <= |EngineerWorkspaces|
      invariant r.Keys == ws.Keys
      invariant forall w :: w in r && w in EngineerWorkspaces[..j] ==> r[w] == WithEngineer(ws[w])
      invariant forall w :: w in r && w !in EngineerWorkspaces[..j] ==> r[w] == ws[w]
    {
      var w := EngineerWorkspaces[j];
      assert EngineerWorkspaces[..j + 1] == EngineerWorkspaces[..j] + [w];
      if w in r && MechanicalEngineer !in r[w] {
        r := r[w := r[w] + [MechanicalEngineer]];
      }
      j := j + 1;
    }
    assert EngineerWorkspaces[..j] == EngineerWorkspaces;
  }

  /** The two loops together produce `Configured`: the Item workspace is
      not a restricted one. */
  lemma ComposedIsConfigured(ws: map<string, seq<string>>, known: set<string>,
                             restricted: map<string, seq<string>>, engineered: map<string, seq<string>>)
    requires restricted.Keys == ws.Keys
    requires forall w :: w in restricted ==>
               restricted[w] == if w in RestrictedWorkspaces then ExistingRoles(StandardRoles, known) else ws[w]
    requires engineered.Keys == restricted.Keys
    requires forall w :: w in engineered ==>
               engineered[w] == if w in EngineerWorkspaces then WithEngineer(restricted[w]) else restricted[w]
    ensures engineered == Configured(ws, known)
  {
    ItemNotRestricted();
    forall w | w in engineered ensures engineered[w] == Configured(ws, known)[w] {
      if w in EngineerWorkspaces {
        assert w == "Item";
      }
    }
  }

  /** The host's workspaces: each one's role list, and which are public. */
  class Workspaces {
    var roles: map<string, seq<string>>
    var public: set<string>

    constructor(roles0: map<string, seq<string>>, public0: set<string>)
      ensures roles == roles0 && public == public0
    {
      roles := roles0;
      public := public0;
    }

    /** `configure_workspace_roles`: without the Workspace write permission a
        checked call changes nothing; otherwise every existing restricted
        workspace is given the existing standard roles, then Mechanical
        Engineer is added to the Item workspace unless already there. */
    method ConfigureRoles(checkPermission: bool, canWrite: bool, known: set<string>)
      returns (r: Outcome<SetupError>)
      modifies this
      ensures public == old(public)
      ensures checkPermission && !canWrite ==> r == Fail(NeedsWorkspaceManager) && roles == old(roles)
      ensures !(checkPermission && !canWrite) ==> r == Pass && roles == Configured(old(roles), known)
    {
      if checkPermission && !canWrite {
        return Fail(NeedsWorkspaceManager);
      }
      var standard := RolesPresent(StandardRoles, known);
      var restricted := RestrictAll(roles, RestrictedWorkspaces, standard);
      var engineered := AddEngineer(restricted);
      ComposedIsConfigured(old(roles), known, restricted, engineered);
      roles := engineered;
      r := Pass;
    }

    /** `remove_mechanical_engineer_workspace_restrictions`: every public
        workspace is left with no roles, so every user sees it. */
    method ResetRoles()
      modifies this
      ensures public == old(public)
      ensures roles == Reset(old(roles), old(public))
    {
      var todo := public;
      while todo != {}
        invariant todo <= public && public == old(public) && roles.Keys == old(roles).Keys
        invariant forall w :: w in roles && w in public && w !in todo ==> roles[w] == []
        invariant forall w :: w in roles && (w !in public || w in todo) ==> roles[w] == old(roles)[w]
        decreases todo
      {
        var w :| w in todo;
        if w in roles {
          roles := roles[w := []];
        }
        todo := todo - {w};
      }
    }
  }
}
