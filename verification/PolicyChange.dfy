/**
 Edits to the grant document (mantlekeep-policy-postgres/change.go) and what they mean.
 */
module PolicyChange {

  datatype Grants = Grants(roleActions: map<string, seq<string>>, approvalActions: seq<string>)

  datatype Change = Change(role: string, action: string, grant: bool, reason: string)

  /** Who may do what, which is all that a document decides. */
  predicate Holds(g: Grants, role: string, action: string) {
    role in g.roleActions && action in g.roleActions[role]
  }

  /** Reading a missing key gives the empty list. */
  function Actions(g: Grants, role: string): seq<string> {
    if role in g.roleActions then g.roleActions[role] else []
  }

  function Without(actions: seq<string>, action: string): (r: seq<string>)
    ensures forall a :: a in r <==> a in actions && a != action
    ensures |r| <= |actions|
  {
    if actions == [] then []
    else
      var n := |actions| - 1;
      assert actions == actions[..n] + [actions[n]];
      if actions[n] == action then Without(actions[..n], action) else Without(actions[..n], action) + [actions[n]]
  }

  function Granted(g: Grants, role: string, action: string): Grants {
    if action in Actions(g, role) then g
    else g.(roleActions := g.roleActions[role := Actions(g, role) + [action]])
  }

  function Revoked(g: Grants, role: string, action: string): Grants {
    if action !in Actions(g, role) then g
    else
      var remaining := Without(Actions(g, role), action);
      if remaining == [] then g.(roleActions := g.roleActions - {role})
      else g.(roleActions := g.roleActions[role := remaining])
  }

  function Applied(g: Grants, change: Change): Grants {
    if change.grant then Granted(g, change.role, change.action) else Revoked(g, change.role, change.action)
  }

  function AppliedAll(g: Grants, changes: seq<Change>): Grants {
    if changes == [] then g
    else Applied(AppliedAll(g, changes[..|changes| - 1]), changes[|changes| - 1])
  }

  // ---------------------------------------------------------------------------------------
  // The edits, in place
  // ---------------------------------------------------------------------------------------

  class GrantDocument {
    var grants: Grants

    constructor (g: Grants)
      ensures grants == g
    {
      grants := g;
    }

    method ApplyChange(change: Change)
      modifies this
      ensures grants == Applied(old(grants), change)
    {
      if change.grant {
        GrantAction(change.role, change.action);
        return;
      }
      RevokeAction(change.role, change.action);
    }

    method GrantAction(role: string, action: string)
      modifies this
      ensures grants == Granted(old(grants), role, action)
    {
      var actions := Actions(grants, role);
      for i := 0 to |actions|
        invariant action !in actions[..i]
      {
        if actions[i] == action {
          return;
        }
      }
      grants := grants.(roleActions := grants.roleActions[role := actions + [action]]);
    }

    method RevokeAction(role: string, action: string)
      modifies this
      ensures grants == Revoked(old(grants), role, action)
    {
      if role !in grants.roleActions {
        return;
      }
      var actions := grants.roleActions[role];
      var remaining := [];
      for i := 0 to |actions|
        invariant remaining == Without(actions[..i], action)
      {
        assert actions[..i + 1][..i] == actions[..i];
        if actions[i] != action {
          remaining := remaining + [actions[i]];
        }
      }
      assert actions[..|actions|] == actions;
      ShorterIffHeld(actions, action);
      if |remaining| == |actions| {
        return;
      }
      if |remaining| == 0 {
        grants := grants.(roleActions := grants.roleActions - {role});
        return;
      }
      grants := grants.(roleActions := grants.roleActions[role := remaining]);
    }
  }

  lemma {:induction false} ShorterIffHeld(actions: seq<string>, action: string)
    ensures action in actions <==> |Without(actions, action)| < |actions|
    ensures action !in actions ==> Without(actions, action) == actions
  {
    if actions != [] {
      var n := |actions| - 1;
      assert actions == actions[..n] + [actions[n]];
      ShorterIffHeld(actions[..n], action);
    }
  }

  // ---------------------------------------------------------------------------------------
  // What one change means
  // ---------------------------------------------------------------------------------------

  /** A change decides the one pair it names, and touches no other role's entry. */
  lemma ChangeDecidesItsPair(g: Grants, c: Change)
    ensures forall role, action ::
              Holds(Applied(g, c), role, action) <==>
              if role == c.role && action == c.action then c.grant else Holds(g, role, action)
    ensures Applied(g, c).approvalActions == g.approvalActions
    ensures Applied(g, c).roleActions - {c.role} == g.roleActions - {c.role}
    ensures Applied(g, c) == g <==> (Holds(g, c.role, c.action) <==> c.grant)
  {
    var t := Applied(g, c);
    if t != g {
      assert Holds(t, c.role, c.action) <==> c.grant;
    }
  }

  ghost predicate NoEmptyLists(g: Grants) {
    forall role :: !Emptied(g, role)
  }

  /** A role listed with no actions at all. */
  predicate Emptied(g: Grants, role: string) {
    role in g.roleActions && g.roleActions[role] == []
  }

  lemma ChangeKeepsNoEmptyLists(g: Grants, c: Change)
    requires NoEmptyLists(g)
    ensures NoEmptyLists(Applied(g, c))
  {
    forall role
      ensures !Emptied(Applied(g, c), role)
    {
      assert !Emptied(g, role);
    }
  }

  // ---------------------------------------------------------------------------------------
  // A grant and its revoke, with other changes in between
  // ---------------------------------------------------------------------------------------

  predicate Names(c: Change, role: string, action: string) {
    c.role == role && c.action == action
  }

  /** `y` is `x` with one extra action, somewhere in one role's list. */
  ghost predicate Extends(x: Grants, y: Grants, role: string, action: string) {
    && y.approvalActions == x.approvalActions && y.roleActions - {role} == x.roleActions - {role}
    && role in y.roleActions && action in y.roleActions[role]
    && Without(y.roleActions[role], action) == Actions(x, role)
  }

  lemma {:induction false} WithoutCommutes(actions: seq<string>, a: string, b: string)
    ensures Without(Without(actions, a), b) == Without(Without(actions, b), a)
  {
    if actions != [] {
      var n := |actions| - 1;
      WithoutCommutes(actions[..n], a, b);
      WithoutLast(actions, a);
      WithoutLast(actions, b);
      WithoutSnoc(Without(actions[..n], a), actions[n], b);
      WithoutSnoc(Without(actions[..n], b), actions[n], a);
    }
  }

  lemma {:induction false} WithoutLast(actions: seq<string>, a: string)
    requires actions != []
    ensures Without(actions, a) ==
            if actions[|actions| - 1] == a then Without(actions[..|actions| - 1], a)
            else Without(actions[..|actions| - 1], a) + [actions[|actions| - 1]]
  {
  }

  lemma {:induction false} WithoutSnoc(actions: seq<string>, last: string, a: string)
    ensures Without(actions + [last], a) == if last == a then Without(actions, a) else Without(actions, a) + [last]
  {
    assert (actions + [last])[..|actions|] == actions;
  }

  lemma OtherChangeKeepsExtension(x: Grants, y: Grants, c: Change, role: string, action: string)
    requires Extends(x, y, role, action) && !Names(c, role, action)
    ensures Extends(Applied(x, c), Applied(y, c), role, action)
  {
    if c.role != role {
      assert Actions(x, c.role) == Actions(y, c.role) by {
        assert c.role in x.roleActions - {role} <==> c.role in y.roleActions - {role};
      }
      OtherRoleKeepsExtension(x, y, c, role, action);
    } else if c.grant {
      WithoutSnoc(y.roleActions[role], c.action, action);
      OwnRoleExtends(x, y, c, role, action);
    } else {
      WithoutCommutes(y.roleActions[role], c.action, action);
      OwnRoleExtends(x, y, c, role, action);
    }
  }

  lemma OtherRoleKeepsExtension(x: Grants, y: Grants, c: Change, role: string, action: string)
    requires Extends(x, y, role, action) && c.role != role && Actions(x, c.role) == Actions(y, c.role)
    ensures Extends(Applied(x, c), Applied(y, c), role, action)
  {
    var s, t := Applied(x, c), Applied(y, c);
    forall r
      ensures r in t.roleActions - {role} <==> r in s.roleActions - {role}
      ensures r in t.roleActions - {role} ==> t.roleActions[r] == s.roleActions[r]
    {
      assert r in y.roleActions - {role} <==> r in x.roleActions - {role};
    }
    assert t.roleActions - {role} == s.roleActions - {role};
  }

  lemma {:induction false} OwnRoleExtends(x: Grants, y: Grants, c: Change, role: string, action: string)
    requires Extends(x, y, role, action) && c.role == role && c.action != action
    requires c.grant ==> Without(y.roleActions[role] + [c.action], action) == Actions(x, role) + [c.action]
    requires !c.grant ==> Without(Without(y.roleActions[role], c.action), action) == Without(Actions(x, role), c.action)
    ensures Extends(Applied(x, c), Applied(y, c), role, action)
  {
    var s, t := Applied(x, c), Applied(y, c);
    assert s.roleActions - {role} == x.roleActions - {role};
    assert t.roleActions - {role} == y.roleActions - {role};
    assert c.action in Actions(x, role) <==> c.action in y.roleActions[role];
  }

  lemma {:induction false} OtherChangesKeepExtension(x: Grants, y: Grants, changes: seq<Change>, role: string,
                                                     action: string)
    requires Extends(x, y, role, action)
    requires forall c | c in changes :: !Names(c, role, action)
    ensures Extends(AppliedAll(x, changes), AppliedAll(y, changes), role, action)
  {
    if changes != [] {
      var n := |changes| - 1;
      OtherChangesKeepExtension(x, y, changes[..n], role, action);
      OtherChangeKeepsExtension(AppliedAll(x, changes[..n]), AppliedAll(y, changes[..n]), changes[n], role, action);
    }
  }

  predicate GrantsTo(c: Change, role: string) {
    c.grant && c.role == role
  }

  /** An explicit empty list survives exactly until something is granted to its role. */
  lemma {:induction false} EmptyListSurvives(g: Grants, changes: seq<Change>, role: string)
    ensures Emptied(AppliedAll(g, changes), role) <==>
            Emptied(g, role) && (forall c | c in changes :: !GrantsTo(c, role))
  {
    if changes != [] {
      var n := |changes| - 1;
      EmptyListSurvives(g, changes[..n], role);
      assert changes == changes[..n] + [changes[n]];
      EmptiedByOne(AppliedAll(g, changes[..n]), changes[n], role);
    }
  }

  lemma EmptiedByOne(g: Grants, c: Change, role: string)
    ensures Emptied(Applied(g, c), role) <==> Emptied(g, role) && !GrantsTo(c, role)
  {
  }

  /** Granting an action nobody in the role held, changing anything but that pair, then
      revoking it leaves the very document the changes alone would leave, order included;
      except exactly when the role was listed with no actions and nothing in between granted
      it any, when the listing is lost. */
  lemma {:induction false} GrantThenRevokeLeavesNoTrace(g: Grants, changes: seq<Change>, role: string, action: string,
                                                        why: string, whyNot: string)
    requires !Holds(g, role, action)
    requires forall c | c in changes :: !Names(c, role, action)
    ensures var alone := AppliedAll(g, changes);
            var around := Applied(AppliedAll(Applied(g, Change(role, action, true, why)), changes),
                                  Change(role, action, false, whyNot));
            && (around == alone <==> !(Emptied(g, role) && forall c | c in changes :: !GrantsTo(c, role)))
            && (around != alone ==> around == alone.(roleActions := alone.roleActions - {role}))
  {
    var granted := Applied(g, Change(role, action, true, why));
    ShorterIffHeld(Actions(g, role), action);
    WithoutSnoc(Actions(g, role), action, action);
    assert granted.roleActions - {role} == g.roleActions - {role};
    assert Extends(g, granted, role, action);
    OtherChangesKeepExtension(g, granted, changes, role, action);
    EmptyListSurvives(g, changes, role);
    RevokingTheExtra(AppliedAll(g, changes), AppliedAll(granted, changes), role, action);
  }

  lemma RevokingTheExtra(x: Grants, y: Grants, role: string, action: string)
    requires Extends(x, y, role, action)
    ensures Revoked(y, role, action) ==
            if Emptied(x, role) then x.(roleActions := x.roleActions - {role}) else x
  {
    var t := Revoked(y, role, action);
    assert t.roleActions - {role} == y.roleActions - {role} == x.roleActions - {role};
    assert role in t.roleActions ==> t.roleActions[role] == Actions(x, role);
    forall r
      ensures r in t.roleActions <==> r in x.roleActions && !(r == role && Emptied(x, role))
      ensures r in t.roleActions ==> t.roleActions[r] == x.roleActions[r]
    {
      assert r in t.roleActions - {role} <==> r in x.roleActions - {role};
      if r != role && r in t.roleActions {
        assert (t.roleActions - {role})[r] == (x.roleActions - {role})[r];
      }
    }
  }

  /** So a document whose every role lists something is always restored exactly. */
  lemma {:induction false} GrantThenRevokeRestores(g: Grants, changes: seq<Change>, role: string, action: string,
                                                   why: string, whyNot: string)
    requires NoEmptyLists(g) && !Holds(g, role, action)
    requires forall c | c in changes :: !Names(c, role, action)
    ensures Applied(AppliedAll(Applied(g, Change(role, action, true, why)), changes), Change(role, action, false, whyNot))
         == AppliedAll(g, changes)
  {
    assert !Emptied(g, role);
    GrantThenRevokeLeavesNoTrace(g, changes, role, action, why, whyNot);
  }

  /** The exception happens: a role listed with nothing loses its entry to a grant and revoke. */
  lemma AnExplicitEmptyListIsLost()
    ensures var g := Grants(map["auditor" := []], []);
            var there := Applied(g, Change("auditor", "read", true, ""));
            Applied(there, Change("auditor", "read", false, "")) == Grants(map[], []) != g
  {
    var g := Grants(map["auditor" := []], []);
    GrantThenRevokeLeavesNoTrace(g, [], "auditor", "read", "", "");
    assert g.roleActions - {"auditor"} == map[];
    assert "auditor" in g.roleActions;
  }
}
