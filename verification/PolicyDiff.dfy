/**
 The difference between two grant documents as reviewable changes
 (mantlekeep-control/grants/change.go: ChangesFrom).
 */
module PolicyDiff {
  import opened Ordering
  import opened PolicyChange

  /** The pairs that exactly one of the two documents allows. */
  ghost predicate Differs(before: Grants, after: Grants, role: string, action: string) {
    Holds(before, role, action) != Holds(after, role, action)
  }

  /** One change per differing pair and no other, each in the direction of `after`. */
  ghost predicate IsDiff(before: Grants, after: Grants, reason: string, changes: seq<Change>) {
    && (forall i | 0 <= i < |changes| ::
          && changes[i].reason == reason
          && Differs(before, after, changes[i].role, changes[i].action)
          && changes[i].grant == Holds(after, changes[i].role, changes[i].action))
    && (forall i, j | 0 <= i < j < |changes| :: ChangeLess(changes[i], changes[j]))
    && (forall role, action | Differs(before, after, role, action) :: Mentioned(changes, role, action))
  }

  predicate Mentioned(changes: seq<Change>, role: string, action: string) {
    exists i | 0 <= i < |changes| :: Names(changes[i], role, action)
  }

  /** Role by role; what a role gains before what it loses; each in text order. */
  predicate ChangeLess(c: Change, d: Change) {
    || Less(c.role, d.role)
    || (c.role == d.role && c.grant && !d.grant)
    || (c.role == d.role && c.grant == d.grant && Less(c.action, d.action))
  }

  // ---------------------------------------------------------------------------------------
  // Computing it
  // ---------------------------------------------------------------------------------------

  method UnionRoles(before: Grants, after: Grants) returns (roles: seq<string>)
    ensures Increasing(roles)
    ensures forall role :: role in roles <==> role in before.roleActions || role in after.roleActions
  {
    roles := SortedKeys(before.roleActions.Keys + after.roleActions.Keys);
  }

  method ActionSet(actions: seq<string>) returns (out: set<string>)
    ensures forall a :: a in out <==> a in actions
  {
    out := {};
    for i := 0 to |actions|
      invariant forall a :: a in out <==> a in actions[..i]
    {
      out := out + {actions[i]};
    }
  }

  /** The changes of one role in one direction, for the keys looked at. */
  ghost predicate OneWaySoFar(role: string, keys: seq<string>, there: set<string>, grant: bool, reason: string,
                              changes: seq<Change>) {
    && (forall i | 0 <= i < |changes| ::
          && changes[i] == Change(role, changes[i].action, grant, reason)
          && changes[i].action in keys && changes[i].action !in there)
    && (forall i, j | 0 <= i < j < |changes| :: Less(changes[i].action, changes[j].action))
    && (forall action | action in keys && action !in there :: Mentioned(changes, role, action))
  }

  lemma OneWayPasses(role: string, keys: seq<string>, key: string, there: set<string>, grant: bool, reason: string,
                     changes: seq<Change>)
    requires OneWaySoFar(role, keys, there, grant, reason, changes) && key in there
    ensures OneWaySoFar(role, keys + [key], there, grant, reason, changes)
  {
  }

  lemma OneWayAdds(role: string, keys: seq<string>, key: string, there: set<string>, grant: bool, reason: string,
                   changes: seq<Change>)
    requires OneWaySoFar(role, keys, there, grant, reason, changes) && key !in there
    requires Increasing(keys + [key])
    ensures OneWaySoFar(role, keys + [key], there, grant, reason, changes + [Change(role, key, grant, reason)])
  {
    var c := Change(role, key, grant, reason);
    MentionedLater(changes, c, role);
    forall i | 0 <= i < |changes| ensures Less(changes[i].action, key) {
      var j :| 0 <= j < |keys| && keys[j] == changes[i].action;
      assert Less((keys + [key])[j], (keys + [key])[|keys|]);
    }
  }

  method OneWay(role: string, here: set<string>, there: set<string>, grant: bool, reason: string)
    returns (changes: seq<Change>, ghost keys: seq<string>)
    ensures OneWaySoFar(role, keys, there, grant, reason, changes)
    ensures forall k :: k in keys <==> k in here
  {
    var sorted := SortedKeys(here);
    keys := [];
    changes := [];
    for k := 0 to |sorted|
      invariant keys == sorted[..k] && OneWaySoFar(role, keys, there, grant, reason, changes)
    {
      assert keys + [sorted[k]] == sorted[..k + 1];
      if sorted[k] in there {
        OneWayPasses(role, keys, sorted[k], there, grant, reason, changes);
      } else {
        OneWayAdds(role, keys, sorted[k], there, grant, reason, changes);
        changes := changes + [Change(role, sorted[k], grant, reason)];
      }
      keys := keys + [sorted[k]];
    }
    assert keys == sorted;
  }

  lemma MentionedLater(changes: seq<Change>, c: Change, role: string)
    ensures forall action | Mentioned(changes, role, action) :: Mentioned(changes + [c], role, action)
    ensures Mentioned(changes + [c], c.role, c.action)
  {
    forall action | Mentioned(changes, role, action)
      ensures Mentioned(changes + [c], role, action)
    {
      var i :| 0 <= i < |changes| && Names(changes[i], role, action);
      assert Names((changes + [c])[i], role, action);
    }
    assert Names((changes + [c])[|changes|], c.role, c.action);
  }

  lemma MentionedInEither(left: seq<Change>, right: seq<Change>, role: string, action: string)
    requires Mentioned(left, role, action) || Mentioned(right, role, action)
    ensures Mentioned(left + right, role, action)
  {
    if Mentioned(left, role, action) {
      var i :| 0 <= i < |left| && Names(left[i], role, action);
      assert Names((left + right)[i], role, action);
    } else {
      var i :| 0 <= i < |right| && Names(right[i], role, action);
      assert Names((left + right)[|left| + i], role, action);
    }
  }

  method ChangesOfRole(before: Grants, after: Grants, role: string, reason: string) returns (changes: seq<Change>)
    ensures RoleDiff(before, after, role, reason, changes)
  {
    var had := ActionSet(Actions(before, role));
    var has := ActionSet(Actions(after, role));
    var gained, hasKeys := OneWay(role, has, had, true, reason);
    var lost, hadKeys := OneWay(role, had, has, false, reason);
    changes := gained + lost;
    forall action | Differs(before, after, role, action)
      ensures Mentioned(changes, role, action)
    {
      MentionedInEither(gained, lost, role, action);
    }
  }

  ghost predicate RoleDiff(before: Grants, after: Grants, role: string, reason: string, changes: seq<Change>) {
    && (forall i | 0 <= i < |changes| ::
          && changes[i].reason == reason && changes[i].role == role
          && Differs(before, after, role, changes[i].action)
          && changes[i].grant == Holds(after, role, changes[i].action))
    && (forall i, j | 0 <= i < j < |changes| :: ChangeLess(changes[i], changes[j]))
    && (forall action | Differs(before, after, role, action) :: Mentioned(changes, role, action))
  }

  method ChangesFrom(before: Grants, after: Grants, reason: string) returns (changes: seq<Change>)
    ensures IsDiff(before, after, reason, changes)
  {
    var roles := UnionRoles(before, after);
    changes := [];
    for r := 0 to |roles|
      invariant forall i | 0 <= i < |changes| ::
                  && changes[i].reason == reason && changes[i].role in roles[..r]
                  && Differs(before, after, changes[i].role, changes[i].action)
                  && changes[i].grant == Holds(after, changes[i].role, changes[i].action)
      invariant forall i, j | 0 <= i < j < |changes| :: ChangeLess(changes[i], changes[j])
      invariant forall role, action | role in roles[..r] && Differs(before, after, role, action) ::
                  Mentioned(changes, role, action)
    {
      var more := ChangesOfRole(before, after, roles[r], reason);
      forall role, action | role in roles[..r + 1] && Differs(before, after, role, action)
        ensures Mentioned(changes + more, role, action)
      {
        MentionedInEither(changes, more, role, action);
      }
      forall i | 0 <= i < |changes|
        ensures Less(changes[i].role, roles[r])
      {
        assert changes[i].role in roles[..r];
      }
      changes := changes + more;
    }
  }

  // ---------------------------------------------------------------------------------------
  // What a difference is good for
  // ---------------------------------------------------------------------------------------

  lemma ChangeLessIsStrict(c: Change, d: Change)
    ensures !(ChangeLess(c, d) && ChangeLess(d, c))
    ensures ChangeLess(c, d) ==> c != d
  {
    LessIsStrict(c.role, d.role);
    LessIsStrict(c.action, d.action);
    LessIsStrict(c.role, c.role);
    LessIsStrict(c.action, c.action);
  }

  /** No pair is changed twice. */
  lemma EachPairOnce(before: Grants, after: Grants, reason: string, changes: seq<Change>, i: nat, j: nat)
    requires IsDiff(before, after, reason, changes) && i < j < |changes|
    ensures !Names(changes[i], changes[j].role, changes[j].action)
  {
    if Names(changes[i], changes[j].role, changes[j].action) {
      assert changes[i] == changes[j];
      ChangeLessIsStrict(changes[i], changes[j]);
    }
  }

  lemma MentionedInLonger(done: seq<Change>, c: Change, role: string, action: string)
    ensures Mentioned(done + [c], role, action) <==> Mentioned(done, role, action) || Names(c, role, action)
  {
    if Mentioned(done, role, action) || Names(c, role, action) {
      assert Names(c, role, action) ==> Names([c][0], role, action);
      MentionedInEither(done, [c], role, action);
    }
    if Mentioned(done + [c], role, action) {
      var i :| 0 <= i < |done + [c]| && Names((done + [c])[i], role, action);
      assert i < |done| ==> Names(done[i], role, action);
    }
  }

  /** Every change is towards `after`. */
  predicate Towards(after: Grants, changes: seq<Change>) {
    forall i | 0 <= i < |changes| :: changes[i].grant == Holds(after, changes[i].role, changes[i].action)
  }

  /** Part of the way through, a pair already changed is as in `after`, any other as before. */
  lemma {:induction false} HalfwayThrough(before: Grants, after: Grants, changes: seq<Change>, role: string,
                                          action: string)
    requires Towards(after, changes)
    ensures Holds(AppliedAll(before, changes), role, action) ==
            if Mentioned(changes, role, action) then Holds(after, role, action) else Holds(before, role, action)
  {
    if changes != [] {
      var done, c := changes[..|changes| - 1], changes[|changes| - 1];
      assert changes == done + [c];
      HalfwayThrough(before, after, done, role, action);
      ChangeDecidesItsPair(AppliedAll(before, done), c);
      MentionedInLonger(done, c, role, action);
    }
  }

  /** Replaying the difference onto `before` allows exactly what `after` allows; every change
      takes effect when its turn comes. */
  lemma {:induction false} ReplayReachesAfter(before: Grants, after: Grants, reason: string, changes: seq<Change>)
    requires IsDiff(before, after, reason, changes)
    ensures forall role, action :: Holds(AppliedAll(before, changes), role, action) == Holds(after, role, action)
    ensures forall k | 0 <= k < |changes| ::
              Applied(AppliedAll(before, changes[..k]), changes[k]) != AppliedAll(before, changes[..k])
  {
    forall role, action
      ensures Holds(AppliedAll(before, changes), role, action) == Holds(after, role, action)
    {
      HalfwayThrough(before, after, changes, role, action);
      assert Differs(before, after, role, action) ==> Mentioned(changes, role, action);
    }
    forall k | 0 <= k < |changes|
      ensures Applied(AppliedAll(before, changes[..k]), changes[k]) != AppliedAll(before, changes[..k])
    {
      EachChangeTakesEffect(before, after, reason, changes, k);
    }
  }

  lemma {:induction false} EachChangeTakesEffect(before: Grants, after: Grants, reason: string, changes: seq<Change>,
                                                 k: nat)
    requires IsDiff(before, after, reason, changes) && k < |changes|
    ensures Applied(AppliedAll(before, changes[..k]), changes[k]) != AppliedAll(before, changes[..k])
  {
    var c := changes[k];
    HalfwayThrough(before, after, changes[..k], c.role, c.action);
    if Mentioned(changes[..k], c.role, c.action) {
      var i :| 0 <= i < k && Names(changes[..k][i], c.role, c.action);
      EachPairOnce(before, after, reason, changes, i, k);
    }
    ChangeDecidesItsPair(AppliedAll(before, changes[..k]), c);
  }

  /** Nothing to review exactly when the documents allow the same; a role listed with no
      actions and a role not listed are the same. */
  lemma EmptyIffSamePolicy(before: Grants, after: Grants, reason: string, changes: seq<Change>)
    requires IsDiff(before, after, reason, changes)
    ensures changes == [] <==> forall role, action :: Holds(before, role, action) == Holds(after, role, action)
  {
    if changes != [] {
      assert Differs(before, after, changes[0].role, changes[0].action);
    } else {
      forall role, action
        ensures Holds(before, role, action) == Holds(after, role, action)
      {
        assert !Mentioned(changes, role, action);
      }
    }
  }

  /** No list of changes that ends where `after` is can be shorter. */
  lemma {:induction false} NoShorterList(before: Grants, after: Grants, reason: string, changes: seq<Change>,
                                         other: seq<Change>)
    requires IsDiff(before, after, reason, changes)
    requires forall role, action :: Holds(AppliedAll(before, other), role, action) == Holds(after, role, action)
    ensures |changes| <= |other|
  {
    forall i | 0 <= i < |changes|
      ensures Mentioned(other, changes[i].role, changes[i].action)
    {
      UntouchedPairStays(before, other, changes[i].role, changes[i].action);
    }
    forall i, j | 0 <= i < j < |changes|
      ensures PairOf(changes[i]) != PairOf(changes[j])
    {
      EachPairOnce(before, after, reason, changes, i, j);
    }
    PairsAreDistinct(changes);
    PairsAtMost(other);
    assert Pairs(changes) <= Pairs(other) by {
      forall p | p in Pairs(changes) ensures p in Pairs(other) {
        var i :| 0 <= i < |changes| && PairOf(changes[i]) == p;
        assert Mentioned(other, changes[i].role, changes[i].action);
        var j :| 0 <= j < |other| && Names(other[j], changes[i].role, changes[i].action);
        assert PairOf(other[j]) == p;
      }
    }
    SubsetIsNoLarger(Pairs(changes), Pairs(other));
  }

  function PairOf(c: Change): (string, string) {
    (c.role, c.action)
  }

  function Pairs(changes: seq<Change>): set<(string, string)> {
    set i | 0 <= i < |changes| :: PairOf(changes[i])
  }

  lemma {:induction false} UntouchedPairStays(g: Grants, changes: seq<Change>, role: string, action: string)
    ensures Holds(AppliedAll(g, changes), role, action) != Holds(g, role, action) ==> Mentioned(changes, role, action)
  {
    if changes != [] {
      var n := |changes| - 1;
      UntouchedPairStays(g, changes[..n], role, action);
      assert changes == changes[..n] + [changes[n]];
      MentionedLater(changes[..n], changes[n], role);
      ChangeDecidesItsPair(AppliedAll(g, changes[..n]), changes[n]);
    }
  }

  lemma {:induction false} PairsAreDistinct(changes: seq<Change>)
    requires forall i, j | 0 <= i < j < |changes| :: PairOf(changes[i]) != PairOf(changes[j])
    ensures |Pairs(changes)| == |changes|
  {
    if changes != [] {
      var n := |changes| - 1;
      PairsAreDistinct(changes[..n]);
      assert Pairs(changes) == Pairs(changes[..n]) + {PairOf(changes[n])};
    }
  }

  lemma {:induction false} PairsAtMost(changes: seq<Change>)
    ensures |Pairs(changes)| <= |changes|
  {
    if changes != [] {
      var n := |changes| - 1;
      PairsAtMost(changes[..n]);
      assert Pairs(changes) == Pairs(changes[..n]) + {PairOf(changes[n])};
    }
  }

  lemma {:induction false} SubsetIsNoLarger<T>(small: set<T>, large: set<T>)
    requires small <= large
    ensures |small| <= |large|
  {
    if small != {} {
      var x :| x in small;
      SubsetIsNoLarger(small - {x}, large - {x});
    }
  }

  /** The list is one list, whatever order the maps were walked in. */
  lemma {:induction false} DiffIsUnique(before: Grants, after: Grants, reason: string, one: seq<Change>,
                                        two: seq<Change>)
    requires IsDiff(before, after, reason, one) && IsDiff(before, after, reason, two)
    ensures one == two
  {
    NoShorterBecauseReplay(before, after, reason, one, two);
    NoShorterBecauseReplay(before, after, reason, two, one);
    forall k | 0 <= k < |one|
      ensures one[k] == two[k]
    {
      SamePlace(before, after, reason, one, two, k);
    }
  }

  lemma NoShorterBecauseReplay(before: Grants, after: Grants, reason: string, one: seq<Change>, two: seq<Change>)
    requires IsDiff(before, after, reason, one) && IsDiff(before, after, reason, two)
    ensures |one| <= |two|
  {
    ReplayReachesAfter(before, after, reason, two);
    NoShorterList(before, after, reason, one, two);
  }

  lemma AtSomePlace(before: Grants, after: Grants, reason: string, one: seq<Change>, two: seq<Change>, k: nat)
    returns (j: nat)
    requires IsDiff(before, after, reason, one) && IsDiff(before, after, reason, two) && k < |one|
    ensures j < |two| && two[j] == one[k]
  {
    assert Mentioned(two, one[k].role, one[k].action);
    j :| 0 <= j < |two| && Names(two[j], one[k].role, one[k].action);
  }

  lemma {:induction false} SamePlace(before: Grants, after: Grants, reason: string, one: seq<Change>,
                                     two: seq<Change>, k: nat)
    requires IsDiff(before, after, reason, one) && IsDiff(before, after, reason, two)
    requires k < |one| == |two|
    ensures one[k] == two[k]
    decreases k
  {
    forall i | 0 <= i < k ensures one[i] == two[i] {
      SamePlace(before, after, reason, one, two, i);
    }
    var j := AtSomePlace(before, after, reason, one, two, k);
    var i := AtSomePlace(before, after, reason, two, one, k);
    if j < k {
      assert one[j] == one[k];
      ChangeLessIsStrict(one[j], one[k]);
    } else if i < k {
      assert two[i] == two[k];
      ChangeLessIsStrict(two[i], two[k]);
    } else {
      ChangeLessIsStrict(one[k], two[k]);
    }
  }
}
