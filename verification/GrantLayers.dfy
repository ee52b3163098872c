/**
 The layered policy (mantlekeep-control/grants/grants.go: Load, applyPlatformLayer,
 applyProductLayers, refuseSealedActions; merge.go: unionStrings; floors.go: mergeFloors).

 Maps are walked in any order; reading files and parsing them is left to the caller.
 */
module GrantLayers {
  import opened PolicyChange
  import opened PolicyDocument

  /** One contribution; only the platform's `sealedActions` are honoured. */
  datatype Layer = Layer(
    source: string, roleActions: map<string, seq<string>>, approvalActions: seq<string>,
    floors: Floors, sealedActions: seq<string>)

  datatype Platform = NoPlatform | Platform(layer: Layer)

  datatype LoadResult = Loaded(grants: Grants) | SealedActionGranted(source: string, role: string, action: string)

  // ---------------------------------------------------------------------------------------
  // Specification
  // ---------------------------------------------------------------------------------------

  /** Each entry once, where it first stood. */
  function Distinct(s: seq<string>): (r: seq<string>)
    ensures forall x :: x in r <==> x in s
    ensures forall i, j | 0 <= i < j < |r| :: r[i] != r[j]
  {
    if s == [] then []
    else
      var n := |s| - 1;
      assert s == s[..n] + [s[n]];
      if s[n] in s[..n] then Distinct(s[..n]) else Distinct(s[..n]) + [s[n]]
  }

  function Union(a: seq<string>, b: seq<string>): seq<string> {
    Distinct(a + b)
  }

  function RolesMerged(g: Grants, more: map<string, seq<string>>): map<string, seq<string>> {
    map role | role in g.roleActions.Keys + more.Keys ::
      if role in more then Union(Actions(g, role), more[role]) else g.roleActions[role]
  }

  function Merged(g: Grants, layer: Layer): Grants {
    Grants(RolesMerged(g, layer.roleActions), Union(g.approvalActions, layer.approvalActions))
  }

  function AllMerged(g: Grants, layers: seq<Layer>): Grants {
    if layers == [] then g else Merged(AllMerged(g, layers[..|layers| - 1]), layers[|layers| - 1])
  }

  function OnPlatform(baseline: Grants, platform: Platform): Grants {
    match platform
    case NoPlatform => baseline
    case Platform(layer) => Merged(baseline, layer)
  }

  predicate LayerHolds(layer: Layer, role: string, action: string) {
    role in layer.roleActions && action in layer.roleActions[role]
  }

  /** What the platform grants is sealed without being listed; what it lists is sealed too. */
  ghost predicate Sealed(platform: Platform, action: string) {
    && platform.Platform?
    && (action in platform.layer.sealedActions || exists role :: LayerHolds(platform.layer, role, action))
  }

  ghost predicate GrantsSealed(platform: Platform, layer: Layer, role: string, action: string) {
    LayerHolds(layer, role, action) && Sealed(platform, action)
  }

  ghost predicate BreaksSeal(platform: Platform, layer: Layer) {
    exists role, action :: GrantsSealed(platform, layer, role, action)
  }

  // ---------------------------------------------------------------------------------------
  // Loading
  // ---------------------------------------------------------------------------------------

  function Elements(s: seq<string>): set<string> {
    set x | x in s
  }

  lemma {:induction false} OneMoreSeen(s: seq<string>, x: string)
    ensures Elements(s + [x]) == Elements(s) + {x}
    ensures Distinct(s + [x]) == if x in Elements(s) then Distinct(s) else Distinct(s) + [x]
  {
    assert (s + [x])[..|s|] == s;
  }

  lemma OneMoreTaken(a: seq<string>, b: seq<string>, i: nat)
    requires i < |b|
    ensures a + b[..i] + [b[i]] == a + b[..i + 1]
  {
  }

  method UnionStrings(a: seq<string>, b: seq<string>) returns (out: seq<string>)
    ensures out == Union(a, b)
  {
    var seen: set<string> := {};
    out := [];
    ghost var done: seq<string> := [];
    for i := 0 to |a|
      invariant done == [] + a[..i] && out == Distinct(done) && seen == Elements(done)
    {
      OneMoreSeen(done, a[i]);
      OneMoreTaken([], a, i);
      done := done + [a[i]];
      if a[i] !in seen {
        seen := seen + {a[i]};
        out := out + [a[i]];
      }
    }
    assert done == a;
    for i := 0 to |b|
      invariant done == a + b[..i] && out == Distinct(done) && seen == Elements(done)
    {
      OneMoreSeen(done, b[i]);
      OneMoreTaken(a, b, i);
      done := done + [b[i]];
      if b[i] !in seen {
        seen := seen + {b[i]};
        out := out + [b[i]];
      }
    }
    assert done == a + b;
  }

  class GrantsLoad {
    var grants: Grants
    var sealed: set<string>

    constructor (baseline: Grants)
      ensures grants == baseline && sealed == {}
    {
      grants := baseline;
      sealed := {};
    }

    method MergeRole(role: string, actions: seq<string>)
      modifies this`grants
      ensures grants == old(grants).(roleActions := old(grants).roleActions[role := Union(Actions(old(grants), role), actions)])
    {
      var union := UnionStrings(Actions(grants, role), actions);
      grants := grants.(roleActions := grants.roleActions[role := union]);
    }

    method SealActions(actions: seq<string>)
      modifies this`sealed
      ensures forall a :: a in sealed <==> a in old(sealed) || a in actions
    {
      for i := 0 to |actions|
        invariant forall a :: a in sealed <==> a in old(sealed) || a in actions[..i]
      {
        sealed := sealed + {actions[i]};
      }
    }

    method ApplyPlatformLayer(platform: Platform)
      requires sealed == {}
      modifies this
      ensures grants == OnPlatform(old(grants), platform)
      ensures forall action :: action in sealed <==> Sealed(platform, action)
    {
      if platform.NoPlatform? {
        return;
      }
      var layer := platform.layer;
      var rest := layer.roleActions.Keys;
      while rest != {}
        invariant rest <= layer.roleActions.Keys
        invariant PartlyMerged(old(grants), layer.roleActions, rest, grants)
        invariant forall action :: action in sealed <==> GrantedOutside(layer, rest, action)
      {
        var role :| role in rest;
        OneRoleMore(layer, rest, role);
        SealActions(layer.roleActions[role]);
        ghost var before := grants;
        MergeRole(role, layer.roleActions[role]);
        OneRoleMerged(old(grants), layer.roleActions, rest, role, before, grants);
        rest := rest - {role};
      }
      FullyMerged(old(grants), layer.roleActions, grants);
      var approvals := UnionStrings(grants.approvalActions, layer.approvalActions);
      grants := grants.(approvalActions := approvals);
      SealActions(layer.sealedActions);
    }

    /** The seal: the first sealed action in a product's list for a role, if any. */
    method RefuseSealedActions(source: string, role: string, actions: seq<string>) returns (r: LoadResult)
      ensures r.Loaded? <==> forall a | a in actions :: a !in sealed
      ensures r.Loaded? ==> r.grants == grants
      ensures r.SealedActionGranted? ==> r.source == source && r.role == role && r.action in actions && r.action in sealed
      ensures r.SealedActionGranted? ==>
                exists k :: 0 <= k < |actions| && actions[k] == r.action && forall a | a in actions[..k] :: a !in sealed
    {
      for i := 0 to |actions|
        invariant forall a | a in actions[..i] :: a !in sealed
      {
        if actions[i] in sealed {
          return SealedActionGranted(source, role, actions[i]);
        }
      }
      r := Loaded(grants);
    }

    method ApplyProductLayer(platform: Platform, layer: Layer) returns (r: LoadResult)
      requires forall action :: action in sealed <==> Sealed(platform, action)
      modifies this`grants
      ensures r.Loaded? <==> !BreaksSeal(platform, layer)
      ensures r.Loaded? ==> grants == Merged(old(grants), layer) == r.grants
      ensures r.SealedActionGranted? ==> r.source == layer.source && GrantsSealed(platform, layer, r.role, r.action)
    {
      var rest := layer.roleActions.Keys;
      while rest != {}
        invariant rest <= layer.roleActions.Keys
        invariant PartlyMerged(old(grants), layer.roleActions, rest, grants)
        invariant CleanOutside(platform, layer, rest)
      {
        var role :| role in rest;
        r := RefuseSealedActions(layer.source, role, layer.roleActions[role]);
        if r.SealedActionGranted? {
          assert GrantsSealed(platform, layer, r.role, r.action);
          return;
        }
        ghost var before := grants;
        MergeRole(role, layer.roleActions[role]);
        OneRoleMerged(old(grants), layer.roleActions, rest, role, before, grants);
        OneRoleClean(platform, layer, rest, role);
        rest := rest - {role};
      }
      FullyMerged(old(grants), layer.roleActions, grants);
      var approvals := UnionStrings(grants.approvalActions, layer.approvalActions);
      grants := grants.(approvalActions := approvals);
      r := Loaded(grants);
    }

    method ApplyProductLayers(platform: Platform, layers: seq<Layer>) returns (r: LoadResult)
      requires forall action :: action in sealed <==> Sealed(platform, action)
      modifies this`grants
      ensures r.Loaded? <==> forall layer | layer in layers :: !BreaksSeal(platform, layer)
      ensures r.Loaded? ==> grants == AllMerged(old(grants), layers) == r.grants
      ensures r.SealedActionGranted? ==> BreaksFirst(platform, layers, r.source, r.role, r.action)
    {
      r := Loaded(grants);
      for i := 0 to |layers|
        invariant r == Loaded(grants) && grants == AllMerged(old(grants), layers[..i])
        invariant forall layer | layer in layers[..i] :: !BreaksSeal(platform, layer)
      {
        assert layers[..i + 1][..i] == layers[..i];
        r := ApplyProductLayer(platform, layers[i]);
        if r.SealedActionGranted? {
          assert layers[i] in layers;
          assert BreaksAt(platform, layers, i, r.source, r.role, r.action);
          return;
        }
      }
      assert layers[..|layers|] == layers;
    }
  }

  /** A sealed action granted by the first layer, in order, to grant any. */
  ghost predicate BreaksFirst(platform: Platform, layers: seq<Layer>, source: string, role: string, action: string) {
    exists i: nat :: BreaksAt(platform, layers, i, source, role, action)
  }

  ghost predicate BreaksAt(platform: Platform, layers: seq<Layer>, i: nat, source: string, role: string,
                           action: string) {
    && i < |layers| && layers[i].source == source && GrantsSealed(platform, layers[i], role, action)
    && forall layer | layer in layers[..i] :: !BreaksSeal(platform, layer)
  }

  ghost predicate PartlyMerged(g: Grants, more: map<string, seq<string>>, rest: set<string>, t: Grants) {
    && t.approvalActions == g.approvalActions
    && (forall role :: role in t.roleActions <==> role in g.roleActions || (role in more && role !in rest))
    && (forall role | role in t.roleActions ::
          t.roleActions[role] == if role in more && role !in rest then Union(Actions(g, role), more[role])
                                 else g.roleActions[role])
  }

  lemma OneRoleMerged(g: Grants, more: map<string, seq<string>>, rest: set<string>, role: string, s: Grants, t: Grants)
    requires PartlyMerged(g, more, rest, s) && role in rest && role in more
    requires t == s.(roleActions := s.roleActions[role := Union(Actions(s, role), more[role])])
    ensures PartlyMerged(g, more, rest - {role}, t)
  {
    assert Actions(s, role) == Actions(g, role);
  }

  lemma FullyMerged(g: Grants, more: map<string, seq<string>>, t: Grants)
    requires PartlyMerged(g, more, {}, t)
    ensures t == g.(roleActions := RolesMerged(g, more))
  {
    var merged := RolesMerged(g, more);
    forall role
      ensures role in t.roleActions <==> role in merged
      ensures role in merged ==> t.roleActions[role] == merged[role]
    {
    }
    assert t.roleActions == merged;
  }

  ghost predicate CleanOutside(platform: Platform, layer: Layer, rest: set<string>) {
    forall role, action | role !in rest :: !GrantsSealed(platform, layer, role, action)
  }

  lemma OneRoleClean(platform: Platform, layer: Layer, rest: set<string>, role: string)
    requires CleanOutside(platform, layer, rest) && role in layer.roleActions
    requires forall a | a in layer.roleActions[role] :: !Sealed(platform, a)
    ensures CleanOutside(platform, layer, rest - {role})
  {
  }

  ghost predicate GrantedOutside(layer: Layer, rest: set<string>, action: string) {
    exists role :: role !in rest && LayerHolds(layer, role, action)
  }

  lemma OneRoleMore(layer: Layer, rest: set<string>, role: string)
    requires role in rest && role in layer.roleActions
    ensures forall action :: GrantedOutside(layer, rest - {role}, action) <==>
              GrantedOutside(layer, rest, action) || action in layer.roleActions[role]
  {
    forall action
      ensures GrantedOutside(layer, rest - {role}, action) <==>
              GrantedOutside(layer, rest, action) || action in layer.roleActions[role]
    {
      if action in layer.roleActions[role] {
        assert LayerHolds(layer, role, action);
      }
      if GrantedOutside(layer, rest, action) {
        var r :| r !in rest && LayerHolds(layer, r, action);
        assert r !in rest - {role};
      }
    }
  }

  /** Loads exactly when no product grants a sealed action, and then gives the layers merged
      in order, whatever order the maps were walked in. */
  method Load(baseline: Grants, platform: Platform, products: seq<Layer>) returns (r: LoadResult)
    ensures r.Loaded? <==> forall layer | layer in products :: !BreaksSeal(platform, layer)
    ensures r.Loaded? ==> r.grants == AllMerged(OnPlatform(baseline, platform), products)
    ensures r.SealedActionGranted? ==> BreaksFirst(platform, products, r.source, r.role, r.action)
  {
    var load := new GrantsLoad(baseline);
    load.ApplyPlatformLayer(platform);
    r := load.ApplyProductLayers(platform, products);
  }

  // ---------------------------------------------------------------------------------------
  // What a loaded policy allows
  // ---------------------------------------------------------------------------------------

  predicate SomeLayerHolds(layers: seq<Layer>, role: string, action: string) {
    exists i | 0 <= i < |layers| :: LayerHolds(layers[i], role, action)
  }

  predicate PlatformHolds(platform: Platform, role: string, action: string) {
    platform.Platform? && LayerHolds(platform.layer, role, action)
  }

  lemma MergedHolds(g: Grants, layer: Layer, role: string, action: string)
    ensures Holds(Merged(g, layer), role, action) <==> Holds(g, role, action) || LayerHolds(layer, role, action)
  {
  }

  lemma {:induction false} AllMergedHolds(g: Grants, layers: seq<Layer>, role: string, action: string)
    ensures Holds(AllMerged(g, layers), role, action) <==> Holds(g, role, action) || SomeLayerHolds(layers, role, action)
  {
    if layers != [] {
      var n := |layers| - 1;
      AllMergedHolds(g, layers[..n], role, action);
      MergedHolds(AllMerged(g, layers[..n]), layers[n], role, action);
      if SomeLayerHolds(layers[..n], role, action) {
        var i :| 0 <= i < n && LayerHolds(layers[..n][i], role, action);
        assert LayerHolds(layers[i], role, action);
      }
      if SomeLayerHolds(layers, role, action) {
        var i :| 0 <= i < |layers| && LayerHolds(layers[i], role, action);
        assert i < n ==> LayerHolds(layers[..n][i], role, action);
      }
    }
  }

  ghost predicate Loads(platform: Platform, products: seq<Layer>) {
    forall layer | layer in products :: !BreaksSeal(platform, layer)
  }

  /** A loaded policy allows what some layer allows and nothing else. */
  lemma {:induction false} LoadedPolicyIsTheUnion(baseline: Grants, platform: Platform, products: seq<Layer>,
                                                  role: string, action: string)
    ensures Holds(AllMerged(OnPlatform(baseline, platform), products), role, action) <==>
            || Holds(baseline, role, action) || PlatformHolds(platform, role, action)
            || SomeLayerHolds(products, role, action)
  {
    AllMergedHolds(OnPlatform(baseline, platform), products, role, action);
    if platform.Platform? {
      MergedHolds(baseline, platform.layer, role, action);
    }
  }

  /** Who holds a sealed action is the baseline's and the platform's to say, whatever product
      documents are present. */
  lemma {:induction false} SealedActionsAreThePlatforms(baseline: Grants, platform: Platform, products: seq<Layer>,
                                                        role: string, action: string)
    requires Loads(platform, products) && Sealed(platform, action)
    ensures Holds(AllMerged(OnPlatform(baseline, platform), products), role, action) <==>
            Holds(baseline, role, action) || PlatformHolds(platform, role, action)
  {
    LoadedPolicyIsTheUnion(baseline, platform, products, role, action);
    forall i | 0 <= i < |products|
      ensures !LayerHolds(products[i], role, action)
    {
      assert products[i] in products && !GrantsSealed(platform, products[i], role, action);
    }
  }

  /** The order of the product documents decides neither whether the policy loads nor what it
      allows. */
  lemma {:induction false} DocumentOrderDoesNotMatter(baseline: Grants, platform: Platform, one: seq<Layer>,
                                                      two: seq<Layer>)
    requires multiset(one) == multiset(two)
    ensures Loads(platform, one) <==> Loads(platform, two)
    ensures forall role, action ::
              Holds(AllMerged(OnPlatform(baseline, platform), one), role, action) ==
              Holds(AllMerged(OnPlatform(baseline, platform), two), role, action)
  {
    SameMembers(one, two);
    SameMembers(two, one);
    forall role, action
      ensures Holds(AllMerged(OnPlatform(baseline, platform), one), role, action) ==
              Holds(AllMerged(OnPlatform(baseline, platform), two), role, action)
    {
      LoadedPolicyIsTheUnion(baseline, platform, one, role, action);
      LoadedPolicyIsTheUnion(baseline, platform, two, role, action);
      SomeLayerAlike(one, two, role, action);
      SomeLayerAlike(two, one, role, action);
    }
  }

  lemma SameMembers(one: seq<Layer>, two: seq<Layer>)
    requires multiset(one) == multiset(two)
    ensures forall layer | layer in one :: layer in two
  {
    forall layer | layer in one
      ensures layer in two
    {
      assert layer in multiset(one);
    }
  }

  lemma SomeLayerAlike(one: seq<Layer>, two: seq<Layer>, role: string, action: string)
    requires forall layer | layer in one :: layer in two
    ensures SomeLayerHolds(one, role, action) ==> SomeLayerHolds(two, role, action)
  {
    if SomeLayerHolds(one, role, action) {
      var i :| 0 <= i < |one| && LayerHolds(one[i], role, action);
      assert one[i] in two;
      var j :| 0 <= j < |two| && two[j] == one[i];
    }
  }

  // ---------------------------------------------------------------------------------------
  // Floors
  // ---------------------------------------------------------------------------------------

  function Rules(f: Floors, action: string): seq<FloorRule> {
    if action in f then f[action] else []
  }

  method MergeFloors(f: Floors, rules: Floors) returns (merged: Floors)
    ensures forall action :: Rules(merged, action) == Rules(f, action) + Rules(rules, action)
  {
    merged := f;
    var rest := rules.Keys;
    while rest != {}
      invariant rest <= rules.Keys
      invariant forall action ::
                  Rules(merged, action) == if action in rest then Rules(f, action) else Rules(f, action) + Rules(rules, action)
    {
      var action :| action in rest;
      merged := merged[action := Rules(merged, action) + rules[action]];
      rest := rest - {action};
    }
  }

  function RulesOf(layers: seq<Layer>, action: string): seq<FloorRule> {
    if layers == [] then []
    else RulesOf(layers[..|layers| - 1], action) + Rules(layers[|layers| - 1].floors, action)
  }

  function PlatformRules(platform: Platform, action: string): seq<FloorRule> {
    if platform.Platform? then Rules(platform.layer.floors, action) else []
  }

  ghost predicate LayeredAt(base: Floors, layers: seq<Layer>, f: Floors, action: string) {
    Rules(f, action) == Rules(base, action) + RulesOf(layers, action)
  }

  lemma LayeredOneMore(base: Floors, layers: seq<Layer>, last: Layer, before: Floors, after: Floors, action: string)
    requires LayeredAt(base, layers, before, action)
    requires Rules(after, action) == Rules(before, action) + Rules(last.floors, action)
    ensures LayeredAt(base, layers + [last], after, action)
  {
    assert (layers + [last])[..|layers|] == layers;
  }

  method AppendProducts(base: Floors, products: seq<Layer>) returns (f: Floors)
    ensures forall action :: LayeredAt(base, products, f, action)
  {
    f := base;
    for i := 0 to |products|
      invariant forall action :: LayeredAt(base, products[..i], f, action)
    {
      ghost var before := f;
      f := MergeFloors(f, products[i].floors);
      ghost var merged := products[..i] + [products[i]];
      assert products[..i + 1] == merged;
      forall action
        ensures LayeredAt(base, merged, f, action)
      {
        LayeredOneMore(base, products[..i], products[i], before, f, action);
      }
    }
    assert products[..|products|] == products;
  }

  /** Each layer's rules after those of the layers below it; nothing is dropped or reordered. */
  method AppendLayeredFloors(base: Floors, platform: Platform, products: seq<Layer>) returns (f: Floors)
    ensures forall action ::
              Rules(f, action) == Rules(base, action) + PlatformRules(platform, action) + RulesOf(products, action)
  {
    var onPlatform := base;
    if platform.Platform? {
      onPlatform := MergeFloors(base, platform.layer.floors);
    }
    assert forall action :: Rules(onPlatform, action) == Rules(base, action) + PlatformRules(platform, action);
    f := AppendProducts(onPlatform, products);
    forall action
      ensures Rules(f, action) == Rules(base, action) + PlatformRules(platform, action) + RulesOf(products, action)
    {
      assert LayeredAt(onPlatform, products, f, action);
    }
  }

}
