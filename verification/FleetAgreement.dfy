/**
 A single change and the declaration it leads to (mantlekeep-estate/fleet.go:
 FleetChange.AsChange and its appliers): the change put to the door is the item the edited
 declaration resolves to, and an upgrade is never a step back, except where exactly it can be.
 */
module FleetAgreement {
  import opened Convergence
  import opened Estate
  import opened Fleet
  import opened Floor
  import opened Ordering
  import opened Reconcile
  import opened Versions

  /** The declaration with the change made to it. */
  function Edited(f: FleetManifest, change: FleetChange): FleetManifest {
    match change.operation
    case ScaleNodePool =>
      var i := FindPool(f.nodePools, change.nodePool);
      if i < |f.nodePools| && Atoi(change.to).Integer? then
        f.(nodePools := f.nodePools[i := f.nodePools[i].(size := Atoi(change.to).n)])
      else f
    case ChangeNodeInstanceType =>
      var i := FindPool(f.nodePools, change.nodePool);
      if i < |f.nodePools| then f.(nodePools := f.nodePools[i := f.nodePools[i].(instanceType := change.to)]) else f
    case ChangeStorageClass => f.(storageClass := change.to)
    case SwapNetworkPlugin => f.(networkPlugin := change.to)
    case SwapIngressController => f.(ingressController := change.to)
    case UpgradeKubernetes => f.(kubernetesVersion := change.to)
    case _ => f
  }

  /** The floor names machine shapes, none of them below zero nodes. */
  ghost predicate WellFormedPools(floor: Floor) {
    forall t | t in floor.fleet.nodePool ::
      var limits := floor.fleet.nodePool[t];
      limits.NodePoolLimits? && limits.minNodes >= 0 && forall s | s in limits.allowedInstanceTypes :: IsName(s)
  }

  /** The same thing, asked for in the same shape, at no more attention than declared. */
  ghost predicate Agrees(item: DesiredItem, declared: DesiredItem) {
    && item.asset == declared.asset && item.kind == declared.kind && item.name == declared.name && item.slot == declared.slot
    && item.limits == declared.limits && item.state == declared.state
    && item.tier.Strength() <= declared.tier.Strength()
  }

  /** A change taken against a declaration that resolves. */
  ghost predicate Accepted(f: FleetManifest, floor: Floor, change: FleetChange, item: DesiredItem) {
    Resolved(f, floor).Ok? && WellFormedPools(floor) && AsChange(change, f, floor) == Ok(item)
  }

  ghost predicate EditAgrees(f: FleetManifest, floor: Floor, change: FleetChange, item: DesiredItem) {
    var edited := Resolved(Edited(f, change), floor);
    edited.Ok? && exists i :: 0 <= i < |edited.value| && Agrees(item, edited.value[i])
  }

  // ---------------------------------------------------------------------------------------
  // Pools
  // ---------------------------------------------------------------------------------------

  lemma {:induction false} PoolItemsAre(f: FleetManifest, floor: Floor, limits: Limits, pools: seq<NodePool>)
    requires limits.NodePoolLimits?
    ensures PoolItems(f, floor, limits, pools).Ok? <==> forall i | 0 <= i < |pools| :: PoolRefusal(limits, pools[i]).None?
    ensures PoolItems(f, floor, limits, pools).Ok? ==>
              && |PoolItems(f, floor, limits, pools).value| == |pools|
              && forall i | 0 <= i < |pools| :: PoolItems(f, floor, limits, pools).value[i] == PoolItem(f, floor, limits, pools[i])
  {
    if pools != [] {
      var n := |pools| - 1;
      PoolItemsAre(f, floor, limits, pools[..n]);
      if PoolRefusal(limits, pools[n]).None? && PoolItems(f, floor, limits, pools[..n]).Ok? {
        forall i | 0 <= i < |pools| ensures PoolRefusal(limits, pools[i]).None? {
          assert i < n ==> pools[i] == pools[..n][i];
        }
      }
    }
  }

  lemma ReplacedPoolIsValid(f: FleetManifest, i: nat, pool: NodePool)
    requires ValidFleet(f) && i < |f.nodePools| && pool.name == f.nodePools[i].name && PoolOk(pool)
    ensures ValidFleet(f.(nodePools := f.nodePools[i := pool]))
  {
    var edited := f.(nodePools := f.nodePools[i := pool]);
    forall j | 0 <= j < |edited.nodePools|
      ensures PoolOk(edited.nodePools[j])
    {
      assert PoolOk(f.nodePools[j]);
    }
  }

  lemma {:induction false} ReplacedPoolResolves(f: FleetManifest, floor: Floor, limits: Limits, i: nat, pool: NodePool)
    requires limits.NodePoolLimits? && PoolItems(f, floor, limits, f.nodePools).Ok? && i < |f.nodePools|
    requires PoolRefusal(limits, pool).None?
    ensures var items := PoolItems(f.(nodePools := f.nodePools[i := pool]), floor, limits, f.nodePools[i := pool]);
            items.Ok? && i < |items.value| && items.value[i] == PoolItem(f, floor, limits, pool)
  {
    var edited := f.(nodePools := f.nodePools[i := pool]);
    PoolItemsAre(f, floor, limits, f.nodePools);
    PoolItemsAre(edited, floor, limits, edited.nodePools);
  }

  /** One pool replaced by another the floor allows: the declaration still resolves. */
  lemma OnePoolReplaced(f: FleetManifest, floor: Floor, i: nat, pool: NodePool)
    requires Resolved(f, floor).Ok? && i < |f.nodePools|
    requires pool.name == f.nodePools[i].name && PoolOk(pool)
    requires PoolRefusal(floor.fleet.nodePool[f.tier], pool).None?
    ensures var edited := Resolved(f.(nodePools := f.nodePools[i := pool]), floor);
            edited.Ok? && i + 2 < |edited.value| && edited.value[i + 2] == PoolItem(f, floor, floor.fleet.nodePool[f.tier], pool)
  {
    ReplacedPoolIsValid(f, i, pool);
    ReplacedPoolResolves(f, floor, floor.fleet.nodePool[f.tier], i, pool);
  }

  lemma PoolChangeAgrees(f: FleetManifest, floor: Floor, change: FleetChange, item: DesiredItem)
    requires Accepted(f, floor, change, item) && IsPoolOperation(change.operation)
    ensures EditAgrees(f, floor, change, item)
  {
    var i := FindPool(f.nodePools, change.nodePool);
    PoolChangeWasChecked(f, floor, change, item);
    EditedPoolIsOk(f, floor, change, item);
    OnePoolReplaced(f, floor, i, EditedPool(f, change));
    PoolItemAgrees(f, floor, change, item);
    assert Agrees(item, Resolved(Edited(f, change), floor).value[i + 2]);
  }

  lemma {:induction false} PoolChangeWasChecked(f: FleetManifest, floor: Floor, change: FleetChange, item: DesiredItem)
    requires Accepted(f, floor, change, item) && IsPoolOperation(change.operation)
    ensures ValidFleet(f) && HasPoolLimits(f, floor) && FindPool(f.nodePools, change.nodePool) < |f.nodePools|
    ensures ToNodePool(change, Blank(change, f, floor), f, floor.fleet.nodePool[f.tier]) == Ok(item)
    ensures PoolItems(f, floor, floor.fleet.nodePool[f.tier], f.nodePools).Ok?
  {
  }

  /** The pool as the change leaves it. */
  function EditedPool(f: FleetManifest, change: FleetChange): NodePool
    requires FindPool(f.nodePools, change.nodePool) < |f.nodePools|
  {
    var was := f.nodePools[FindPool(f.nodePools, change.nodePool)];
    if change.operation == ScaleNodePool then was.(size := (if Atoi(change.to).Integer? then Atoi(change.to).n else was.size))
    else was.(instanceType := change.to)
  }

  lemma EditedPoolIsOk(f: FleetManifest, floor: Floor, change: FleetChange, item: DesiredItem)
    requires Accepted(f, floor, change, item) && IsPoolOperation(change.operation)
    requires FindPool(f.nodePools, change.nodePool) < |f.nodePools| && HasPoolLimits(f, floor)
    ensures var i := FindPool(f.nodePools, change.nodePool);
            && Edited(f, change) == f.(nodePools := f.nodePools[i := EditedPool(f, change)])
            && PoolOk(EditedPool(f, change)) && PoolRefusal(floor.fleet.nodePool[f.tier], EditedPool(f, change)).None?
  {
    var limits := floor.fleet.nodePool[f.tier];
    var i := FindPool(f.nodePools, change.nodePool);
    PoolChangeWasChecked(f, floor, change, item);
    PoolItemsAre(f, floor, limits, f.nodePools);
    assert PoolOk(f.nodePools[i]) && PoolRefusal(limits, f.nodePools[i]).None?;
  }

  lemma PoolItemAgrees(f: FleetManifest, floor: Floor, change: FleetChange, item: DesiredItem)
    requires HasPoolLimits(f, floor) && IsPoolOperation(change.operation) && f.tier.Strength() > 0
    requires ToNodePool(change, Blank(change, f, floor), f, floor.fleet.nodePool[f.tier]) == Ok(item)
    requires FindPool(f.nodePools, change.nodePool) < |f.nodePools|
    ensures Agrees(item, PoolItem(f, floor, floor.fleet.nodePool[f.tier], EditedPool(f, change)))
  {
    var limits := floor.fleet.nodePool[f.tier];
    var was, pool := f.nodePools[FindPool(f.nodePools, change.nodePool)], EditedPool(f, change);
    PoolStateEdits(was.size, pool.size, was.instanceType, pool.instanceType, limits);
  }

  lemma PoolStateEdits(size: int, size': int, instanceType: string, instanceType': string, limits: Limits)
    requires limits.NodePoolLimits?
    ensures PoolState(size, instanceType, limits)["nodePoolSize" := Itoa(size')] == PoolState(size', instanceType, limits)
    ensures PoolState(size, instanceType, limits)["instanceType" := instanceType'] == PoolState(size, instanceType', limits)
  {
  }

  // ---------------------------------------------------------------------------------------
  // Cluster-wide fields
  // ---------------------------------------------------------------------------------------

  lemma FieldStateAgrees(f: FleetManifest, change: FleetChange)
    requires IsFieldOperation(change.operation) && change.to != ""
    ensures ClusterState(f)[FieldFor(change.operation) := change.to] == ClusterState(Edited(f, change))
  {
  }

  /** Pools do not depend on the fields a cluster-wide change edits. */
  lemma {:induction false} SamePools(f: FleetManifest, g: FleetManifest, floor: Floor, limits: Limits,
                                     pools: seq<NodePool>)
    requires limits.NodePoolLimits? && f.cluster == g.cluster && f.tier == g.tier
    ensures PoolItems(f, floor, limits, pools) == PoolItems(g, floor, limits, pools)
  {
    if pools != [] {
      SamePools(f, g, floor, limits, pools[..|pools| - 1]);
    }
  }

  lemma {:induction false} ResolvesWhen(g: FleetManifest, floor: Floor)
    requires ValidFleet(g) && HasPoolLimits(g, floor) && Allows(floor.fleet, g.kubernetesVersion)
    requires PoolItems(g, floor, floor.fleet.nodePool[g.tier], g.nodePools).Ok?
    ensures Resolved(g, floor).Ok? && |Resolved(g, floor).value| >= 2
    ensures Resolved(g, floor).value[0] == ClusterItem(g, floor) && Resolved(g, floor).value[1] == ControlPlaneItem(g, floor)
  {
  }

  lemma {:induction false} ResolvedWasChecked(f: FleetManifest, floor: Floor)
    requires Resolved(f, floor).Ok?
    ensures ValidFleet(f) && HasPoolLimits(f, floor) && Allows(floor.fleet, f.kubernetesVersion)
    ensures PoolItems(f, floor, floor.fleet.nodePool[f.tier], f.nodePools).Ok?
  {
  }

  lemma FieldChangeWasChecked(f: FleetManifest, floor: Floor, change: FleetChange, item: DesiredItem)
    requires AsChange(change, f, floor) == Ok(item) && IsFieldOperation(change.operation)
    ensures IsName(change.to) && ToClusterField(change, Blank(change, f, floor), f) == Ok(item)
  {
  }

  lemma FieldItemAgrees(f: FleetManifest, floor: Floor, change: FleetChange, item: DesiredItem)
    requires IsFieldOperation(change.operation) && ToClusterField(change, Blank(change, f, floor), f) == Ok(item)
    ensures Agrees(item, ClusterItem(Edited(f, change), floor))
  {
    FieldStateAgrees(f, change);
  }

  lemma FieldEditIsValid(f: FleetManifest, change: FleetChange)
    requires ValidFleet(f) && IsFieldOperation(change.operation) && IsName(change.to)
    ensures var edited := Edited(f, change);
            && ValidFleet(edited) && edited.tier == f.tier && edited.cluster == f.cluster
            && edited.nodePools == f.nodePools && edited.kubernetesVersion == f.kubernetesVersion
  {
  }

  lemma FieldChangeAgrees(f: FleetManifest, floor: Floor, change: FleetChange, item: DesiredItem)
    requires Accepted(f, floor, change, item) && IsFieldOperation(change.operation)
    ensures EditAgrees(f, floor, change, item)
  {
    var edited := Edited(f, change);
    ResolvedWasChecked(f, floor);
    FieldChangeWasChecked(f, floor, change, item);
    SamePools(f, edited, floor, floor.fleet.nodePool[f.tier], f.nodePools);
    FieldEditIsValid(f, change);
    ResolvesWhen(edited, floor);
    FieldItemAgrees(f, floor, change, item);
    FirstAgrees(f, floor, change, item, 0);
  }

  lemma FirstAgrees(f: FleetManifest, floor: Floor, change: FleetChange, item: DesiredItem, i: nat)
    requires Resolved(Edited(f, change), floor).Ok? && i < |Resolved(Edited(f, change), floor).value|
    requires Agrees(item, Resolved(Edited(f, change), floor).value[i])
    ensures EditAgrees(f, floor, change, item)
  {
  }

  // ---------------------------------------------------------------------------------------
  // Upgrades
  // ---------------------------------------------------------------------------------------

  lemma {:induction false} DotsInParts(a: string, b: string)
    ensures Dots(a + b) == Dots(a) + Dots(b)
  {
    if a == [] {
      assert a + b == b;
    } else {
      DotsInParts(a[1..], b);
      assert (a + b)[1..] == a[1..] + b;
    }
  }

  lemma {:induction false} DigitsHaveNoDots(s: string)
    requires forall i | 0 <= i < |s| :: IsDigit(s[i])
    ensures Dots(s) == 0
  {
    if s != [] {
      assert IsDigit(s[0]);
      DigitsHaveNoDots(s[1..]);
    }
  }

  lemma {:induction false} DotsAround(a: string, b: string)
    ensures Dots(a + "." + b) == Dots(a) + 1 + Dots(b)
  {
    DotsInParts(a + ".", b);
    DotsInParts(a, ".");
  }

  lemma {:induction false} BareHasOneDot(major: string, minor: string)
    requires AllDigits(major) && AllDigits(minor)
    ensures Dots(major + "." + minor) == 1
  {
    DigitsHaveNoDots(major);
    DigitsHaveNoDots(minor);
    DotsAround(major, minor);
  }

  lemma AroundADot(s: string, i: nat)
    requires i < |s| && s[i] == '.'
    ensures s == s[..i] + "." + s[i + 1..]
  {
  }

  lemma {:induction false} DotsOfRest(rest: string, j: nat)
    requires j == DotAt(rest) && AllDigits(rest[..j]) && (j == |rest| || AllDigits(rest[j + 1..]))
    ensures Dots(rest) == if j == |rest| then 0 else 1
  {
    if j == |rest| {
      assert rest[..j] == rest;
      DigitsHaveNoDots(rest);
    } else {
      AroundADot(rest, j);
      BareHasOneDot(rest[..j], rest[j + 1..]);
    }
  }

  /** A version has one dot or two: a bare minor line, or a pinned patch. */
  lemma {:induction false} OneDotOrTwo(version: string)
    requires IsVersion(version)
    ensures Dots(version) == 1 || Dots(version) == 2
    ensures Dots(version) == 1 <==> MinorLine(version) == version
  {
    var i := DotAt(version);
    var rest := version[i + 1..];
    AroundADot(version, i);
    DotsAround(version[..i], rest);
    DigitsHaveNoDots(version[..i]);
    DotsOfRest(rest, DotAt(rest));
    assert MinorLine(version) == version[..i] + "." + rest[..DotAt(rest)];
    if DotAt(rest) == |rest| {
      assert rest[..DotAt(rest)] == rest;
    } else {
      assert |MinorLine(version)| < |version|;
    }
  }

  lemma {:induction false} PatchShowsInState(version: string)
    ensures VersionState(version) == map["kubernetesVersion" := version] <==> Dots(version) != 2
  {
    if Dots(version) == 2 {
      assert "kubernetesPatch" in VersionState(version);
      assert "kubernetesPatch" !in map["kubernetesVersion" := version];
    }
  }

  /** What an accepted upgrade was checked for. */
  lemma UpgradeWasChecked(f: FleetManifest, floor: Floor, change: FleetChange, item: DesiredItem)
    requires AsChange(change, f, floor) == Ok(item) && change.operation == UpgradeKubernetes
    ensures ValidFleet(f) && IsVersion(change.to) && Allows(floor.fleet, change.to)
    ensures MinorRank(change.to) >= MinorRank(f.kubernetesVersion)
    ensures ToControlPlane(change, Blank(change, f, floor), f, floor) == Ok(item)
  {
  }

  lemma UpgradeItemShape(f: FleetManifest, floor: Floor, change: FleetChange, item: DesiredItem)
    requires change.operation == UpgradeKubernetes
    requires ToControlPlane(change, Blank(change, f, floor), f, floor) == Ok(item)
    ensures item == ControlPlaneItem(Edited(f, change), floor).(state := map["kubernetesVersion" := change.to])
  {
  }

  lemma AgreesButForState(declared: DesiredItem, state: map<string, string>)
    ensures Agrees(declared.(state := state), declared) <==> state == declared.state
  {
  }

  lemma UpgradeItemAgrees(f: FleetManifest, floor: Floor, change: FleetChange, item: DesiredItem)
    requires IsVersion(change.to) && change.operation == UpgradeKubernetes
    requires ToControlPlane(change, Blank(change, f, floor), f, floor) == Ok(item)
    ensures Agrees(item, ControlPlaneItem(Edited(f, change), floor)) <==> MinorLine(change.to) == change.to
  {
    var declared := ControlPlaneItem(Edited(f, change), floor);
    UpgradeItemShape(f, floor, change, item);
    AgreesButForState(declared, map["kubernetesVersion" := change.to]);
    OneDotOrTwo(change.to);
    PatchShowsInState(change.to);
    assert declared.state == VersionState(change.to);
  }

  /** An upgrade agrees with the edited declaration exactly when it asks for a bare minor line:
      with a pinned patch the declaration also holds the provider to that patch. */
  lemma UpgradeAgreesIffBareMinor(f: FleetManifest, floor: Floor, change: FleetChange, item: DesiredItem)
    requires Accepted(f, floor, change, item) && change.operation == UpgradeKubernetes
    ensures Resolved(Edited(f, change), floor).Ok?
    ensures Agrees(item, ControlPlaneItem(Edited(f, change), floor)) <==> MinorLine(change.to) == change.to
    ensures MinorLine(change.to) == change.to ==> EditAgrees(f, floor, change, item)
  {
    var edited := Edited(f, change);
    ResolvedWasChecked(f, floor);
    UpgradeWasChecked(f, floor, change, item);
    SamePools(f, edited, floor, floor.fleet.nodePool[f.tier], f.nodePools);
    UpgradeItemAgrees(f, floor, change, item);
    UpgradeEditIsValid(f, change);
    ResolvesWhen(edited, floor);
    if MinorLine(change.to) == change.to {
      FirstAgrees(f, floor, change, item, 1);
    }
  }

  lemma UpgradeEditIsValid(f: FleetManifest, change: FleetChange)
    requires ValidFleet(f) && IsVersion(change.to) && change.operation == UpgradeKubernetes
    ensures ValidFleet(Edited(f, change)) && Edited(f, change) == f.(kubernetesVersion := change.to)
  {
  }

  /** An accepted upgrade to a minor below a thousand never goes to an earlier minor line. */
  lemma NoDowngradeIsAccepted(f: FleetManifest, floor: Floor, change: FleetChange, item: DesiredItem)
    requires AsChange(change, f, floor) == Ok(item) && change.operation == UpgradeKubernetes
    ensures IsVersion(change.to) && IsVersion(f.kubernetesVersion)
    ensures Fits(change.to) && Fits(f.kubernetesVersion) && Minor(change.to) < 1000 ==>
              NotBefore(change.to, f.kubernetesVersion)
  {
    UpgradeWasChecked(f, floor, change, item);
    if Fits(change.to) && Fits(f.kubernetesVersion) && Minor(change.to) < 1000 {
      StepsBackShowIffMinorBelowAThousand(change.to);
    }
  }

  /** An upgrade to a version the floor supports is refused only for what runs already. */
  lemma UpgradeAcceptedIff(f: FleetManifest, floor: Floor, change: FleetChange)
    requires ValidFleet(f) && HasPoolLimits(f, floor) && change.cluster == f.cluster
    requires change.operation == UpgradeKubernetes && IsVersion(change.to) && Allows(floor.fleet, change.to)
    ensures AsChange(change, f, floor).Ok? <==> MinorRank(change.to) >= MinorRank(f.kubernetesVersion)
  {
    assert ToControlPlane(change, Blank(change, f, floor), f, floor).Ok?
           <==> MinorRank(change.to) >= MinorRank(f.kubernetesVersion);
  }

  /** Whatever version that fits the cluster runs, the upgrade is accepted only if it is none back. */
  ghost predicate NeverTakesBack(f: FleetManifest, floor: Floor, change: FleetChange)
    requires IsVersion(change.to)
  {
    forall from | IsVersion(from) && Fits(from) && AsChange(change, f.(kubernetesVersion := from), floor).Ok? ::
      NotBefore(change.to, from)
  }

  /** An upgrade can take no cluster back exactly when it asks for a minor below a thousand. */
  lemma UpgradeNeverTakesBackIff(f: FleetManifest, floor: Floor, change: FleetChange)
    requires ValidFleet(f) && HasPoolLimits(f, floor) && change.cluster == f.cluster
    requires change.operation == UpgradeKubernetes && IsVersion(change.to) && Allows(floor.fleet, change.to)
    requires Fits(change.to)
    ensures NeverTakesBack(f, floor, change) <==> Minor(change.to) < 1000
  {
    StepsBackShowIffMinorBelowAThousand(change.to);
    forall from | IsVersion(from)
      ensures AsChange(change, f.(kubernetesVersion := from), floor).Ok? <==> MinorRank(change.to) >= MinorRank(from)
    {
      UpgradeAcceptedIff(f.(kubernetesVersion := from), floor, change);
    }
  }

  /** Whatever the cluster runs: an upgrade to a version that fits is accepted exactly when a part
      of what runs is too long for an integer, or what 64 bits keep of its rank is no more. */
  lemma AnyUpgradeAcceptedIff(f: FleetManifest, floor: Floor, change: FleetChange)
    requires ValidFleet(f) && HasPoolLimits(f, floor) && change.cluster == f.cluster
    requires change.operation == UpgradeKubernetes && IsVersion(change.to) && Allows(floor.fleet, change.to)
    requires Fits(change.to)
    ensures AsChange(change, f, floor).Ok? <==>
            TooLong(f.kubernetesVersion) || Wrapped(Sum(f.kubernetesVersion)) <= Sum(change.to)
  {
    UpgradeAcceptedIff(f, floor, change);
    PassesForNoLaterIff(change.to, f.kubernetesVersion);
  }

  /** So from what overflows once, or is too long, a cluster can be taken anywhere. */
  lemma AnyUpgradeFromOverflowIsAccepted(f: FleetManifest, floor: Floor, change: FleetChange)
    requires ValidFleet(f) && HasPoolLimits(f, floor) && change.cluster == f.cluster
    requires change.operation == UpgradeKubernetes && IsVersion(change.to) && Allows(floor.fleet, change.to)
    requires Fits(change.to)
    requires TooLong(f.kubernetesVersion) || MAX_INT < Sum(f.kubernetesVersion) < WIDTH
    ensures AsChange(change, f, floor).Ok?
  {
    UpgradeAcceptedIff(f, floor, change);
    OverflowRanksBelowAll(f.kubernetesVersion, change.to);
  }

  /** And no target is safe whatever the cluster runs: from some version it is a step back, accepted. */
  lemma SomeClusterIsTakenBack(f: FleetManifest, floor: Floor, change: FleetChange) returns (from: string)
    requires ValidFleet(f) && HasPoolLimits(f, floor) && change.cluster == f.cluster
    requires change.operation == UpgradeKubernetes && IsVersion(change.to) && Allows(floor.fleet, change.to)
    requires Fits(change.to)
    ensures IsVersion(from) && !NotBefore(change.to, from)
    ensures AsChange(change, f.(kubernetesVersion := from), floor).Ok?
  {
    from := AStepBackFromTooLongNeverShows(change.to);
    UpgradeAcceptedIff(f.(kubernetesVersion := from), floor, change);
  }

  /** And past a thousand minors one is: from 2.0 to 1.1000, where both are supported. */
  lemma ADowngradeCanBeAccepted(f: FleetManifest, floor: Floor, change: FleetChange)
    requires ValidFleet(f) && HasPoolLimits(f, floor) && f.kubernetesVersion == "2" + "." + "0"
    requires change.cluster == f.cluster && change.operation == UpgradeKubernetes && change.to == "1" + "." + "1000"
    requires Allows(floor.fleet, change.to)
    ensures AsChange(change, f, floor).Ok? && IsVersion(change.to) && !NotBefore(change.to, f.kubernetesVersion)
  {
    OnePointAThousand();
    assert ToControlPlane(change, Blank(change, f, floor), f, floor).Ok?;
  }

  /** The tier a change costs: production's when it cannot be walked back, whatever the cluster;
      the cluster's own when it disrupts; and for a scale one step less, never below the least. */
  ghost predicate CostsItsConsequence(f: FleetManifest, floor: Floor, change: FleetChange, item: DesiredItem) {
    && item.gate == floor.GateFor(item.tier)
    && (change.operation == UpgradeKubernetes || change.operation == RemoveCluster || IsFieldOperation(change.operation)
        ==> item.tier == Prod)
    && (change.operation == ChangeNodeInstanceType || change.operation == RegisterCluster ==> item.tier == f.tier)
    && (change.operation == ScaleNodePool ==>
          item.tier.Strength() == if f.tier.Strength() > 1 then f.tier.Strength() - 1 else 1)
  }

  lemma ConsequenceDecidesTheTier(f: FleetManifest, floor: Floor, change: FleetChange, item: DesiredItem)
    requires AsChange(change, f, floor) == Ok(item)
    ensures CostsItsConsequence(f, floor, change, item)
  {
    var blank := Blank(change, f, floor);
    assert item.tier == blank.tier && item.gate == blank.gate;
  }

  // ---------------------------------------------------------------------------------------
  // Every change
  // ---------------------------------------------------------------------------------------

  /** A change whose item says as much as the declaration does: every one but a cluster's
      registration and removal, and an upgrade to a pinned patch. */
  predicate SaysItAll(change: FleetChange) {
    || IsPoolOperation(change.operation) || IsFieldOperation(change.operation)
    || (change.operation == UpgradeKubernetes && MinorLine(change.to) == change.to)
  }

  /** What the door rules on is what the edited declaration would resolve to. */
  lemma ChangeAgreesWithDeclaration(f: FleetManifest, floor: Floor, change: FleetChange, item: DesiredItem)
    requires Accepted(f, floor, change, item) && SaysItAll(change)
    ensures EditAgrees(f, floor, change, item)
  {
    if IsPoolOperation(change.operation) {
      PoolChangeAgrees(f, floor, change, item);
    } else if IsFieldOperation(change.operation) {
      FieldChangeAgrees(f, floor, change, item);
    } else {
      UpgradeAgreesIffBareMinor(f, floor, change, item);
    }
  }

  ghost predicate NoDriftFrom(o: Ownership, f: FleetManifest, floor: Floor, item: DesiredItem) {
    && Resolved(f, floor).Ok?
    && exists i :: 0 <= i < |Resolved(f, floor).value| && Matches(o, Resolved(f, floor).value[i], item)
  }

  ghost predicate Matches(o: Ownership, declared: DesiredItem, item: DesiredItem) {
    declared.Key() == item.Key() && Differs(o, declared, ReadBack(item)) == []
  }

  /** So once applied it is no drift from the edited declaration, under any ownership. */
  lemma AppliedChangeIsNoDrift(o: Ownership, f: FleetManifest, floor: Floor, change: FleetChange, item: DesiredItem)
    requires Accepted(f, floor, change, item) && SaysItAll(change)
    ensures NoDriftFrom(o, Edited(f, change), floor, item)
  {
    ChangeAgreesWithDeclaration(f, floor, change, item);
    var items := Resolved(Edited(f, change), floor).value;
    var i :| 0 <= i < |items| && Agrees(item, items[i]);
    FleetItemsRunNothing(Edited(f, change), floor, i);
    AgreementIsNoDrift(o, items[i], item);
  }

  lemma AgreementIsNoDrift(o: Ownership, declared: DesiredItem, item: DesiredItem)
    requires Agrees(item, declared) && RunsNothing(declared)
    ensures Matches(o, declared, item)
  {
    var readings := Readings(declared, ReadBack(item));
    forall i | 0 <= i < |readings|
      ensures readings[i].approved == readings[i].observed || readings[i].approved == Text("")
    {
      var state := StateReadings(declared, ReadBack(item), InOrder(declared.state.Keys));
      if 3 <= i < 3 + |state| {
        assert readings[i] == state[i - 3];
      }
    }
    NothingToHoldTo(o, readings);
  }

  lemma {:induction false} NothingToHoldTo(o: Ownership, readings: seq<Reading>)
    requires forall i | 0 <= i < |readings| ::
               readings[i].approved == readings[i].observed || readings[i].approved == Text("")
    ensures Differences(o, readings) == []
  {
    if readings != [] {
      NothingToHoldTo(o, readings[..|readings| - 1]);
    }
  }

  predicate RunsNothing(item: DesiredItem) {
    item.digest == "" && item.image == "" && item.runtime == ""
  }

  lemma {:induction false} PoolItemsRunNothing(f: FleetManifest, floor: Floor, limits: Limits, pools: seq<NodePool>)
    requires limits.NodePoolLimits? && PoolItems(f, floor, limits, pools).Ok?
    ensures forall i | 0 <= i < |PoolItems(f, floor, limits, pools).value| ::
              RunsNothing(PoolItems(f, floor, limits, pools).value[i])
  {
    if pools != [] {
      PoolItemsRunNothing(f, floor, limits, pools[..|pools| - 1]);
    }
  }

  lemma FleetItemsRunNothing(f: FleetManifest, floor: Floor, i: nat)
    requires Resolved(f, floor).Ok? && i < |Resolved(f, floor).value|
    ensures RunsNothing(Resolved(f, floor).value[i])
  {
    PoolItemsRunNothing(f, floor, floor.fleet.nodePool[f.tier], f.nodePools);
  }

  // ---------------------------------------------------------------------------------------
  // One change, filled in field by field
  // ---------------------------------------------------------------------------------------

  method FillNodePool(change: FleetChange, blank: DesiredItem, f: FleetManifest, limits: Limits)
    returns (r: Result<DesiredItem>)
    requires limits.NodePoolLimits?
    ensures r == ToNodePool(change, blank, f, limits)
  {
    var i := FindPool(f.nodePools, change.nodePool);
    if i == |f.nodePools| {
      return Err(NoSuchPool);
    }
    var pool, item := f.nodePools[i], blank;
    item := item.(kind := "node-pool", name := f.cluster + "/" + pool.name);
    item := item.(slot := Slot(f.cluster, "", pool.name));
    item := item.(limits := limits);
    item := item.(state := PoolState(pool.size, pool.instanceType, limits));
    if change.operation == ScaleNodePool {
      var size := Atoi(change.to);
      if size.NotAnInteger? {
        return Err(NotANumber);
      }
      if size.n > limits.maxNodes || size.n < limits.minNodes {
        return Err(OutsideFloor);
      }
      item := item.(state := item.state["nodePoolSize" := Itoa(size.n)]);
      return Ok(item);
    }
    if !AllowsInstanceType(limits, change.to) {
      return Err(InstanceTypeNotAllowed);
    }
    item := item.(state := item.state["instanceType" := change.to]);
    r := Ok(item);
  }

  method FillClusterField(change: FleetChange, blank: DesiredItem, f: FleetManifest) returns (r: Result<DesiredItem>)
    ensures r == ToClusterField(change, blank, f)
  {
    if !IsName(change.to) {
      return Err(NotAName);
    }
    var item := blank.(kind := "cluster", name := f.cluster);
    item := item.(slot := Slot(f.cluster, "", "cluster"));
    item := item.(state := map["storageClass" := f.storageClass, "networkPlugin" := f.networkPlugin]);
    if f.ingressController != "" {
      item := item.(state := item.state["ingressController" := f.ingressController]);
    }
    item := item.(state := item.state[FieldFor(change.operation) := change.to]);
    r := Ok(item);
  }

  /** The requested change as the door is asked about it: what the edited declaration would
      resolve to, at the tier its consequence costs. */
  method ResolveChange(change: FleetChange, f: FleetManifest, floor: Floor) returns (r: Result<DesiredItem>)
    ensures r == AsChange(change, f, floor)
    ensures r.Ok? && Resolved(f, floor).Ok? && WellFormedPools(floor) && SaysItAll(change) ==>
              EditAgrees(f, floor, change, r.value)
    ensures r.Ok? ==> CostsItsConsequence(f, floor, change, r.value)
  {
    if !ValidFleet(f) {
      return Err(Invalid);
    }
    if change.cluster != f.cluster {
      return Err(WrongCluster);
    }
    if ConsequenceOf(change.operation).None? {
      return Err(NotClassified);
    }
    if !HasPoolLimits(f, floor) {
      return Err(NoPoolLimits);
    }
    var item := Blank(change, f, floor);
    if IsPoolOperation(change.operation) {
      r := FillNodePool(change, item, f, floor.fleet.nodePool[f.tier]);
    } else if change.operation == UpgradeKubernetes {
      r := ToControlPlane(change, item, f, floor);
    } else if IsFieldOperation(change.operation) {
      r := FillClusterField(change, item, f);
    } else {
      r := Ok(ToLifecycle(change, item, f));
    }
    if r.Ok? {
      ConsequenceDecidesTheTier(f, floor, change, r.value);
      if Resolved(f, floor).Ok? && WellFormedPools(floor) && SaysItAll(change) {
        ChangeAgreesWithDeclaration(f, floor, change, r.value);
      }
    }
  }
}
