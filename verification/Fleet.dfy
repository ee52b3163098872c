/**
 A cluster's declaration and single changes to it (mantlekeep-estate/fleet.go: validate,
 TierForFleetOperation, ResolveFleet, FleetChange.AsChange and its appliers).
 */
module Fleet {
  import opened Estate
  import opened Floor
  import opened Options
  import opened Versions

  datatype NodePool = NodePool(name: string, size: int, instanceType: string)

  datatype FleetManifest = FleetManifest(
    cluster: string, team: string, tier: Tier, kubernetesVersion: string, storageClass: string,
    networkPlugin: string, ingressController: string, nodePools: seq<NodePool>)

  datatype Operation =
    | RegisterCluster | RemoveCluster | ScaleNodePool | ChangeNodeInstanceType | ChangeStorageClass
    | SwapNetworkPlugin | SwapIngressController | UpgradeKubernetes | Unclassified(text: string)

  datatype Consequence = Reversible | Disruptive | Irreversible

  datatype FleetChange = FleetChange(cluster: string, operation: Operation, nodePool: string, to: string)

  datatype Error =
    | Invalid | NoPoolLimits | UnsupportedVersion | TooManyNodes | TooFewNodes | InstanceTypeNotAllowed
    | WrongCluster | NotClassified | NoSuchPool | NotANumber | OutsideFloor | NotPinned | Downgrade | NotAName

  datatype Result<T> = Ok(value: T) | Err(error: Error)

  // ---------------------------------------------------------------------------------------
  // Declarations
  // ---------------------------------------------------------------------------------------

  predicate IsLower(c: char) {
    'a' <= c <= 'z'
  }

  /** A lower-case letter, then 1 to 30 letters, digits or dashes. */
  predicate IsName(s: string) {
    2 <= |s| <= 31 && IsLower(s[0]) && forall i | 1 <= i < |s| :: IsLower(s[i]) || IsDigit(s[i]) || s[i] == '-'
  }

  predicate PoolOk(pool: NodePool) {
    IsName(pool.name) && pool.size >= 0 && IsName(pool.instanceType)
  }

  predicate ValidFleet(f: FleetManifest) {
    && IsName(f.cluster) && IsName(f.team) && f.tier.Strength() > 0 && IsVersion(f.kubernetesVersion)
    && IsName(f.storageClass) && IsName(f.networkPlugin)
    && (f.ingressController == "" || IsName(f.ingressController))
    && (forall i | 0 <= i < |f.nodePools| :: PoolOk(f.nodePools[i]))
    && (forall i, j | 0 <= i < j < |f.nodePools| :: f.nodePools[i].name != f.nodePools[j].name)
  }

  // ---------------------------------------------------------------------------------------
  // Consequences
  // ---------------------------------------------------------------------------------------

  function ConsequenceOf(operation: Operation): Option<Consequence> {
    match operation
    case ScaleNodePool => Some(Reversible)
    case ChangeNodeInstanceType => Some(Disruptive)
    case RegisterCluster => Some(Disruptive)
    case Unclassified(_) => None
    case _ => Some(Irreversible)
  }

  function OneStepLighter(tier: Tier): Tier {
    if tier == Prod then Shared else Dev
  }

  /** An operation nobody classified gets the strictest answer. */
  function TierForOperation(operation: Operation, cluster: Tier): Tier {
    match ConsequenceOf(operation)
    case None => Prod
    case Some(Irreversible) => Prod
    case Some(Disruptive) => cluster
    case Some(Reversible) => OneStepLighter(cluster)
  }

  predicate Allows(floor: FleetFloor, version: string) {
    exists i | 0 <= i < |floor.kubernetesVersions| :: MinorLine(floor.kubernetesVersions[i]) == MinorLine(version)
  }

  predicate AllowsInstanceType(limits: Limits, instanceType: string)
    requires limits.NodePoolLimits?
  {
    instanceType in limits.allowedInstanceTypes
  }

  // ---------------------------------------------------------------------------------------
  // The whole declaration
  // ---------------------------------------------------------------------------------------

  function Item(kind: string, name: string, cluster: string, slotName: string, tier: Tier, floor: Floor,
                limits: Limits, state: map<string, string>): DesiredItem
  {
    DesiredItem("fleet", kind, name, "", tier, floor.GateFor(tier), cluster, Slot(cluster, "", slotName), limits, [],
                "", "", "", None, state, map[])
  }

  function ClusterState(f: FleetManifest): map<string, string> {
    var state := map["storageClass" := f.storageClass, "networkPlugin" := f.networkPlugin];
    if f.ingressController != "" then state["ingressController" := f.ingressController] else state
  }

  function ClusterItem(f: FleetManifest, floor: Floor): DesiredItem {
    Item("cluster", f.cluster, f.cluster, "cluster", TierForOperation(ChangeStorageClass, f.tier), floor, NoLimits,
         ClusterState(f))
  }

  /** A patch is recorded only when one was pinned. */
  function VersionState(version: string): map<string, string> {
    if Dots(version) == 2 then map["kubernetesVersion" := version, "kubernetesPatch" := version]
    else map["kubernetesVersion" := version]
  }

  function ControlPlaneItem(f: FleetManifest, floor: Floor): DesiredItem {
    Item("control-plane", f.cluster + "/control-plane", f.cluster, "control-plane",
         TierForOperation(UpgradeKubernetes, f.tier), floor, ControlPlaneLimits(floor.fleet.kubernetesVersions),
         VersionState(f.kubernetesVersion))
  }

  function PoolState(size: int, instanceType: string, limits: Limits): map<string, string>
    requires limits.NodePoolLimits?
  {
    map["nodePoolSize" := Itoa(size), "instanceType" := instanceType, "nodePoolMaxNodes" := Itoa(limits.maxNodes)]
  }

  function PoolItem(f: FleetManifest, floor: Floor, limits: Limits, pool: NodePool): DesiredItem
    requires limits.NodePoolLimits?
  {
    Item("node-pool", f.cluster + "/" + pool.name, f.cluster, pool.name,
         TierForOperation(ChangeNodeInstanceType, f.tier), floor, limits, PoolState(pool.size, pool.instanceType, limits))
  }

  function PoolRefusal(limits: Limits, pool: NodePool): Option<Error>
    requires limits.NodePoolLimits?
  {
    if pool.size > limits.maxNodes then Some(TooManyNodes)
    else if pool.size < limits.minNodes then Some(TooFewNodes)
    else if !AllowsInstanceType(limits, pool.instanceType) then Some(InstanceTypeNotAllowed)
    else None
  }

  function PoolItems(f: FleetManifest, floor: Floor, limits: Limits, pools: seq<NodePool>): Result<seq<DesiredItem>>
    requires limits.NodePoolLimits?
  {
    if pools == [] then Ok([])
    else
      var n := |pools| - 1;
      match PoolItems(f, floor, limits, pools[..n])
      case Err(e) => Err(e)
      case Ok(items) =>
        match PoolRefusal(limits, pools[n])
        case Some(e) => Err(e)
        case None => Ok(items + [PoolItem(f, floor, limits, pools[n])])
  }

  predicate HasPoolLimits(f: FleetManifest, floor: Floor) {
    f.tier in floor.fleet.nodePool && floor.fleet.nodePool[f.tier].NodePoolLimits?
  }

  function Resolved(f: FleetManifest, floor: Floor): Result<seq<DesiredItem>> {
    if !ValidFleet(f) then Err(Invalid)
    else if !HasPoolLimits(f, floor) then Err(NoPoolLimits)
    else if !Allows(floor.fleet, f.kubernetesVersion) then Err(UnsupportedVersion)
    else
      match PoolItems(f, floor, floor.fleet.nodePool[f.tier], f.nodePools)
      case Err(e) => Err(e)
      case Ok(pools) => Ok([ClusterItem(f, floor), ControlPlaneItem(f, floor)] + pools)
  }

  method ResolveFleet(f: FleetManifest, floor: Floor) returns (r: Result<seq<DesiredItem>>)
    ensures r == Resolved(f, floor)
  {
    if !ValidFleet(f) {
      return Err(Invalid);
    }
    if !HasPoolLimits(f, floor) {
      return Err(NoPoolLimits);
    }
    if !Allows(floor.fleet, f.kubernetesVersion) {
      return Err(UnsupportedVersion);
    }
    var limits := floor.fleet.nodePool[f.tier];
    var state := map["storageClass" := f.storageClass, "networkPlugin" := f.networkPlugin];
    if f.ingressController != "" {
      state := state["ingressController" := f.ingressController];
    }
    var changes := [Item("cluster", f.cluster, f.cluster, "cluster", TierForOperation(ChangeStorageClass, f.tier), floor,
                         NoLimits, state)];
    var versions := map["kubernetesVersion" := f.kubernetesVersion];
    if Dots(f.kubernetesVersion) == 2 {
      versions := versions["kubernetesPatch" := f.kubernetesVersion];
    }
    assert versions == VersionState(f.kubernetesVersion);
    changes := changes + [Item("control-plane", f.cluster + "/control-plane", f.cluster, "control-plane",
                               TierForOperation(UpgradeKubernetes, f.tier), floor,
                               ControlPlaneLimits(floor.fleet.kubernetesVersions), versions)];
    assert changes == [ClusterItem(f, floor), ControlPlaneItem(f, floor)];
    var pools := ResolvePools(f, floor, limits);
    if pools.Err? {
      return Err(pools.error);
    }
    r := Ok(changes + pools.value);
  }

  method ResolvePools(f: FleetManifest, floor: Floor, limits: Limits) returns (r: Result<seq<DesiredItem>>)
    requires limits.NodePoolLimits?
    ensures r == PoolItems(f, floor, limits, f.nodePools)
  {
    var items := [];
    for i := 0 to |f.nodePools|
      invariant PoolItems(f, floor, limits, f.nodePools[..i]) == Ok(items)
    {
      var pool := f.nodePools[i];
      assert f.nodePools[..i + 1][..i] == f.nodePools[..i];
      var refusal := PoolRefusal(limits, pool);
      if refusal.Some? {
        FirstRefusal(f, floor, limits, f.nodePools, i + 1);
        return Err(refusal.value);
      }
      items := items + [PoolItem(f, floor, limits, pool)];
    }
    assert f.nodePools[..|f.nodePools|] == f.nodePools;
    r := Ok(items);
  }

  lemma {:induction false} FirstRefusal(f: FleetManifest, floor: Floor, limits: Limits, pools: seq<NodePool>, k: nat)
    requires limits.NodePoolLimits? && k <= |pools| && PoolItems(f, floor, limits, pools[..k]).Err?
    ensures PoolItems(f, floor, limits, pools) == PoolItems(f, floor, limits, pools[..k])
  {
    if k == |pools| {
      assert pools[..k] == pools;
    } else {
      assert pools[..|pools| - 1][..k] == pools[..k];
      FirstRefusal(f, floor, limits, pools[..|pools| - 1], k);
    }
  }

  // ---------------------------------------------------------------------------------------
  // One change
  // ---------------------------------------------------------------------------------------

  function FindPool(pools: seq<NodePool>, name: string): (i: nat)
    ensures i <= |pools|
    ensures i < |pools| ==> pools[i].name == name
    ensures forall j | 0 <= j < i :: pools[j].name != name
  {
    if pools == [] || pools[0].name == name then 0 else 1 + FindPool(pools[1..], name)
  }

  function FieldFor(operation: Operation): string {
    match operation
    case SwapNetworkPlugin => "networkPlugin"
    case SwapIngressController => "ingressController"
    case _ => "storageClass"
  }

  predicate IsPoolOperation(operation: Operation) {
    operation == ScaleNodePool || operation == ChangeNodeInstanceType
  }

  predicate IsFieldOperation(operation: Operation) {
    operation == ChangeStorageClass || operation == SwapNetworkPlugin || operation == SwapIngressController
  }

  function ToNodePool(change: FleetChange, item: DesiredItem, f: FleetManifest, limits: Limits): Result<DesiredItem>
    requires limits.NodePoolLimits?
  {
    var i := FindPool(f.nodePools, change.nodePool);
    if i == |f.nodePools| then Err(NoSuchPool)
    else
      var pool := f.nodePools[i];
      var resolved := item.(kind := "node-pool", name := f.cluster + "/" + pool.name, slot := Slot(f.cluster, "", pool.name),
                            limits := limits, state := PoolState(pool.size, pool.instanceType, limits));
      if change.operation == ScaleNodePool then
        match Atoi(change.to)
        case NotAnInteger => Err(NotANumber)
        case Integer(size) =>
          if size > limits.maxNodes || size < limits.minNodes then Err(OutsideFloor)
          else Ok(resolved.(state := resolved.state["nodePoolSize" := Itoa(size)]))
      else if !AllowsInstanceType(limits, change.to) then Err(InstanceTypeNotAllowed)
      else Ok(resolved.(state := resolved.state["instanceType" := change.to]))
  }

  function ToControlPlane(change: FleetChange, item: DesiredItem, f: FleetManifest, floor: Floor): Result<DesiredItem> {
    if !IsVersion(change.to) then Err(NotPinned)
    else if !Allows(floor.fleet, change.to) then Err(UnsupportedVersion)
    else if MinorRank(change.to) < MinorRank(f.kubernetesVersion) then Err(Downgrade)
    else
      Ok(item.(kind := "control-plane", name := f.cluster + "/control-plane", slot := Slot(f.cluster, "", "control-plane"),
               limits := ControlPlaneLimits(floor.fleet.kubernetesVersions), state := map["kubernetesVersion" := change.to]))
  }

  function ToClusterField(change: FleetChange, item: DesiredItem, f: FleetManifest): Result<DesiredItem> {
    if !IsName(change.to) then Err(NotAName)
    else
      Ok(item.(kind := "cluster", name := f.cluster, slot := Slot(f.cluster, "", "cluster"),
               state := ClusterState(f)[FieldFor(change.operation) := change.to]))
  }

  function ToLifecycle(change: FleetChange, item: DesiredItem, f: FleetManifest): DesiredItem {
    item.(kind := "cluster", name := f.cluster, slot := Slot(f.cluster, "", "cluster"),
          state := map["clusterLifecycle" := if change.operation == RemoveCluster then "removed" else "registered"])
  }

  /** The tier and gate are settled before the kind of change is looked at. */
  function Blank(change: FleetChange, f: FleetManifest, floor: Floor): DesiredItem {
    var tier := TierForOperation(change.operation, f.tier);
    DesiredItem("fleet", "", "", "", tier, floor.GateFor(tier), f.cluster, Slot("", "", ""), NoLimits, [], "", "", "",
                None, map[], map[])
  }

  function AsChange(change: FleetChange, f: FleetManifest, floor: Floor): Result<DesiredItem> {
    if !ValidFleet(f) then Err(Invalid)
    else if change.cluster != f.cluster then Err(WrongCluster)
    else if ConsequenceOf(change.operation).None? then Err(NotClassified)
    else if !HasPoolLimits(f, floor) then Err(NoPoolLimits)
    else
      var item := Blank(change, f, floor);
      if IsPoolOperation(change.operation) then ToNodePool(change, item, f, floor.fleet.nodePool[f.tier])
      else if change.operation == UpgradeKubernetes then ToControlPlane(change, item, f, floor)
      else if IsFieldOperation(change.operation) then ToClusterField(change, item, f)
      else Ok(ToLifecycle(change, item, f))
  }
}
