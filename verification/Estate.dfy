/**
 The estate's vocabulary: tiers, gates, slots, desired and observed items
 (mantlekeep-estate/manifest.go, floor.go, slot.go, resolve.go and reconcile.go).
 */
module Estate {
  import opened Options

  /** A tier is text in the source; the three it knows are named, the rest is `OtherTier`. */
  datatype Tier = Dev | Shared | Prod | OtherTier(text: string) {
    /** Zero means unknown, and loses every comparison. */
    function Strength(): nat {
      match this
      case Dev => 1
      case Shared => 2
      case Prod => 3
      case OtherTier(_) => 0
    }
  }

  datatype Gate = GateNone | OwningTeam | Platform | OtherGate(text: string) {
    function Strength(): nat {
      match this
      case GateNone => 1
      case OwningTeam => 2
      case Platform => 3
      case OtherGate(_) => 0
    }
  }

  datatype Slot = Slot(cluster: string, namespace: string, name: string) {
    predicate Empty() {
      cluster == "" && namespace == "" && name == ""
    }

    function Key(): string {
      cluster + "/" + namespace + "/" + name
    }
  }

  /** One case per limits type; durations are in nanoseconds. */
  datatype Limits =
    | NoLimits
    | AppLimits(replicas: int, cpuLimit: string, memoryMiB: int)
    | KafkaLimits(producerBytesPerSec: int, consumerBytesPerSec: int, retention: int)
    | PostgresLimits(connectionLimit: int, statementTimeout: int, idleInTransactionTimeout: int)
    | HarborLimits(robotExpiry: int)
    | ControlPlaneLimits(allowedKubernetesVersions: seq<string>)
    | NodePoolLimits(minNodes: int, maxNodes: int, allowedInstanceTypes: seq<string>)

  datatype PlacementDecision =
    PlacementDecision(cluster: string, env: string, considered: seq<string>, sticky: bool)

  datatype DesiredItem = DesiredItem(
    asset: string, kind: string, name: string, team: string, tier: Tier, gate: Gate,
    cluster: string, slot: Slot, limits: Limits, readers: seq<string>,
    image: string, runtime: string, digest: string,
    placement: Option<PlacementDecision>, state: map<string, string>, labels: map<string, string>)
  {
    /** The identity two states are compared on: the slot when there is one, else the name. */
    function Key(): string {
      ItemKey(asset, kind, slot, name)
    }
  }

  datatype ObservedItem = ObservedItem(
    asset: string, kind: string, name: string, cluster: string, slot: Slot, limits: Limits,
    readers: seq<string>, image: string, digest: string, runtime: string, state: map<string, string>)
  {
    function Key(): string {
      ItemKey(asset, kind, slot, name)
    }
  }

  function ItemKey(asset: string, kind: string, slot: Slot, name: string): string {
    asset + "/" + kind + "/" + if slot.Empty() then name else slot.Key()
  }

  /** What a team declares about an app's place, instead of a cluster name. */
  datatype Placement = Placement(env: string, purpose: string, residency: string, requirements: map<string, string>)
}
