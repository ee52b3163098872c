/**
 The floor (mantlekeep-estate/floor.go): what a tier costs in human attention and what it may
 consume. Configuration chooses the policy; the two strength ladders are code.
 */
module Floor {
  import opened Estate
  import opened Options

  datatype AppRule = AppRule(gate: Gate, prefer: seq<string>)

  datatype FleetFloor = FleetFloor(nodePool: map<Tier, Limits>, kubernetesVersions: seq<string>)

  datatype Floor = Floor(
    kafka: map<Tier, Limits>, postgres: map<Tier, Limits>, harbor: map<Tier, Limits>,
    app: map<string, map<Tier, Limits>>, fleet: FleetFloor,
    envTiers: map<string, Tier>, gates: map<Tier, Gate>, signatures: map<Gate, int>,
    apps: map<string, AppRule>, revision: string)
  {
    /** The only place a tier becomes a gate. */
    function GateFor(tier: Tier): Gate {
      if tier in gates then gates[tier] else BuiltInGate(tier)
    }

    /** The tier's gate, raised by a rule naming the app and never lowered by it. */
    function GateForApp(tier: Tier, name: string): Gate {
      var fromTier := GateFor(tier);
      if name !in apps || apps[name].gate == NO_GATE then fromTier
      else if apps[name].gate.Strength() <= fromTier.Strength() then fromTier
      else apps[name].gate
    }

    function PreferredClustersFor(name: string): seq<string> {
      if name in apps then apps[name].prefer else []
    }

    /** The least tier an environment may be governed at; None when nothing ruled on it. */
    function MinTierFor(env: string): Option<Tier> {
      if env in envTiers then Some(envTiers[env]) else BuiltInEnvTier(env)
    }

    /** How many distinct people a gate costs: the built-in count, raised by configuration. */
    function SignaturesFor(gate: Gate): int {
      var required := if gate == GateNone then 0 else 1;
      if gate in signatures && signatures[gate] > required then signatures[gate] else required
    }
  }

  const NO_TIER := OtherTier("")
  const NO_GATE := OtherGate("")

  /** A tier outside the built-in table maps to the empty gate. */
  function BuiltInGate(tier: Tier): Gate {
    match tier
    case Dev => GateNone
    case Shared => OwningTeam
    case Prod => Platform
    case OtherTier(_) => NO_GATE
  }

  function BuiltInEnvTier(env: string): Option<Tier> {
    if env == "dev" then Some(Dev)
    else if env == "sit" then Some(Shared)
    else if env == "prod" then Some(Prod)
    else None
  }

  /** Whichever tier costs more attention: the environment can only raise. */
  function AtLeast(declared: Tier, minimum: Tier): Tier {
    if minimum.Strength() > declared.Strength() then minimum else declared
  }
}
