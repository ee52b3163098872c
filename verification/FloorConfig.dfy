/**
 Reading a floor from configuration (mantlekeep-estate/config/floor.go: toFloor; validate.go;
 config.go: Parse): the document is laid over the built-in defaults, and what it says may only
 raise them.
 */
module FloorConfig {
  import opened Estate
  import opened Floor

  datatype FloorDocument = FloorDocument(
    kafka: map<Tier, Limits>, postgres: map<Tier, Limits>, harbor: map<Tier, Limits>,
    app: map<string, map<Tier, Limits>>, fleet: FleetFloor,
    gates: map<Tier, Gate>, apps: map<string, AppRule>, envTiers: map<string, Tier>)

  datatype ConfigError = BadLimits | BadGates | BadAppRules | BadEnvTiers

  datatype Parsed = Accepted(floor: Floor) | Refused(error: ConfigError)

  function DefaultGates(): map<Tier, Gate> {
    map[Dev := GateNone, Shared := OwningTeam, Prod := Platform]
  }

  function DefaultEnvTiers(): map<string, Tier> {
    map["dev" := Dev, "sit" := Shared, "prod" := Prod]
  }

  const TIERS := [Dev, Shared, Prod]

  /** One map laid over another, entry by entry, in any order. */
  method Overlay<K, V>(base: map<K, V>, over: map<K, V>) returns (merged: map<K, V>)
    ensures merged == base + over
  {
    merged := base;
    var rest := over.Keys;
    while rest != {}
      invariant rest <= over.Keys
      invariant merged == base + (over - rest)
    {
      var key :| key in rest;
      merged := merged[key := over[key]];
      rest := rest - {key};
    }
    assert over - {} == over;
  }

  function ToFloor(doc: FloorDocument): Floor {
    Floor(doc.kafka, doc.postgres, doc.harbor, doc.app, doc.fleet, DefaultEnvTiers() + doc.envTiers,
          DefaultGates() + doc.gates, map[], doc.apps, "")
  }

  method BuildFloor(doc: FloorDocument) returns (floor: Floor)
    ensures floor == ToFloor(doc)
  {
    var gates := Overlay(DefaultGates(), doc.gates);
    var envTiers := Overlay(DefaultEnvTiers(), doc.envTiers);
    floor := Floor(doc.kafka, doc.postgres, doc.harbor, doc.app, doc.fleet, envTiers, gates, map[], doc.apps, "");
  }

  // ---------------------------------------------------------------------------------------
  // Validation
  // ---------------------------------------------------------------------------------------

  /** Every tier is floored, and no limit is one that grants without bound. */
  predicate LimitsAreBounds(floor: Floor) {
    && (forall t | t in TIERS :: KafkaBound(floor, t) && PostgresBound(floor, t) && HarborBound(floor, t))
    && floor.app != map[]
    && (forall runtime, t | runtime in floor.app && t in TIERS :: AppBound(floor.app[runtime], t))
    && floor.fleet.kubernetesVersions != []
    && (forall t | t in TIERS :: PoolBound(floor.fleet, t))
  }

  predicate KafkaBound(floor: Floor, t: Tier) {
    && t in floor.kafka && floor.kafka[t].KafkaLimits?
    && floor.kafka[t].producerBytesPerSec > 0 && floor.kafka[t].consumerBytesPerSec > 0 && floor.kafka[t].retention > 0
  }

  predicate PostgresBound(floor: Floor, t: Tier) {
    && t in floor.postgres && floor.postgres[t].PostgresLimits?
    && floor.postgres[t].connectionLimit > 0 && floor.postgres[t].statementTimeout > 0
    && floor.postgres[t].idleInTransactionTimeout > 0
  }

  predicate HarborBound(floor: Floor, t: Tier) {
    t in floor.harbor && floor.harbor[t].HarborLimits? && floor.harbor[t].robotExpiry > 0
  }

  predicate AppBound(byTier: map<Tier, Limits>, t: Tier) {
    && t in byTier && byTier[t].AppLimits?
    && byTier[t].replicas > 0 && byTier[t].memoryMiB > 0 && byTier[t].cpuLimit != ""
  }

  predicate PoolBound(fleet: FleetFloor, t: Tier) {
    && t in fleet.nodePool && fleet.nodePool[t].NodePoolLimits?
    && fleet.nodePool[t].maxNodes > 0 && 0 <= fleet.nodePool[t].minNodes <= fleet.nodePool[t].maxNodes
    && fleet.nodePool[t].allowedInstanceTypes != []
  }

  predicate GateOnlyRaises(floor: Floor, t: Tier) {
    && t in floor.gates && floor.gates[t].Strength() != 0
    && (t in DefaultGates() ==> floor.gates[t].Strength() >= DefaultGates()[t].Strength())
  }

  predicate GatesOnlyRaise(floor: Floor) {
    forall t | t in TIERS :: GateOnlyRaises(floor, t)
  }

  predicate AppRuleOk(floor: Floor, name: string)
    requires name in floor.apps
  {
    var gate := floor.apps[name].gate;
    || gate == NO_GATE
    || (&& gate.Strength() != 0 && '/' in name
        && forall t | t in TIERS :: gate.Strength() >= floor.GateFor(t).Strength())
  }

  predicate AppRulesOnlyRaise(floor: Floor) {
    forall name | name in floor.apps :: AppRuleOk(floor, name)
  }

  predicate EnvTierOnlyRaises(floor: Floor, env: string)
    requires env in floor.envTiers
  {
    && floor.envTiers[env].Strength() != 0
    && (env in DefaultEnvTiers() ==> floor.envTiers[env].Strength() >= DefaultEnvTiers()[env].Strength())
  }

  predicate EnvTiersOnlyRaise(floor: Floor) {
    forall env | env in floor.envTiers :: EnvTierOnlyRaises(floor, env)
  }

  /** The checks in order; the revision is the content's, computed elsewhere. */
  function Parse(doc: FloorDocument, revision: string): Parsed {
    var floor := ToFloor(doc);
    if !LimitsAreBounds(floor) then Refused(BadLimits)
    else if !GatesOnlyRaise(floor) then Refused(BadGates)
    else if !AppRulesOnlyRaise(floor) then Refused(BadAppRules)
    else if !EnvTiersOnlyRaise(floor) then Refused(BadEnvTiers)
    else Accepted(floor.(revision := revision))
  }

  // ---------------------------------------------------------------------------------------
  // What acceptance means
  // ---------------------------------------------------------------------------------------

  /** A floor some document was accepted as. */
  ghost predicate FromConfig(floor: Floor) {
    exists doc, revision :: Parse(doc, revision) == Accepted(floor)
  }

  lemma AcceptedIsChecked(floor: Floor)
    requires FromConfig(floor)
    ensures GatesOnlyRaise(floor) && EnvTiersOnlyRaise(floor)
    ensures DefaultEnvTiers().Keys <= floor.envTiers.Keys
    ensures forall name | name in floor.apps :: AppRuleOk(floor, name)
  {
    var doc, revision :| Parse(doc, revision) == Accepted(floor);
    var checked := ToFloor(doc);
    assert floor == checked.(revision := revision);
    forall t ensures GateOnlyRaises(checked, t) == GateOnlyRaises(floor, t) {}
    forall env | env in floor.envTiers ensures EnvTierOnlyRaises(floor, env) {
      assert EnvTierOnlyRaises(checked, env);
    }
    forall name | name in floor.apps ensures AppRuleOk(floor, name) {
      assert AppRuleOk(checked, name);
      assert forall t :: checked.GateFor(t) == floor.GateFor(t);
    }
  }

  lemma KnownTiers(t: Tier)
    ensures t.Strength() > 0 <==> t in TIERS
    ensures t in TIERS ==> t in DefaultGates() && DefaultGates()[t] == BuiltInGate(t)
    ensures t in TIERS ==> BuiltInGate(t).Strength() == t.Strength()
  {
  }

  /** A tier's gate costs at least the attention the built-in ladder asks for it. */
  lemma GateNeverBelowBuiltIn(floor: Floor, t: Tier)
    requires FromConfig(floor) && t.Strength() > 0
    ensures t in TIERS && t in floor.gates
    ensures floor.GateFor(t).Strength() >= BuiltInGate(t).Strength() == t.Strength()
  {
    KnownTiers(t);
    AcceptedIsChecked(floor);
    assert GateOnlyRaises(floor, t);
  }

  lemma KnownEnvironments(env: string)
    ensures BuiltInEnvTier(env).Some? <==> env in DefaultEnvTiers()
    ensures env in DefaultEnvTiers() ==> DefaultEnvTiers()[env] == BuiltInEnvTier(env).value
  {
  }

  /** An environment's minimum is a known tier, never below the built-in one, and every
      built-in environment has one. */
  lemma EnvironmentNeverBelowBuiltIn(floor: Floor, env: string)
    requires FromConfig(floor)
    ensures floor.MinTierFor(env).Some? ==> floor.MinTierFor(env).value.Strength() > 0
    ensures BuiltInEnvTier(env).Some? ==>
              floor.MinTierFor(env).Some? && floor.MinTierFor(env).value.Strength() >= BuiltInEnvTier(env).value.Strength()
  {
    KnownEnvironments(env);
    AcceptedIsChecked(floor);
    if env in floor.envTiers {
      assert EnvTierOnlyRaises(floor, env);
    }
  }

  lemma StrongestGateIsPlatform(g: Gate)
    ensures g.Strength() <= 3
    ensures g.Strength() == 3 <==> g == Platform
  {
  }

  lemma AppGateIsTheStronger(floor: Floor, t: Tier, name: string)
    ensures floor.GateForApp(t, name).Strength() >= floor.GateFor(t).Strength()
    ensures name in floor.apps ==> floor.apps[name].gate == NO_GATE || floor.GateForApp(t, name).Strength() >= floor.apps[name].gate.Strength()
  {
  }

  /** Under gates that only raise, a rule naming an app is accepted exactly when it asks for no
      gate, or for the strictest under a name that says whose app it is: it must not be weaker
      than what any tier carries, and prod carries the strictest. */
  lemma AppRuleAcceptedIff(floor: Floor, name: string)
    requires GatesOnlyRaise(floor) && name in floor.apps
    ensures AppRuleOk(floor, name) <==>
            floor.apps[name].gate == NO_GATE || (floor.apps[name].gate == Platform && '/' in name)
  {
    var gate := floor.apps[name].gate;
    StrongestGateIsPlatform(gate);
    KnownTiers(Prod);
    assert Prod in TIERS && GateOnlyRaises(floor, Prod);
    forall t ensures floor.GateFor(t).Strength() <= 3 {
      StrongestGateIsPlatform(floor.GateFor(t));
    }
  }

  /** So a rule in a floor that was accepted is silent on gating or makes it the strictest. */
  lemma AppRulesAskForThePlatform(floor: Floor, name: string, t: Tier)
    requires FromConfig(floor) && name in floor.apps
    ensures floor.apps[name].gate == NO_GATE || floor.apps[name].gate == Platform
    ensures floor.apps[name].gate == Platform ==> floor.GateForApp(t, name) == Platform
  {
    AcceptedIsChecked(floor);
    AppRuleAcceptedIff(floor, name);
    AppGateIsTheStronger(floor, t, name);
    StrongestGateIsPlatform(floor.GateForApp(t, name));
  }

  /** For an app in an environment, whatever tier was declared: the tier it is governed at and
      the gate that tier costs under any name. */
  lemma RaisedEndToEnd(floor: Floor, declared: Tier, env: string, name: string)
    requires FromConfig(floor) && floor.MinTierFor(env).Some?
    ensures var tier := AtLeast(declared, floor.MinTierFor(env).value);
            && tier in TIERS && tier.Strength() >= declared.Strength()
            && tier.Strength() >= floor.MinTierFor(env).value.Strength()
            && floor.GateForApp(tier, name).Strength() >= floor.GateFor(tier).Strength() >= BuiltInGate(tier).Strength()
            && (BuiltInEnvTier(env).Some? ==>
                  floor.GateForApp(tier, name).Strength() >= BuiltInGate(BuiltInEnvTier(env).value).Strength())
  {
    var tier := AtLeast(declared, floor.MinTierFor(env).value);
    EnvironmentNeverBelowBuiltIn(floor, env);
    GateNeverBelowBuiltIn(floor, tier);
    AppGateIsTheStronger(floor, tier, name);
    KnownTiers(tier);
    if BuiltInEnvTier(env).Some? {
      KnownTiers(BuiltInEnvTier(env).value);
    }
  }

  /** Gates under configuration need not rise with the tier: raising dev above shared is
      accepted, which is why the comparison is with the built-in ladder. */
  lemma ConfiguredGatesNeedNotBeMonotone(doc: FloorDocument, revision: string)
    requires LimitsAreBounds(ToFloor(doc)) && EnvTiersOnlyRaise(ToFloor(doc)) && doc.apps == map[]
    requires doc.gates == map[Dev := Platform]
    ensures Parse(doc, revision).Accepted?
    ensures var floor := Parse(doc, revision).floor;
            floor.GateFor(Dev).Strength() > floor.GateFor(Shared).Strength()
  {
    var floor := ToFloor(doc);
    assert floor.gates[Dev] == Platform && floor.gates[Shared] == OwningTeam && floor.gates[Prod] == Platform;
  }
}
