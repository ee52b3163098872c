/**
 Turning declared apps into governed changes (mantlekeep-estate/resolve.go: resolveApps,
 appFloor, placeApp; namespace.go: Render), and what configuration guarantees of them.
 */
module Resolve {
  import opened Estate
  import opened Floor
  import opened FloorConfig
  import opened Options
  import opened PlacementChoice

  datatype App = App(name: string, runtime: string, image: string, placement: Placement, tier: Tier, labels: map<string, string>)

  datatype Manifest = Manifest(team: string, owns: string, tier: Tier, apps: seq<App>, labels: map<string, string>)

  datatype ResolveError =
    | UnknownRuntime | EnvironmentNotRuled | NoLimitsForTier | NoFleetSupplied
    | PlacementFailed(error: PlacementError) | WrongEnvironment | BadNamespace

  datatype Result<T> = Ok(value: T) | Err(error: ResolveError)

  /** What a placer holds when it is asked. */
  datatype Fleet = NoFleet | Fleet(rules: TextRules, clusters: seq<Cluster>, reports: Reports, minFree: real)

  type PlacedAt = map<string, string>

  // ---------------------------------------------------------------------------------------
  // One app
  // ---------------------------------------------------------------------------------------

  function OrTier(declared: Tier, fallback: Tier): Tier {
    if declared != NO_TIER then declared else fallback
  }

  function AppFloor(m: Manifest, floor: Floor, app: App): Result<(Tier, Limits)> {
    if app.runtime !in floor.app then Err(UnknownRuntime)
    else
      match floor.MinTierFor(app.placement.env)
      case None => Err(EnvironmentNotRuled)
      case Some(minimum) =>
        var tier := AtLeast(OrTier(app.tier, m.tier), minimum);
        if tier !in floor.app[app.runtime] then Err(NoLimitsForTier) else Ok((tier, floor.app[app.runtime][tier]))
  }

  function Render(rules: TextRules, pattern: string, owns: string, env: string): Option<string> {
    if pattern == "" then Some(owns) else rules.render(pattern, owns, env)
  }

  function NamespaceOf(clusters: seq<Cluster>, name: string): string {
    match FirstNamed(clusters, name)
    case Some(c) => c.namespace
    case None => ""
  }

  function Qualified(m: Manifest, app: App): string {
    m.team + "/" + app.name
  }

  function Deployment(m: Manifest, app: App): string {
    m.owns + "-" + app.name
  }

  function Current(placed: PlacedAt, app: App): string {
    if app.name in placed then placed[app.name] else ""
  }

  /** From the placement decision to the change. */
  function Settled(m: Manifest, floor: Floor, rules: TextRules, clusters: seq<Cluster>, app: App,
                   tier: Tier, limits: Limits, p: Placed): Result<DesiredItem>
  {
    match p
    case NotPlaced(e) => Err(PlacementFailed(e))
    case Placed(decision) =>
      if decision.env != "" && decision.env != app.placement.env then Err(WrongEnvironment)
      else
        match Render(rules, NamespaceOf(clusters, decision.cluster), m.owns, decision.env)
        case None => Err(BadNamespace)
        case Some(namespace) =>
          Ok(DesiredItem("app", "deployment", Deployment(m, app), m.team, tier, floor.GateForApp(tier, Qualified(m, app)),
                         decision.cluster, Slot(decision.cluster, namespace, Deployment(m, app)), limits, [],
                         app.image, app.runtime, "", Some(decision), map[], m.labels + app.labels))
  }

  ghost predicate AppResolves(m: Manifest, floor: Floor, fleet: Fleet, placed: PlacedAt, app: App,
                              r: Result<DesiredItem>) {
    match AppFloor(m, floor, app)
    case Err(e) => r == Err(e)
    case Ok((tier, limits)) =>
      match fleet
      case NoFleet => r == Err(NoFleetSupplied)
      case Fleet(rules, clusters, reports, minFree) =>
        exists p ::
          && Decides(rules, clusters, reports, minFree, app.placement, Current(placed, app),
                     floor.PreferredClustersFor(Qualified(m, app)), p)
          && r == Settled(m, floor, rules, clusters, app, tier, limits, p)
  }

  ghost predicate Resolves(m: Manifest, floor: Floor, fleet: Fleet, placed: PlacedAt, r: Result<seq<DesiredItem>>) {
    match r
    case Ok(changes) =>
      && |changes| == |m.apps|
      && forall i | 0 <= i < |changes| :: AppResolves(m, floor, fleet, placed, m.apps[i], Ok(changes[i]))
    case Err(e) =>
      exists i | 0 <= i < |m.apps| ::
        && AppResolves(m, floor, fleet, placed, m.apps[i], Err(e))
        && forall j | 0 <= j < i :: AppIsResolved(m, floor, fleet, placed, m.apps[j])
  }

  ghost predicate AppIsResolved(m: Manifest, floor: Floor, fleet: Fleet, placed: PlacedAt, app: App) {
    exists change :: AppResolves(m, floor, fleet, placed, app, Ok(change))
  }

  ghost function FleetOf(placer: Placer?): Fleet
    reads placer
  {
    if placer == null then NoFleet else Fleet(placer.rules, placer.clusters, placer.reports, placer.minFree)
  }

  method ResolveApp(m: Manifest, floor: Floor, placer: Placer?, placed: PlacedAt, app: App)
    returns (r: Result<DesiredItem>)
    ensures AppResolves(m, floor, FleetOf(placer), placed, app, r)
  {
    var bounds := AppFloor(m, floor, app);
    if bounds.Err? {
      return Err(bounds.error);
    }
    if placer == null {
      return Err(NoFleetSupplied);
    }
    var decided := placer.PlaceWith(app.placement, Current(placed, app), floor.PreferredClustersFor(Qualified(m, app)));
    r := Settled(m, floor, placer.rules, placer.clusters, app, bounds.value.0, bounds.value.1, decided);
  }

  /** Every app in order, or the first refusal. */
  method ResolveApps(m: Manifest, floor: Floor, placer: Placer?, placed: PlacedAt) returns (r: Result<seq<DesiredItem>>)
    ensures Resolves(m, floor, FleetOf(placer), placed, r)
  {
    var changes := [];
    for i := 0 to |m.apps|
      invariant |changes| == i
      invariant forall j | 0 <= j < i :: AppResolves(m, floor, FleetOf(placer), placed, m.apps[j], Ok(changes[j]))
    {
      var one := ResolveApp(m, floor, placer, placed, m.apps[i]);
      if one.Err? {
        return Err(one.error);
      }
      changes := changes + [one.value];
    }
    r := Ok(changes);
  }

  // ---------------------------------------------------------------------------------------
  // Configuration may only raise, end to end
  // ---------------------------------------------------------------------------------------

  /** A cluster the app may stand on: registered, reachable, of the declared residency and of
      exactly the declared environment, meeting every label asked for. */
  ghost predicate StandsOn(fleet: Fleet, app: App, cluster: string)
    requires fleet.Fleet?
  {
    exists c ::
      && c in fleet.clusters && c.name == cluster && c.reachable && c.env == app.placement.env
      && app.placement.residency != "" && EqualFold(fleet.rules, c.residency, app.placement.residency)
      && (app.placement.purpose == "" || EqualFold(fleet.rules, c.purpose, app.placement.purpose))
      && forall key | key in app.placement.requirements :: Meets(fleet.rules, app.placement, c, key)
  }

  /** Governed at no less than was declared, than its environment demands under this floor, and
      than the built-in ladders demand of it under any. */
  ghost predicate GovernedEnough(m: Manifest, floor: Floor, app: App, item: DesiredItem) {
    var env := app.placement.env;
    && floor.MinTierFor(env).Some?
    && item.tier in TIERS
    && item.tier.Strength() >= OrTier(app.tier, m.tier).Strength()
    && item.tier.Strength() >= floor.MinTierFor(env).value.Strength()
    && item.gate.Strength() >= BuiltInGate(item.tier).Strength()
    && (BuiltInEnvTier(env).Some? ==>
          && item.tier.Strength() >= BuiltInEnvTier(env).value.Strength()
          && item.gate.Strength() >= BuiltInGate(BuiltInEnvTier(env).value).Strength())
    && app.runtime in floor.app && item.tier in floor.app[app.runtime] && item.limits == floor.app[app.runtime][item.tier]
  }

  lemma EnvironmentIsExact(rules: TextRules, clusters: seq<Cluster>, claim: Placement, decision: PlacementDecision)
    requires Lawful(rules)
    requires exists c :: c in clusters && Legal(rules, claim, c) && c.name == decision.cluster && c.env == decision.env
    requires decision.env == "" || decision.env == claim.env
    ensures decision.env == claim.env
  {
  }

  lemma AppStandsWhereItMay(m: Manifest, floor: Floor, fleet: Fleet, placed: PlacedAt, app: App, item: DesiredItem)
    requires fleet.Fleet? && Lawful(fleet.rules) && AppResolves(m, floor, fleet, placed, app, Ok(item))
    ensures StandsOn(fleet, app, item.cluster) && item.slot.cluster == item.cluster
    ensures item.placement.Some? && item.placement.value.env == app.placement.env
    ensures item.image == app.image && item.runtime == app.runtime && item.team == m.team
  {
    var p := DecisionOf(m, floor, fleet, placed, app, item);
    PlacedWhereLegal(fleet.rules, fleet.clusters, fleet.reports, fleet.minFree, app.placement, Current(placed, app),
                     floor.PreferredClustersFor(Qualified(m, app)), p);
    EnvironmentIsExact(fleet.rules, fleet.clusters, app.placement, p.decision);
  }

  lemma AppIsGovernedEnough(m: Manifest, floor: Floor, fleet: Fleet, placed: PlacedAt, app: App, item: DesiredItem)
    requires FromConfig(floor) && fleet.Fleet? && AppResolves(m, floor, fleet, placed, app, Ok(item))
    ensures GovernedEnough(m, floor, app, item)
  {
    var p := DecisionOf(m, floor, fleet, placed, app, item);
    RaisedEndToEnd(floor, OrTier(app.tier, m.tier), app.placement.env, Qualified(m, app));
    EnvironmentNeverBelowBuiltIn(floor, app.placement.env);
  }

  /** Whatever a document says, an app that resolves under the floor it was accepted as lands
      where its claim allows and is governed as its environment demands. */
  lemma EveryAppIsPlacedAndGoverned(m: Manifest, floor: Floor, fleet: Fleet, placed: PlacedAt,
                                    changes: seq<DesiredItem>, i: nat)
    requires FromConfig(floor) && fleet.Fleet? && Lawful(fleet.rules)
    requires Resolves(m, floor, fleet, placed, Ok(changes)) && i < |changes|
    ensures i < |m.apps| && StandsOn(fleet, m.apps[i], changes[i].cluster)
    ensures GovernedEnough(m, floor, m.apps[i], changes[i])
    ensures changes[i].placement.Some? && changes[i].placement.value.env == m.apps[i].placement.env
    ensures changes[i].image == m.apps[i].image && changes[i].runtime == m.apps[i].runtime && changes[i].team == m.team
  {
    assert AppResolves(m, floor, fleet, placed, m.apps[i], Ok(changes[i]));
    AppStandsWhereItMay(m, floor, fleet, placed, m.apps[i], changes[i]);
    AppIsGovernedEnough(m, floor, fleet, placed, m.apps[i], changes[i]);
  }

  lemma DecisionOf(m: Manifest, floor: Floor, fleet: Fleet, placed: PlacedAt, app: App, item: DesiredItem)
    returns (p: Placed)
    requires fleet.Fleet? && AppResolves(m, floor, fleet, placed, app, Ok(item))
    ensures Decides(fleet.rules, fleet.clusters, fleet.reports, fleet.minFree, app.placement, Current(placed, app),
                    floor.PreferredClustersFor(Qualified(m, app)), p)
    ensures p.Placed? && AppFloor(m, floor, app).Ok?
    ensures var (tier, limits) := AppFloor(m, floor, app).value;
            Settled(m, floor, fleet.rules, fleet.clusters, app, tier, limits, p) == Ok(item)
  {
    var (tier, limits) := AppFloor(m, floor, app).value;
    p :| Decides(fleet.rules, fleet.clusters, fleet.reports, fleet.minFree, app.placement, Current(placed, app),
                 floor.PreferredClustersFor(Qualified(m, app)), p)
         && Ok(item) == Settled(m, floor, fleet.rules, fleet.clusters, app, tier, limits, p);
  }
}
