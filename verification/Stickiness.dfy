/**
 Placement across passes (mantlekeep-estate/manager.go: placedFor, shortName): what was applied
 is observed, and an app seen only where it was put is resolved to the same place again. When
 it is seen there, and what happens when it is not.
 */
module Stickiness {
  import opened Convergence
  import opened DriftReport
  import opened Estate
  import opened Floor
  import opened Options
  import opened Paths
  import opened PlacementChoice
  import opened Resolve

  /** Recovers an app's name from its deployment's, given the TEAM. */
  function ShortName(deployment: string, team: string): string {
    var prefix := team + "-";
    if prefix <= deployment then deployment[|prefix|..] else deployment
  }

  predicate Locates(item: ObservedItem) {
    item.asset == "app" && item.slot.cluster != ""
  }

  /** Where each app was seen; of two sightings the later counts. */
  function PlacedFor(items: seq<ObservedItem>, team: string): PlacedAt {
    if items == [] then map[]
    else
      var n := |items| - 1;
      if Locates(items[n]) then PlacedFor(items[..n], team)[ShortName(items[n].name, team) := items[n].slot.cluster]
      else PlacedFor(items[..n], team)
  }

  method AddSightings(placed: PlacedAt, items: seq<ObservedItem>, team: string, ghost done: seq<ObservedItem>)
    returns (after: PlacedAt)
    requires placed == PlacedFor(done, team)
    ensures after == PlacedFor(done + items, team)
  {
    after := placed;
    ghost var all := done;
    for i := 0 to |items|
      invariant all == done + items[..i] && after == PlacedFor(all, team)
    {
      PlacedForOneMore(all, items[i], team);
      all := all + [items[i]];
      if Locates(items[i]) {
        after := after[ShortName(items[i].name, team) := items[i].slot.cluster];
      }
    }
    assert all == done + items;
  }

  /** The observations of every port that could be read, one after another. */
  method ComputePlaced(observations: seq<seq<ObservedItem>>, team: string) returns (placed: PlacedAt)
    ensures placed == PlacedFor(Joined(observations), team)
  {
    placed := map[];
    for p := 0 to |observations|
      invariant placed == PlacedFor(Joined(observations[..p]), team)
    {
      placed := AddSightings(placed, observations[p], team, Joined(observations[..p]));
      assert observations[..p + 1][..p] == observations[..p];
    }
    assert observations[..|observations|] == observations;
  }

  function Joined(observations: seq<seq<ObservedItem>>): seq<ObservedItem> {
    if observations == [] then []
    else Joined(observations[..|observations| - 1]) + observations[|observations| - 1]
  }

  lemma {:induction false} PlacedForOneMore(items: seq<ObservedItem>, item: ObservedItem, team: string)
    ensures PlacedFor(items + [item], team) ==
            if Locates(item) then PlacedFor(items, team)[ShortName(item.name, team) := item.slot.cluster]
            else PlacedFor(items, team)
  {
    assert (items + [item])[..|items|] == items;
  }

  // ---------------------------------------------------------------------------------------
  // Recovering names
  // ---------------------------------------------------------------------------------------

  lemma SamePrefix(owns: string, app: string, team: string)
    requires team + "-" <= owns + "-" + app && |team| == |owns|
    ensures owns == team
  {
    var deployment := owns + "-" + app;
    assert deployment[..|team|] == (team + "-")[..|team|] == team;
    assert deployment[..|owns|] == owns;
  }

  /** The app's name comes back exactly when the manifest owns under its team's own name; for
      any other owner the pass looks the app up under a name it does not have. */
  lemma NameRecoveredIffOwnedByTeam(owns: string, app: string, team: string)
    ensures ShortName(owns + "-" + app, team) == app <==> owns == team
  {
    var deployment := owns + "-" + app;
    var prefix := team + "-";
    if owns == team {
      assert deployment[..|prefix|] == prefix;
      assert deployment[|prefix|..] == app;
    } else if prefix <= deployment && |team| == |owns| {
      SamePrefix(owns, app, team);
    }
  }

  // ---------------------------------------------------------------------------------------
  // What a pass leaves behind
  // ---------------------------------------------------------------------------------------

  function AppliedAll(holdings: Holdings, changes: seq<DesiredItem>): Holdings {
    if changes == [] then holdings
    else
      var n := |changes| - 1;
      AppliedAll(holdings, changes[..n])[changes[n].Key() := ReadBack(changes[n])]
  }

  lemma {:induction false} HeldAfterAll(before: Holdings, changes: seq<DesiredItem>, i: nat)
    requires DistinctDesired(changes) && i < |changes|
    ensures changes[i].Key() in AppliedAll(before, changes)
    ensures AppliedAll(before, changes)[changes[i].Key()] == ReadBack(changes[i])
  {
    var n := |changes| - 1;
    if i < n {
      HeldAfterAll(before, changes[..n], i);
    }
  }

  lemma {:induction false} OnlyChangesAreHeld(changes: seq<DesiredItem>, key: string)
    requires key in AppliedAll(map[], changes)
    ensures exists i :: 0 <= i < |changes| && AppliedAll(map[], changes)[key] == ReadBack(changes[i])
  {
    var n := |changes| - 1;
    if changes[n].Key() != key {
      OnlyChangesAreHeld(changes[..n], key);
      var i :| 0 <= i < n && AppliedAll(map[], changes[..n])[key] == ReadBack(changes[..n][i]);
      assert changes[i] == changes[..n][i];
    }
  }

  lemma {:induction false} ApplyingKeepsKeys(before: Holdings, changes: seq<DesiredItem>)
    requires Keyed(before)
    ensures Keyed(AppliedAll(before, changes))
  {
    if changes != [] {
      ApplyingKeepsKeys(before, changes[..|changes| - 1]);
    }
  }

  // ---------------------------------------------------------------------------------------
  // Where an app is seen
  // ---------------------------------------------------------------------------------------

  /** This item is taken for a sighting of the app of that name. */
  predicate LocatesName(item: ObservedItem, team: string, name: string) {
    Locates(item) && ShortName(item.name, team) == name
  }

  /** Sightings that agree on a name put it where they say. */
  lemma {:induction false} SeenWhereAllAgree(items: seq<ObservedItem>, team: string, name: string, cluster: string)
    requires forall item | item in items && LocatesName(item, team, name) :: item.slot.cluster == cluster
    requires exists item :: item in items && LocatesName(item, team, name)
    ensures name in PlacedFor(items, team) && PlacedFor(items, team)[name] == cluster
  {
    var n := |items| - 1;
    assert items == items[..n] + [items[n]];
    assert items[n] in items;
    if !LocatesName(items[n], team, name) {
      var item :| item in items && LocatesName(item, team, name);
      assert item in items[..n];
      SeenWhereAllAgree(items[..n], team, name, cluster);
    }
  }

  lemma {:induction false} NowhereSeen(items: seq<ObservedItem>, team: string, name: string)
    requires forall item | item in items :: !LocatesName(item, team, name)
    ensures name !in PlacedFor(items, team)
  {
    if items != [] {
      var n := |items| - 1;
      assert items[n] in items;
      assert forall item | item in items[..n] :: item in items;
      NowhereSeen(items[..n], team, name);
    }
  }

  /** Something held is taken for the app, and all of it stands on that cluster. */
  ghost predicate SeenOnlyOn(held: Holdings, team: string, name: string, cluster: string) {
    && (exists key :: key in held && LocatesName(held[key], team, name))
    && (forall key | key in held && LocatesName(held[key], team, name) :: held[key].slot.cluster == cluster)
  }

  lemma {:induction false} LastSightingCounts(items: seq<ObservedItem>, team: string, name: string)
    requires items != [] && LocatesName(items[|items| - 1], team, name)
    ensures name in PlacedFor(items, team) && PlacedFor(items, team)[name] == items[|items| - 1].slot.cluster
  {
  }

  /** In every order a port may list what it holds, the app is seen on the cluster, exactly when
      something held is taken for it and everything taken for it stands there. */
  lemma {:induction false} SeenThereIffSeenOnlyThere(held: Holdings, team: string, app: App, cluster: string)
    requires Keyed(held) && cluster != ""
    ensures (forall items | Lists(items, held) :: Current(PlacedFor(items, team), app) == cluster)
            <==> SeenOnlyOn(held, team, app.name, cluster)
  {
    if SeenOnlyOn(held, team, app.name, cluster) {
      forall items | Lists(items, held)
        ensures Current(PlacedFor(items, team), app) == cluster
      {
        SeenInListing(held, team, app.name, cluster, items);
      }
    } else if key :| key in held && LocatesName(held[key], team, app.name) && held[key].slot.cluster != cluster {
      var items := ListingEndingIn(held, key);
      LastSightingCounts(items, team, app.name);
      assert Current(PlacedFor(items, team), app) != cluster;
    } else {
      var items := SomeListing(held);
      forall item | item in items ensures !LocatesName(item, team, app.name) {
        assert held[item.Key()] == item;
      }
      NowhereSeen(items, team, app.name);
      assert Current(PlacedFor(items, team), app) == "";
    }
  }

  lemma {:induction false} SeenInListing(held: Holdings, team: string, name: string, cluster: string,
                                         items: seq<ObservedItem>)
    requires Keyed(held) && SeenOnlyOn(held, team, name, cluster) && Lists(items, held)
    ensures name in PlacedFor(items, team) && PlacedFor(items, team)[name] == cluster
  {
    var key :| key in held && LocatesName(held[key], team, name);
    assert held[key] in items;
    forall item | item in items && LocatesName(item, team, name)
      ensures item.slot.cluster == cluster
    {
      assert held[item.Key()] == item;
    }
    SeenWhereAllAgree(items, team, name, cluster);
  }

  // ---------------------------------------------------------------------------------------
  // Keys of deployments
  // ---------------------------------------------------------------------------------------

  /** Names as the manifest's own check leaves them (manifest.go), used apart: no slash, and no
      app declared twice, which that check does not refuse. */
  ghost predicate WellNamed(m: Manifest) {
    && NoSlash(m.owns)
    && (forall i | 0 <= i < |m.apps| :: NoSlash(m.apps[i].name))
    && (forall i, j | 0 <= i < j < |m.apps| :: m.apps[i].name != m.apps[j].name)
  }

  lemma DeploymentsDiffer(m: Manifest, one: App, two: App)
    requires one.name != two.name
    ensures Deployment(m, one) != Deployment(m, two)
  {
    assert Deployment(m, one)[|m.owns| + 1..] == one.name;
    assert Deployment(m, two)[|m.owns| + 1..] == two.name;
  }

  lemma KeyEndsInName(item: DesiredItem)
    requires item.slot.name == item.name && item.slot.name != ""
    ensures exists before :: item.Key() == before + "/" + item.name
  {
    var before := item.asset + "/" + item.kind + "/" + item.slot.cluster + "/" + item.slot.namespace;
    assert item.Key() == before + "/" + item.name;
  }

  /** The shape a resolved app's change has. */
  ghost predicate IsDeploymentOf(m: Manifest, app: App, item: DesiredItem) {
    && item.asset == "app" && item.kind == "deployment" && item.name == Deployment(m, app)
    && item.slot.name == item.name && item.slot.cluster == item.cluster
  }

  lemma ResolvedIsDeployment(m: Manifest, floor: Floor, fleet: Fleet, placed: PlacedAt, changes: seq<DesiredItem>,
                             i: nat)
    requires fleet.Fleet? && Resolves(m, floor, fleet, placed, Ok(changes)) && i < |changes|
    ensures i < |m.apps| && IsDeploymentOf(m, m.apps[i], changes[i])
  {
    assert AppResolves(m, floor, fleet, placed, m.apps[i], Ok(changes[i]));
    var p := DecisionOf(m, floor, fleet, placed, m.apps[i], changes[i]);
  }

  lemma DistinctDeployments(m: Manifest, changes: seq<DesiredItem>)
    requires WellNamed(m) && |changes| == |m.apps|
    requires forall i | 0 <= i < |changes| :: IsDeploymentOf(m, m.apps[i], changes[i])
    ensures DistinctDesired(changes)
  {
    forall i, j | 0 <= i < j < |changes|
      ensures changes[i].Key() != changes[j].Key()
    {
      assert IsDeploymentOf(m, m.apps[i], changes[i]) && IsDeploymentOf(m, m.apps[j], changes[j]);
      DeploymentsDiffer(m, m.apps[i], m.apps[j]);
      KeyEndsInName(changes[i]);
      KeyEndsInName(changes[j]);
      var a :| changes[i].Key() == a + "/" + changes[i].name;
      var b :| changes[j].Key() == b + "/" + changes[j].name;
      if changes[i].Key() == changes[j].Key() {
        LastPartDecides(a, b, changes[i].name, changes[j].name);
      }
    }
  }

  /** Two apps of one name, which no check refuses, wish for one thing once they are put on one
      cluster in one environment. */
  lemma AppsOfOneNameShareAnIdentity(m: Manifest, floor: Floor, fleet: Fleet, placed: PlacedAt,
                                     changes: seq<DesiredItem>,
                                     i: nat, j: nat)
    requires fleet.Fleet? && Lawful(fleet.rules) && Resolves(m, floor, fleet, placed, Ok(changes))
    requires i < |changes| && j < |changes| && m.apps[i].name == m.apps[j].name
    requires changes[i].cluster == changes[j].cluster && m.apps[i].placement.env == m.apps[j].placement.env
    ensures changes[i].Key() == changes[j].Key()
  {
    NamespaceIsDecided(m, floor, fleet, placed, m.apps[i], changes[i]);
    NamespaceIsDecided(m, floor, fleet, placed, m.apps[j], changes[j]);
  }

  lemma NamespaceIsDecided(m: Manifest, floor: Floor, fleet: Fleet, placed: PlacedAt, app: App, item: DesiredItem)
    requires fleet.Fleet? && Lawful(fleet.rules) && AppResolves(m, floor, fleet, placed, app, Ok(item))
    ensures IsDeploymentOf(m, app, item)
    ensures Render(fleet.rules, NamespaceOf(fleet.clusters, item.cluster), m.owns, app.placement.env)
         == Some(item.slot.namespace)
  {
    var p := DecisionOf(m, floor, fleet, placed, app, item);
    EnvironmentAgrees(fleet, app, Current(placed, app), floor.PreferredClustersFor(Qualified(m, app)), p);
  }

  // ---------------------------------------------------------------------------------------
  // Two passes
  // ---------------------------------------------------------------------------------------

  /** One pass, over whatever was placed and held before: resolved and applied. */
  ghost predicate Pass(m: Manifest, floor: Floor, fleet: Fleet, placed: PlacedAt, changes: seq<DesiredItem>,
                       before: Holdings, held: Holdings) {
    && fleet.Fleet? && Lawful(fleet.rules) && Keyed(before)
    && Resolves(m, floor, fleet, placed, Ok(changes)) && held == AppliedAll(before, changes)
  }

  ghost predicate StillLegal(fleet: Fleet, app: App, cluster: string)
    requires fleet.Fleet?
  {
    exists c :: c in fleet.clusters && c.name == cluster && Legal(fleet.rules, app.placement, c)
  }

  /** After any pass, over any port and anything placed before: an app all of whose sightings
      stand where the pass put it is resolved there again, under any floor, any capacity reports
      and any preference, in any registry where its cluster is still legal and however the port
      lists what it holds; in the very same slot when the registry is the same. */
  lemma {:induction false} PlacementIsSticky(
    m: Manifest, floor: Floor, fleet: Fleet, placed: PlacedAt, changes: seq<DesiredItem>, before: Holdings, held: Holdings,
    items: seq<ObservedItem>, floor': Floor, fleet': Fleet, changes': seq<DesiredItem>, i: nat)
    requires Pass(m, floor, fleet, placed, changes, before, held) && i < |m.apps|
    requires SeenOnlyOn(held, m.team, m.apps[i].name, changes[i].cluster) && Lists(items, held)
    requires fleet'.Fleet? && Lawful(fleet'.rules) && StillLegal(fleet', m.apps[i], changes[i].cluster)
    requires Resolves(m, floor', fleet', PlacedFor(items, m.team), Ok(changes'))
    ensures i < |changes'| && changes'[i].cluster == changes[i].cluster && changes'[i].name == changes[i].name
    ensures changes'[i].placement.Some? && changes'[i].placement.value.sticky
    ensures fleet'.clusters == fleet.clusters && fleet'.rules == fleet.rules ==> changes'[i].slot == changes[i].slot
  {
    ApplyingKeepsKeys(before, changes);
    SeenInListing(held, m.team, m.apps[i].name, changes[i].cluster, items);
    assert AppResolves(m, floor, fleet, placed, m.apps[i], Ok(changes[i]));
    assert AppResolves(m, floor', fleet', PlacedFor(items, m.team), m.apps[i], Ok(changes'[i]));
    OneAppStays(m, floor, fleet, m.apps[i], placed, changes[i], floor', fleet', PlacedFor(items, m.team), changes'[i]);
  }

  /** An app seen on one cluster, still legal, is resolved there. */
  lemma StaysOnItsCluster(m: Manifest, floor: Floor, fleet: Fleet, app: App, placed: PlacedAt, item: DesiredItem)
    requires fleet.Fleet? && Lawful(fleet.rules) && AppResolves(m, floor, fleet, placed, app, Ok(item))
    requires Current(placed, app) != "" && StillLegal(fleet, app, Current(placed, app))
    ensures item.cluster == Current(placed, app) && item.placement.Some? && item.placement.value.sticky
  {
    var p := DecisionOf(m, floor, fleet, placed, app, item);
    var c :| c in fleet.clusters && c.name == Current(placed, app) && Legal(fleet.rules, app.placement, c);
    StaysWhileLegal(fleet.rules, fleet.clusters, fleet.reports, fleet.minFree, app.placement, c.name,
                    floor.PreferredClustersFor(Qualified(m, app)), p, c);
  }

  lemma OneAppStays(m: Manifest, floor: Floor, fleet: Fleet, app: App, placed: PlacedAt, item: DesiredItem,
                    floor': Floor, fleet': Fleet, placed': PlacedAt, item': DesiredItem)
    requires fleet.Fleet? && Lawful(fleet.rules) && fleet'.Fleet? && Lawful(fleet'.rules)
    requires AppResolves(m, floor, fleet, placed, app, Ok(item)) && AppResolves(m, floor', fleet', placed', app, Ok(item'))
    requires Current(placed', app) == item.cluster != "" && StillLegal(fleet', app, item.cluster)
    ensures item'.cluster == item.cluster && item'.name == item.name
    ensures item'.placement.Some? && item'.placement.value.sticky
    ensures fleet'.clusters == fleet.clusters && fleet'.rules == fleet.rules ==> item'.slot == item.slot
  {
    StaysOnItsCluster(m, floor', fleet', app, placed', item');
    NamespaceIsDecided(m, floor, fleet, placed, app, item);
    NamespaceIsDecided(m, floor', fleet', placed', app, item');
  }

  lemma EnvironmentAgrees(fleet: Fleet, app: App, current: string, prefer: seq<string>, p: Placed)
    requires fleet.Fleet? && Lawful(fleet.rules)
    requires Decides(fleet.rules, fleet.clusters, fleet.reports, fleet.minFree, app.placement, current, prefer, p)
    requires p.Placed? && (p.decision.env == "" || p.decision.env == app.placement.env)
    ensures p.decision.env == app.placement.env
  {
    PlacedWhereLegal(fleet.rules, fleet.clusters, fleet.reports, fleet.minFree, app.placement, current, prefer, p);
    EnvironmentIsExact(fleet.rules, fleet.clusters, app.placement, p.decision);
  }

  /** A later pass for one app: another listing, floor and fleet, its cluster still legal. */
  datatype Later = Later(items: seq<ObservedItem>, floor: Floor, fleet: Fleet, item: DesiredItem)

  ghost predicate ResolvesLater(m: Manifest, app: App, held: Holdings, cluster: string, n: Later) {
    && Lists(n.items, held) && n.fleet.Fleet? && Lawful(n.fleet.rules) && StillLegal(n.fleet, app, cluster)
    && AppResolves(m, n.floor, n.fleet, PlacedFor(n.items, m.team), app, Ok(n.item))
  }

  lemma {:induction false} OneMoreLegal(rules: TextRules, claim: Placement, clusters: seq<Cluster>, c: Cluster)
    requires Legal(rules, claim, c)
    ensures LegalAmong(rules, claim, clusters + [c]) == LegalAmong(rules, claim, clusters) + [c]
  {
    assert (clusters + [c])[..|clusters|] == clusters;
  }

  lemma {:induction false} BothLegal(rules: TextRules, claim: Placement, other: Cluster, one: Cluster)
    requires Legal(rules, claim, other) && Legal(rules, claim, one)
    ensures LegalAmong(rules, claim, [other, one]) == [other, one]
  {
    OneMoreLegal(rules, claim, [], other);
    OneMoreLegal(rules, claim, [other], one);
    assert [] + [other] == [other] && [other] + [one] == [other, one];
  }

  /** Of two legal clusters the one the app was seen on is chosen, and else the first, which is as
      roomy. */
  lemma {:induction false} ChoosesTheOther(rules: TextRules, claim: Placement, other: Cluster, one: Cluster,
                                           current: string)
    requires Legal(rules, claim, other) && Legal(rules, claim, one) && other.name != one.name
    requires (current == "" || current == other.name) && (claim.env != "" || claim.requirements != map[])
    ensures Decides(rules, [other, one], map[], 0.10, claim, current, [],
                    Placed(PlacementDecision(other.name, other.env, Considered(rules, claim, [other, one]), current != "")))
  {
    BothLegal(rules, claim, other, one);
    assert IsEmptiest([other, one], map[], 0.10, 0);
  }

  /** Some legal cluster of the app's environment carries the name it was put on. */
  lemma ItsCluster(m: Manifest, floor: Floor, fleet: Fleet, placed: PlacedAt, app: App, item: DesiredItem)
    returns (c: Cluster)
    requires fleet.Fleet? && Lawful(fleet.rules) && AppResolves(m, floor, fleet, placed, app, Ok(item))
    ensures c in fleet.clusters && Legal(fleet.rules, app.placement, c) && c.name == item.cluster && c.env == app.placement.env
    ensures app.placement.env != "" || app.placement.requirements != map[]
  {
    var p := DecisionOf(m, floor, fleet, placed, app, item);
    PlacedWhereLegal(fleet.rules, fleet.clusters, fleet.reports, fleet.minFree, app.placement, Current(placed, app),
                     floor.PreferredClustersFor(Qualified(m, app)), p);
    EnvironmentAgrees(fleet, app, Current(placed, app), floor.PreferredClustersFor(Qualified(m, app)), p);
    c :| c in fleet.clusters && Legal(fleet.rules, app.placement, c) && c.name == p.decision.cluster && c.env == p.decision.env;
  }

  /** Wherever else an app may be seen, or nowhere, some floor and fleet in which its cluster is
      legal resolve it elsewhere. */
  lemma {:induction false} ResolvesElsewhere(m: Manifest, floor: Floor, fleet: Fleet, placed: PlacedAt, app: App,
                                             item: DesiredItem, items: seq<ObservedItem>) returns (n: Later)
    requires fleet.Fleet? && Lawful(fleet.rules) && AppResolves(m, floor, fleet, placed, app, Ok(item))
    requires Current(PlacedFor(items, m.team), app) != item.cluster
    ensures n.items == items && n.fleet.Fleet? && Lawful(n.fleet.rules) && StillLegal(n.fleet, app, item.cluster)
    ensures AppResolves(m, n.floor, n.fleet, PlacedFor(items, m.team), app, Ok(n.item))
    ensures n.item.cluster != item.cluster
  {
    var current := Current(PlacedFor(items, m.team), app);
    var c := ItsCluster(m, floor, fleet, placed, app, item);
    NamespaceIsDecided(m, floor, fleet, placed, app, item);
    var one := c.(namespace := NamespaceOf(fleet.clusters, item.cluster));
    var other := one.(name := if current != "" then current else item.cluster + "-two");
    StillLegalRenamed(fleet.rules, app.placement, c, one, other);
    ChoosesTheOther(fleet.rules, app.placement, other, one, current);
    n := TwoClusters(m, floor, fleet, placed, app, item, items, one, other);
    assert one in [other, one];
  }

  /** With two clusters legal for an app, a floor without its rules and the choice between them
      made, it resolves to the one chosen. */
  lemma {:induction false} TwoClusters(m: Manifest, floor: Floor, fleet: Fleet, placed: PlacedAt, app: App,
                                       item: DesiredItem,
                                       items: seq<ObservedItem>, one: Cluster, other: Cluster) returns (n: Later)
    requires fleet.Fleet? && Lawful(fleet.rules) && AppResolves(m, floor, fleet, placed, app, Ok(item))
    requires other.env == app.placement.env && other.namespace == NamespaceOf(fleet.clusters, item.cluster)
    requires var current := Current(PlacedFor(items, m.team), app);
             Decides(fleet.rules, [other, one], map[], 0.10, app.placement, current, [],
                     Placed(PlacementDecision(other.name, other.env, Considered(fleet.rules, app.placement, [other, one]), current != "")))
    ensures n.items == items && n.fleet == Fleet(fleet.rules, [other, one], map[], 0.10) && n.item.cluster == other.name
    ensures AppResolves(m, n.floor, n.fleet, PlacedFor(items, m.team), app, Ok(n.item))
  {
    var current := Current(PlacedFor(items, m.team), app);
    var p := Placed(PlacementDecision(other.name, other.env, Considered(fleet.rules, app.placement, [other, one]), current != ""));
    var plain := floor.(apps := map[]);
    var item' := SettlesThere(m, floor, fleet, placed, app, item, plain, [other, one], p, other);
    n := Later(items, plain, Fleet(fleet.rules, [other, one], map[], 0.10), item');
    ResolvesBy(m, plain, n.fleet, PlacedFor(items, m.team), app, p, item');
  }

  /** A decision for a cluster with the same namespace and environment settles as the first did. */
  lemma SettlesThere(m: Manifest, floor: Floor, fleet: Fleet, placed: PlacedAt, app: App, item: DesiredItem,
                     floor': Floor, clusters: seq<Cluster>, p: Placed, c: Cluster) returns (item': DesiredItem)
    requires fleet.Fleet? && Lawful(fleet.rules) && AppResolves(m, floor, fleet, placed, app, Ok(item))
    requires floor' == floor.(apps := floor'.apps) && p.Placed? && p.decision.cluster == c.name
    requires p.decision.env == c.env == app.placement.env
    requires FirstNamed(clusters, c.name) == Some(c) && c.namespace == NamespaceOf(fleet.clusters, item.cluster)
    ensures AppFloor(m, floor', app).Ok? && item'.cluster == c.name
    ensures var (tier, limits) := AppFloor(m, floor', app).value;
            Settled(m, floor', fleet.rules, clusters, app, tier, limits, p) == Ok(item')
  {
    NamespaceIsDecided(m, floor, fleet, placed, app, item);
    var q := DecisionOf(m, floor, fleet, placed, app, item);
    assert AppFloor(m, floor', app) == AppFloor(m, floor, app);
    var (tier, limits) := AppFloor(m, floor', app).value;
    item' := Settled(m, floor', fleet.rules, clusters, app, tier, limits, p).value;
  }

  lemma ResolvesBy(m: Manifest, floor: Floor, fleet: Fleet, placed: PlacedAt, app: App, p: Placed, item: DesiredItem)
    requires fleet.Fleet? && AppFloor(m, floor, app).Ok?
    requires Decides(fleet.rules, fleet.clusters, fleet.reports, fleet.minFree, app.placement, Current(placed, app),
                     floor.PreferredClustersFor(Qualified(m, app)), p)
    requires var (tier, limits) := AppFloor(m, floor, app).value;
             Settled(m, floor, fleet.rules, fleet.clusters, app, tier, limits, p) == Ok(item)
    ensures AppResolves(m, floor, fleet, placed, app, Ok(item))
  {
  }

  lemma StillLegalRenamed(rules: TextRules, claim: Placement, c: Cluster, one: Cluster, other: Cluster)
    requires Legal(rules, claim, c)
    requires one == c.(namespace := one.namespace) && other == one.(name := other.name)
    ensures Legal(rules, claim, one) && Legal(rules, claim, other)
  {
    forall key | key in claim.requirements
      ensures Meets(rules, claim, one, key) && Meets(rules, claim, other, key)
    {
      assert Meets(rules, claim, c, key);
    }
  }

  /** After any pass: however the port lists what it holds, under whatever floor and in whatever
      fleet its cluster is legal, an app is resolved there again; exactly when something held is
      taken for it and everything taken for it stands there. */
  lemma {:induction false} StaysIffSeenOnlyThere(m: Manifest, floor: Floor, fleet: Fleet, placed: PlacedAt,
                                                 changes: seq<DesiredItem>, before: Holdings, held: Holdings, i: nat)
    requires Pass(m, floor, fleet, placed, changes, before, held) && i < |m.apps|
    requires i < |changes| && changes[i].cluster != ""
    ensures (forall n | ResolvesLater(m, m.apps[i], held, changes[i].cluster, n) :: n.item.cluster == changes[i].cluster)
            <==> SeenOnlyOn(held, m.team, m.apps[i].name, changes[i].cluster)
  {
    var app, item := m.apps[i], changes[i];
    ApplyingKeepsKeys(before, changes);
    SeenThereIffSeenOnlyThere(held, m.team, app, item.cluster);
    assert AppResolves(m, floor, fleet, placed, app, Ok(item));
    if SeenOnlyOn(held, m.team, app.name, item.cluster) {
      forall n | ResolvesLater(m, app, held, item.cluster, n) ensures n.item.cluster == item.cluster {
        OneAppStays(m, floor, fleet, app, placed, item, n.floor, n.fleet, PlacedFor(n.items, m.team), n.item);
      }
    } else {
      var items :| Lists(items, held) && Current(PlacedFor(items, m.team), app) != item.cluster;
      var n := ResolvesElsewhere(m, floor, fleet, placed, app, item, items);
      assert ResolvesLater(m, app, held, item.cluster, n);
    }
  }

  // ---------------------------------------------------------------------------------------
  // A port that held nothing
  // ---------------------------------------------------------------------------------------

  ghost predicate AreDeployments(m: Manifest, changes: seq<DesiredItem>) {
    && |changes| == |m.apps|
    && forall i | 0 <= i < |changes| :: IsDeploymentOf(m, m.apps[i], changes[i]) && changes[i].cluster != ""
  }

  /** Another app's deployment, or its own, is called as this app's is looked up. */
  predicate LookedUpAs(m: Manifest, j: nat, i: nat)
    requires j < |m.apps| && i < |m.apps|
  {
    ShortName(Deployment(m, m.apps[j]), m.team) == m.apps[i].name
  }

  lemma {:induction false} DeploymentIsHeld(m: Manifest, changes: seq<DesiredItem>, j: nat, i: nat)
    requires WellNamed(m) && AreDeployments(m, changes) && j < |m.apps| && i < |m.apps| && LookedUpAs(m, j, i)
    ensures changes[j].Key() in AppliedAll(map[], changes)
    ensures LocatesName(AppliedAll(map[], changes)[changes[j].Key()], m.team, m.apps[i].name)
    ensures AppliedAll(map[], changes)[changes[j].Key()].slot.cluster == changes[j].cluster
  {
    DistinctDeployments(m, changes);
    HeldAfterAll(map[], changes, j);
    assert IsDeploymentOf(m, m.apps[j], changes[j]);
  }

  lemma HeldIsADeployment(m: Manifest, changes: seq<DesiredItem>, i: nat, key: string) returns (j: nat)
    requires AreDeployments(m, changes) && i < |m.apps|
    requires key in AppliedAll(map[], changes) && LocatesName(AppliedAll(map[], changes)[key], m.team, m.apps[i].name)
    ensures j < |m.apps| && LookedUpAs(m, j, i) && AppliedAll(map[], changes)[key].slot.cluster == changes[j].cluster
  {
    OnlyChangesAreHeld(changes, key);
    j :| j < |changes| && AppliedAll(map[], changes)[key] == ReadBack(changes[j]);
    assert IsDeploymentOf(m, m.apps[j], changes[j]);
  }

  /** Some deployment of the manifest is looked up as the app, and all that are stand with it. */
  ghost predicate SeenAsOneOf(m: Manifest, changes: seq<DesiredItem>, i: nat)
    requires |changes| == |m.apps| && i < |m.apps|
  {
    && (exists j: nat :: j < |m.apps| && LookedUpAs(m, j, i))
    && (forall j: nat | j < |m.apps| && LookedUpAs(m, j, i) :: changes[j].cluster == changes[i].cluster)
  }

  lemma {:induction false} DeploymentsAreSeenIff(m: Manifest, changes: seq<DesiredItem>, i: nat)
    requires WellNamed(m) && AreDeployments(m, changes) && i < |m.apps|
    ensures SeenOnlyOn(AppliedAll(map[], changes), m.team, m.apps[i].name, changes[i].cluster) <==>
            SeenAsOneOf(m, changes, i)
  {
    if SeenAsOneOf(m, changes, i) {
      SeenAsOneIsSeen(m, changes, i, AppliedAll(map[], changes));
    } else if j: nat :| j < |m.apps| && LookedUpAs(m, j, i) && changes[j].cluster != changes[i].cluster {
      DeploymentIsHeld(m, changes, j, i);
    } else {
      forall key | key in AppliedAll(map[], changes)
        ensures !LocatesName(AppliedAll(map[], changes)[key], m.team, m.apps[i].name)
      {
        if LocatesName(AppliedAll(map[], changes)[key], m.team, m.apps[i].name) {
          var j := HeldIsADeployment(m, changes, i, key);
        }
      }
    }
  }

  lemma {:induction false} SeenAsOneIsSeen(m: Manifest, changes: seq<DesiredItem>, i: nat, held: Holdings)
    requires WellNamed(m) && AreDeployments(m, changes) && i < |m.apps| && SeenAsOneOf(m, changes, i)
    requires held == AppliedAll(map[], changes)
    ensures SeenOnlyOn(held, m.team, m.apps[i].name, changes[i].cluster)
  {
    var j: nat :| j < |m.apps| && LookedUpAs(m, j, i);
    DeploymentIsHeld(m, changes, j, i);
    forall key | key in held && LocatesName(held[key], m.team, m.apps[i].name)
      ensures held[key].slot.cluster == changes[i].cluster
    {
      var j' := HeldIsADeployment(m, changes, i, key);
    }
  }

  ghost predicate NamedClusters(fleet: Fleet) {
    fleet.Fleet? ==> forall c | c in fleet.clusters :: c.name != ""
  }

  /** A manifest resolved, and applied to a port that held nothing. */
  ghost predicate FreshPass(m: Manifest, floor: Floor, fleet: Fleet, placed: PlacedAt, changes: seq<DesiredItem>,
                            held: Holdings) {
    Pass(m, floor, fleet, placed, changes, map[], held) && WellNamed(m) && NamedClusters(fleet)
  }

  /** What was resolved for a manifest is a deployment for each app, on a named cluster. */
  lemma ResolvedAreDeployments(m: Manifest, floor: Floor, fleet: Fleet, placed: PlacedAt, changes: seq<DesiredItem>)
    requires fleet.Fleet? && Lawful(fleet.rules) && NamedClusters(fleet)
    requires Resolves(m, floor, fleet, placed, Ok(changes))
    ensures AreDeployments(m, changes)
  {
    forall j | 0 <= j < |changes|
      ensures IsDeploymentOf(m, m.apps[j], changes[j]) && changes[j].cluster != ""
    {
      ResolvedIsDeployment(m, floor, fleet, placed, changes, j);
      AppStandsWhereItMay(m, floor, fleet, placed, m.apps[j], changes[j]);
    }
  }

  /** On a port that held nothing, an app is seen where it was put, and only there, exactly when
      some deployment of the manifest is looked up as it and all that are stand with it. */
  lemma {:induction false} FreshPortIsSeenIff(m: Manifest, floor: Floor, fleet: Fleet, placed: PlacedAt,
                                              changes: seq<DesiredItem>, held: Holdings, i: nat)
    requires FreshPass(m, floor, fleet, placed, changes, held) && i < |m.apps|
    ensures |changes| == |m.apps|
    ensures SeenOnlyOn(held, m.team, m.apps[i].name, changes[i].cluster) <==> SeenAsOneOf(m, changes, i)
  {
    ResolvedAreDeployments(m, floor, fleet, placed, changes);
    DeploymentsAreSeenIff(m, changes, i);
  }

  /** So it is when the manifest owns under its team's name: each app is looked up as itself. */
  lemma {:induction false} OwnTeamsAppsAreSeen(m: Manifest, floor: Floor, fleet: Fleet, placed: PlacedAt,
                                               changes: seq<DesiredItem>, held: Holdings, i: nat)
    requires FreshPass(m, floor, fleet, placed, changes, held) && i < |m.apps| && m.owns == m.team
    ensures |changes| == |m.apps| && SeenOnlyOn(held, m.team, m.apps[i].name, changes[i].cluster)
  {
    FreshPortIsSeenIff(m, floor, fleet, placed, changes, held, i);
    NameRecoveredIffOwnedByTeam(m.owns, m.apps[i].name, m.team);
    assert LookedUpAs(m, i, i);
    forall j: nat | j < |m.apps| && LookedUpAs(m, j, i)
      ensures j == i
    {
      NameRecoveredIffOwnedByTeam(m.owns, m.apps[j].name, m.team);
      assert m.apps[j].name == m.apps[i].name;
    }
  }

  /** And under another name it is only when another app's deployment is called like it and
      stands with it. */
  lemma {:induction false} AnotherOwnersAppsAreSeenThroughOthers(
    m: Manifest, floor: Floor, fleet: Fleet, placed: PlacedAt, changes: seq<DesiredItem>, held: Holdings, i: nat)
    requires FreshPass(m, floor, fleet, placed, changes, held) && i < |m.apps| && m.owns != m.team
    ensures |changes| == |m.apps|
    ensures SeenOnlyOn(held, m.team, m.apps[i].name, changes[i].cluster) <==> SeenAsOneOf(m, changes, i)
    ensures !LookedUpAs(m, i, i)
  {
    FreshPortIsSeenIff(m, floor, fleet, placed, changes, held, i);
    NameRecoveredIffOwnedByTeam(m.owns, m.apps[i].name, m.team);
  }

  /** Owning under the team's name and more, an app's deployment is called like the app whose
      name has the rest in front: pay-x-web is looked up as x-web. */
  lemma DeploymentsMayBeCalledLikeAnotherApp(team: string, rest: string, app: string)
    ensures ShortName((team + "-" + rest) + "-" + app, team) == rest + "-" + app
  {
    var prefix, deployment := team + "-", (team + "-" + rest) + "-" + app;
    assert deployment == prefix + (rest + "-" + app);
    assert deployment[..|prefix|] == prefix;
  }

  // ---------------------------------------------------------------------------------------
  // An app that moved
  // ---------------------------------------------------------------------------------------

  const PLAIN_RULES := TextRules((s: string) => s, (s: string) => s, (p: string, o: string, e: string) => Some(o))
  const C1 := Cluster("c1", "", "", "dev", "", "eu", map[], "", true)
  const C2 := Cluster("c2", "", "", "dev", "", "eu", map[], "", true)
  const WEB := App("web", "svc", "img", Placement("dev", "", "eu", map[]), Dev, map[])
  const PAY := Manifest("pay", "pay", Dev, [WEB], map[])
  const SMALL_FLOOR := Floor(map[], map[], map[], map["svc" := map[Dev := AppLimits(1, "1", 1)]], FleetFloor(map[], []),
                             map[], map[], map[], map[], "rev-1")

  /** Both clusters there, or the first of them out of reach. */
  function Registered(firstReachable: bool): seq<Cluster> {
    [C1.(reachable := firstReachable), C2]
  }

  function FleetWhen(firstReachable: bool): Fleet {
    Fleet(PLAIN_RULES, Registered(firstReachable), map[], 0.10)
  }

  lemma LegalWhen(firstReachable: bool)
    ensures LegalAmong(PLAIN_RULES, WEB.placement, Registered(firstReachable)) == if firstReachable then [C1, C2] else [C2]
  {
    var clusters := Registered(firstReachable);
    assert clusters[..1] == [clusters[0]] && clusters[..1][..0] == [];
    assert LegalAmong(PLAIN_RULES, WEB.placement, []) == [];
    assert LegalAmong(PLAIN_RULES, WEB.placement, clusters[..1]) == if firstReachable then [C1] else [];
  }

  function DecisionOn(cluster: string, firstReachable: bool, sticky: bool): Placed {
    Placed(PlacementDecision(cluster, "dev", Considered(PLAIN_RULES, WEB.placement, Registered(firstReachable)), sticky))
  }

  /** The change that puts the app on a cluster. */
  function On(cluster: string, firstReachable: bool, sticky: bool): DesiredItem {
    DesiredItem("app", "deployment", "pay-web", "pay", Dev, GateNone, cluster, Slot(cluster, "pay", "pay-web"),
                AppLimits(1, "1", 1), [], "img", "svc", "",
                Some(DecisionOn(cluster, firstReachable, sticky).decision), map[], map[])
  }

  lemma SmallFloorGoverns()
    ensures AppFloor(PAY, SMALL_FLOOR, WEB) == Ok((Dev, AppLimits(1, "1", 1)))
    ensures SMALL_FLOOR.PreferredClustersFor(Qualified(PAY, WEB)) == []
    ensures SMALL_FLOOR.GateForApp(Dev, Qualified(PAY, WEB)) == GateNone
  {
  }

  lemma NoGateOnSmallFloor()
    ensures SMALL_FLOOR.GateForApp(Dev, Qualified(PAY, WEB)) == GateNone
  {
  }

  lemma SettledOn(cluster: string, firstReachable: bool, sticky: bool)
    requires cluster == "c1" || cluster == "c2"
    ensures Settled(PAY, SMALL_FLOOR, PLAIN_RULES, Registered(firstReachable), WEB, Dev, AppLimits(1, "1", 1),
                    DecisionOn(cluster, firstReachable, sticky)) == Ok(On(cluster, firstReachable, sticky))
  {
    NoGateOnSmallFloor();
    assert NamespaceOf(Registered(firstReachable), cluster) == "";
    assert Deployment(PAY, WEB) == "pay-web";
  }

  /** How the app resolves: first where it was seen, if that is legal; else the first roomiest. */
  lemma ResolvesOn(placed: PlacedAt, firstReachable: bool, cluster: string, sticky: bool)
    requires Decides(PLAIN_RULES, Registered(firstReachable), map[], 0.10, WEB.placement, Current(placed, WEB), [],
                     DecisionOn(cluster, firstReachable, sticky))
    requires cluster == "c1" || cluster == "c2"
    ensures Resolves(PAY, SMALL_FLOOR, FleetWhen(firstReachable), placed, Ok([On(cluster, firstReachable, sticky)]))
  {
    SmallFloorGoverns();
    SettledOn(cluster, firstReachable, sticky);
    assert AppResolves(PAY, SMALL_FLOOR, FleetWhen(firstReachable), placed, WEB, Ok(On(cluster, firstReachable, sticky)));
  }

  lemma FirstResolvedToC1()
    ensures Resolves(PAY, SMALL_FLOOR, FleetWhen(true), map[], Ok([On("c1", true, false)]))
  {
    LegalWhen(true);
    assert IsEmptiest([C1, C2], map[], 0.10, 0);
    ResolvesOn(map[], true, "c1", false);
  }

  lemma ThenMovedToC2(placed: PlacedAt)
    requires Current(placed, WEB) == "c1"
    ensures Resolves(PAY, SMALL_FLOOR, FleetWhen(false), placed, Ok([On("c2", false, false)]))
  {
    LegalWhen(false);
    assert FirstNamed([C2], "c1") == None;
    assert IsEmptiest([C2], map[], 0.10, 0);
    ResolvesOn(placed, false, "c2", false);
  }

  lemma ThenSentBackToC1(placed: PlacedAt)
    requires Current(placed, WEB) == "c1"
    ensures Resolves(PAY, SMALL_FLOOR, FleetWhen(true), placed, Ok([On("c1", true, true)]))
  {
    LegalWhen(true);
    ResolvesOn(placed, true, "c1", true);
  }

  /** What the port holds after the first pass and after the second, which removes nothing. */
  function HeldAfter(passes: nat): Holdings {
    var first := AppliedAll(map[], [On("c1", true, false)]);
    if passes <= 1 then first else AppliedAll(first, [On("c2", false, false)])
  }

  lemma ClusterTellsKeysApart(one: DesiredItem, two: DesiredItem)
    requires one.asset == two.asset && one.kind == two.kind
    requires |one.slot.cluster| == |two.slot.cluster| && one.slot.cluster != two.slot.cluster
    ensures one.Key() != two.Key()
  {
    var before, n := one.asset + "/" + one.kind + "/", |one.slot.cluster|;
    assert one.Key()[|before|..][..n] == one.slot.cluster;
    assert two.Key()[|before|..][..n] == two.slot.cluster;
  }

  /** Of two changes with different keys a port lists both, in either order. */
  lemma BothAreListed(one: DesiredItem, two: DesiredItem, held: Holdings)
    requires one.Key() != two.Key() && held == map[one.Key() := ReadBack(one), two.Key() := ReadBack(two)]
    ensures Lists([ReadBack(two), ReadBack(one)], held)
  {
    var items := [ReadBack(two), ReadBack(one)];
    forall item: ObservedItem | item.Key() in held && held[item.Key()] == item ensures item in items {
      assert item == items[0] || item == items[1];
    }
  }

  lemma OneIsListed(one: DesiredItem)
    ensures Lists([ReadBack(one)], map[one.Key() := ReadBack(one)])
  {
    var item := ReadBack(one);
    assert [item][0] == item;
  }

  lemma AppliedInTwoPasses(one: DesiredItem, two: DesiredItem)
    ensures AppliedAll(map[], [one]) == map[one.Key() := ReadBack(one)]
    ensures AppliedAll(AppliedAll(map[], [one]), [two]) == map[one.Key() := ReadBack(one)][two.Key() := ReadBack(two)]
  {
    assert [one][..0] == [] && [two][..0] == [];
  }

  lemma BothPassesAreListed()
    ensures Lists([ReadBack(On("c1", true, false))], HeldAfter(1))
    ensures Lists([ReadBack(On("c2", false, false)), ReadBack(On("c1", true, false))], HeldAfter(2))
  {
    var one, two := On("c1", true, false), On("c2", false, false);
    assert one.slot.cluster[1] != two.slot.cluster[1];
    ClusterTellsKeysApart(one, two);
    PassesAreListed(one, two);
  }

  lemma PassesAreListed(one: DesiredItem, two: DesiredItem)
    requires one.Key() != two.Key()
    ensures Lists([ReadBack(one)], AppliedAll(map[], [one]))
    ensures Lists([ReadBack(two), ReadBack(one)], AppliedAll(AppliedAll(map[], [one]), [two]))
  {
    AppliedInTwoPasses(one, two);
    OneIsListed(one);
    BothAreListed(one, two, AppliedAll(AppliedAll(map[], [one]), [two]));
  }

  lemma PayWebIsWeb()
    ensures ShortName("pay-web", "pay") == "web"
  {
    NameRecoveredIffOwnedByTeam("pay", "web", "pay");
    assert "pay" + "-" + "web" == "pay-web";
  }

  lemma {:induction false} SeenOnC1Last(items: seq<ObservedItem>)
    requires items != [] && items[|items| - 1] == ReadBack(On("c1", true, false))
    ensures Current(PlacedFor(items, "pay"), WEB) == "c1"
  {
    PayWebIsWeb();
    LastSightingCounts(items, "pay", "web");
  }

  /** Three passes of one manifest: c1 reachable, then not, then again. */
  ghost predicate Sequel(first: seq<ObservedItem>, second: seq<ObservedItem>) {
    && Pass(PAY, SMALL_FLOOR, FleetWhen(true), map[], [On("c1", true, false)], map[], HeldAfter(1))
    && Lists(first, HeldAfter(1))
    && Pass(PAY, SMALL_FLOOR, FleetWhen(false), PlacedFor(first, "pay"), [On("c2", false, false)],
            HeldAfter(1), HeldAfter(2))
    && Lists(second, HeldAfter(2))
  }

  lemma PassesHappen(first: seq<ObservedItem>, second: seq<ObservedItem>)
    requires first == [ReadBack(On("c1", true, false))]
    requires second == [ReadBack(On("c2", false, false)), ReadBack(On("c1", true, false))]
    ensures Sequel(first, second)
  {
    BothPassesAreListed();
    SeenOnC1Last(first);
    FirstResolvedToC1();
    ThenMovedToC2(PlacedFor(first, "pay"));
    FirstPassKeyed();
  }

  lemma C2IsLegal()
    ensures StillLegal(FleetWhen(true), WEB, "c2")
  {
    LegalWhen(true);
    assert C2 == Registered(true)[1];
    assert C2 in LegalAmong(PLAIN_RULES, WEB.placement, Registered(true));
  }

  /** Owning under the team's name is not enough on a port that remembers. The app is put on c1;
      c1 goes out of reach and the app is moved to c2; c1 comes back. The port still lists both,
      and when it lists c1 last the app is sent back there, although c2, where it runs, is legal. */
  lemma AMovedAppMayBeSentBack() returns (first: seq<ObservedItem>, second: seq<ObservedItem>)
    ensures Sequel(first, second)
    ensures Resolves(PAY, SMALL_FLOOR, FleetWhen(true), PlacedFor(second, "pay"), Ok([On("c1", true, true)]))
    ensures StillLegal(FleetWhen(true), WEB, "c2")
  {
    first := [ReadBack(On("c1", true, false))];
    second := [ReadBack(On("c2", false, false)), ReadBack(On("c1", true, false))];
    PassesHappen(first, second);
    SeenOnC1Last(second);
    ThenSentBackToC1(PlacedFor(second, "pay"));
    C2IsLegal();
  }

  lemma FirstPassKeyed()
    ensures Lawful(PLAIN_RULES) && Keyed(map[]) && Keyed(HeldAfter(1))
  {
    ApplyingKeepsKeys(map[], [On("c1", true, false)]);
  }
}
