/**
 Choosing a cluster (mantlekeep-estate/placement.go): legality, then staying put, then the
 platform's preference, then the emptiest.

 Case folding, label-key normalisation and namespace patterns are parameters, with the one
 law a comparison needs: only the empty text folds like the empty text. Free capacity is a
 real number.
 */
module PlacementChoice {
  import opened Estate
  import opened Options
  import opened Ordering

  /** `render` fills a namespace pattern in for an owner and an environment, when that gives a
      legal name. */
  datatype TextRules = TextRules(
    fold: string -> string, normal: string -> string, render: (string, string, string) -> Option<string>)

  ghost predicate Lawful(rules: TextRules) {
    forall s :: rules.fold(s) == rules.fold("") ==> s == ""
  }

  predicate EqualFold(rules: TextRules, a: string, b: string) {
    rules.fold(a) == rules.fold(b)
  }

  datatype Cluster = Cluster(
    name: string, provider: string, region: string, env: string, purpose: string, residency: string,
    labels: map<string, string>, namespace: string, reachable: bool)
  {
    function Labelled(rules: TextRules, key: string): string {
      if key in labels then labels[key]
      else
        var k := rules.normal(key);
        if k == "env" || k == "environment" then env
        else if k == "purpose" then purpose
        else if k == "region" then region
        else if k == "provider" then provider
        else if k == "residency" then residency
        else ""
    }
  }

  datatype Capacity = Capacity(cluster: string, allocatablePct: real)

  datatype PlacementError = EmptyClaim | NoLegalCluster | AllFull

  datatype Placed = Placed(decision: PlacementDecision) | NotPlaced(error: PlacementError)

  // ---------------------------------------------------------------------------------------
  // Legality
  // ---------------------------------------------------------------------------------------

  predicate Meets(rules: TextRules, claim: Placement, cluster: Cluster, key: string)
    requires key in claim.requirements
  {
    claim.requirements[key] != "" && EqualFold(rules, cluster.Labelled(rules, key), claim.requirements[key])
  }

  predicate Legal(rules: TextRules, claim: Placement, cluster: Cluster) {
    && (claim.env == "" || EqualFold(rules, cluster.env, claim.env))
    && (forall key | key in claim.requirements :: Meets(rules, claim, cluster, key))
    && (claim.purpose == "" || EqualFold(rules, cluster.purpose, claim.purpose))
    && claim.residency != "" && EqualFold(rules, cluster.residency, claim.residency)
    && cluster.reachable
  }

  function LegalAmong(rules: TextRules, claim: Placement, clusters: seq<Cluster>): (legal: seq<Cluster>)
    ensures forall c :: c in legal <==> c in clusters && Legal(rules, claim, c)
  {
    if clusters == [] then []
    else
      var n := |clusters| - 1;
      assert clusters == clusters[..n] + [clusters[n]];
      if Legal(rules, claim, clusters[n]) then LegalAmong(rules, claim, clusters[..n]) + [clusters[n]]
      else LegalAmong(rules, claim, clusters[..n])
  }

  function Names(clusters: seq<Cluster>): (names: seq<string>)
    ensures |names| == |clusters| && forall i | 0 <= i < |names| :: names[i] == clusters[i].name
  {
    seq(|clusters|, i requires 0 <= i < |clusters| => clusters[i].name)
  }

  function Considered(rules: TextRules, claim: Placement, clusters: seq<Cluster>): seq<string> {
    SortedText(Names(LegalAmong(rules, claim, clusters)))
  }

  // ---------------------------------------------------------------------------------------
  // The choices
  // ---------------------------------------------------------------------------------------

  type Reports = map<string, real>

  predicate TooFull(reports: Reports, minFree: real, cluster: Cluster) {
    cluster.name in reports && reports[cluster.name] < minFree
  }

  /** No report counts as no free room, but is not a refusal. */
  function Free(reports: Reports, cluster: Cluster): real {
    if cluster.name in reports then reports[cluster.name] else 0.0
  }

  /** The first of the clusters with this name. */
  function FirstNamed(clusters: seq<Cluster>, name: string): (r: Option<Cluster>)
    ensures r.Some? ==> r.value in clusters && r.value.name == name
    ensures r.None? ==> forall c | c in clusters :: c.name != name
  {
    if clusters == [] then None
    else if clusters[0].name == name then Some(clusters[0])
    else FirstNamed(clusters[1..], name)
  }

  function FirstPreferred(legal: seq<Cluster>, reports: Reports, minFree: real,
                          prefer: seq<string>): (r: Option<Cluster>)
    ensures r.Some? ==> r.value in legal && r.value.name in prefer && !TooFull(reports, minFree, r.value)
  {
    if prefer == [] then None
    else
      match FirstNamed(legal, prefer[0])
      case Some(c) => if TooFull(reports, minFree, c) then FirstPreferred(legal, reports, minFree, prefer[1..]) else Some(c)
      case None => FirstPreferred(legal, reports, minFree, prefer[1..])
  }

  /** Somewhere among the roomy clusters, none roomier, none as roomy earlier. */
  ghost predicate IsEmptiest(legal: seq<Cluster>, reports: Reports, minFree: real, i: int) {
    && 0 <= i < |legal| && !TooFull(reports, minFree, legal[i])
    && (forall j | 0 <= j < |legal| && !TooFull(reports, minFree, legal[j]) ::
          Free(reports, legal[j]) <= Free(reports, legal[i]))
    && (forall j | 0 <= j < i && !TooFull(reports, minFree, legal[j]) ::
          Free(reports, legal[j]) < Free(reports, legal[i]))
  }

  ghost predicate AllTooFull(legal: seq<Cluster>, reports: Reports, minFree: real) {
    forall c | c in legal :: TooFull(reports, minFree, c)
  }

  class Placer {
    const rules: TextRules
    const clusters: seq<Cluster>
    const minFree: real := 0.10
    var reports: Reports

    constructor (rules: TextRules, clusters: seq<Cluster>)
      ensures this.rules == rules && this.clusters == clusters && reports == map[]
    {
      this.rules, this.clusters := rules, clusters;
      reports := map[];
    }

    method WithCapacity(capacity: seq<Capacity>)
      modifies this
      ensures forall name :: name in reports <==> name in old(reports) || exists i | 0 <= i < |capacity| :: capacity[i].cluster == name
      ensures forall i | 0 <= i < |capacity| && (forall j | i < j < |capacity| :: capacity[j].cluster != capacity[i].cluster) ::
                capacity[i].cluster in reports && reports[capacity[i].cluster] == capacity[i].allocatablePct
      ensures forall name | name in old(reports) && (forall i | 0 <= i < |capacity| :: capacity[i].cluster != name) ::
                name in reports && reports[name] == old(reports)[name]
    {
      for k := 0 to |capacity|
        invariant forall name :: name in reports <==> name in old(reports) || exists i | 0 <= i < k :: capacity[i].cluster == name
        invariant forall i | 0 <= i < k && (forall j | i < j < k :: capacity[j].cluster != capacity[i].cluster) ::
                    capacity[i].cluster in reports && reports[capacity[i].cluster] == capacity[i].allocatablePct
        invariant forall name | name in old(reports) && (forall i | 0 <= i < k :: capacity[i].cluster != name) ::
                    name in reports && reports[name] == old(reports)[name]
      {
        reports := reports[capacity[k].cluster := capacity[k].allocatablePct];
      }
    }

    method LegalClusters(claim: Placement) returns (legal: seq<Cluster>)
      ensures legal == LegalAmong(rules, claim, clusters)
    {
      legal := [];
      for i := 0 to |clusters|
        invariant legal == LegalAmong(rules, claim, clusters[..i])
      {
        assert clusters[..i + 1][..i] == clusters[..i];
        if Legal(rules, claim, clusters[i]) {
          legal := legal + [clusters[i]];
        }
      }
      assert clusters[..|clusters|] == clusters;
    }

    method Emptiest(legal: seq<Cluster>) returns (best: Option<Cluster>)
      ensures best.None? <==> AllTooFull(legal, reports, minFree)
      ensures best.Some? ==> exists i :: IsEmptiest(legal, reports, minFree, i) && legal[i] == best.value
    {
      best := None;
      var bestFree, at := -1.0, 0;
      for i := 0 to |legal|
        invariant best.None? ==> bestFree == -1.0 && forall j | 0 <= j < i :: TooFull(reports, minFree, legal[j])
        invariant best.Some? ==>
                    && at < i && best.value == legal[at] && bestFree == Free(reports, legal[at])
                    && IsEmptiest(legal[..i], reports, minFree, at)
      {
        var cluster := legal[i];
        if !TooFull(reports, minFree, cluster) {
          var free := Free(reports, cluster);
          if free > bestFree {
            best, bestFree, at := Some(cluster), free, i;
          }
        }
      }
      assert legal[..|legal|] == legal;
    }

    /** The whole decision. */
    method PlaceWith(claim: Placement, current: string, prefer: seq<string>) returns (r: Placed)
      ensures Decides(rules, clusters, reports, minFree, claim, current, prefer, r)
    {
      if claim.env == "" && |claim.requirements| == 0 {
        return NotPlaced(EmptyClaim);
      }
      var legal := LegalClusters(claim);
      if |legal| == 0 {
        return NotPlaced(NoLegalCluster);
      }
      var considered := SortedText(Names(legal));
      if current != "" {
        var stayed := FirstNamed(legal, current);
        if stayed.Some? {
          return Placed(PlacementDecision(current, stayed.value.env, considered, true));
        }
      }
      var chosen := FirstPreferred(legal, reports, minFree, prefer);
      if chosen.Some? {
        return Placed(PlacementDecision(chosen.value.name, chosen.value.env, considered, false));
      }
      var best := Emptiest(legal);
      if best.None? {
        return NotPlaced(AllFull);
      }
      r := Placed(PlacementDecision(best.value.name, best.value.env, considered, false));
    }
  }

  /** What a placement decision has to be, step by step. */
  ghost predicate Decides(rules: TextRules, clusters: seq<Cluster>, reports: Reports, minFree: real,
                          claim: Placement, current: string, prefer: seq<string>, r: Placed) {
    var legal := LegalAmong(rules, claim, clusters);
    var considered := Considered(rules, claim, clusters);
    if claim.env == "" && claim.requirements == map[] then r == NotPlaced(EmptyClaim)
    else if legal == [] then r == NotPlaced(NoLegalCluster)
    else if current != "" && FirstNamed(legal, current).Some? then
      r == Placed(PlacementDecision(current, FirstNamed(legal, current).value.env, considered, true))
    else
      match FirstPreferred(legal, reports, minFree, prefer)
      case Some(c) => r == Placed(PlacementDecision(c.name, c.env, considered, false))
      case None =>
        || (r == NotPlaced(AllFull) && AllTooFull(legal, reports, minFree))
        || (exists i :: IsEmptiest(legal, reports, minFree, i)
              && r == Placed(PlacementDecision(legal[i].name, legal[i].env, considered, false)))
  }

  // ---------------------------------------------------------------------------------------
  // What every decision guarantees
  // ---------------------------------------------------------------------------------------

  /** The first roomiest cluster is one cluster. */
  lemma EmptiestIsUnique(legal: seq<Cluster>, reports: Reports, minFree: real, i: int, j: int)
    requires IsEmptiest(legal, reports, minFree, i) && IsEmptiest(legal, reports, minFree, j)
    ensures i == j
  {
  }

  /** The rules leave one answer: the same claim, registry, reports and preference are always
      decided alike. */
  lemma OneDecision(rules: TextRules, clusters: seq<Cluster>, reports: Reports, minFree: real,
                    claim: Placement, current: string, prefer: seq<string>, r: Placed, s: Placed)
    requires Decides(rules, clusters, reports, minFree, claim, current, prefer, r)
    requires Decides(rules, clusters, reports, minFree, claim, current, prefer, s)
    ensures r == s
  {
    var legal := LegalAmong(rules, claim, clusters);
    if i, j :| IsEmptiest(legal, reports, minFree, i) && IsEmptiest(legal, reports, minFree, j) {
      EmptiestIsUnique(legal, reports, minFree, i, j);
    }
    forall i | IsEmptiest(legal, reports, minFree, i)
      ensures !AllTooFull(legal, reports, minFree)
    {
      assert legal[i] in legal;
    }
    forall i, j | IsEmptiest(legal, reports, minFree, i) && IsEmptiest(legal, reports, minFree, j)
      ensures i == j
    {
      EmptiestIsUnique(legal, reports, minFree, i, j);
    }
  }

  /** A decision names a registered, reachable cluster that meets every part of the claim; what
      was considered, and whether anything could be, depends on claim and registry alone. */
  lemma PlacedWhereLegal(rules: TextRules, clusters: seq<Cluster>, reports: Reports, minFree: real,
                         claim: Placement, current: string, prefer: seq<string>, r: Placed)
    requires Decides(rules, clusters, reports, minFree, claim, current, prefer, r)
    ensures r.Placed? ==>
              && (exists c :: c in clusters && Legal(rules, claim, c) && c.name == r.decision.cluster && c.env == r.decision.env)
              && r.decision.considered == Considered(rules, claim, clusters)
              && r.decision.cluster in r.decision.considered
    ensures r == NotPlaced(NoLegalCluster) ==> forall c | c in clusters :: !Legal(rules, claim, c)
    ensures r == NotPlaced(AllFull) ==> forall c | c in clusters && Legal(rules, claim, c) :: TooFull(reports, minFree, c)
  {
    var legal := LegalAmong(rules, claim, clusters);
    if r.Placed? {
      var c :| c in legal && c.name == r.decision.cluster && c.env == r.decision.env;
      NameIsConsidered(legal, c);
    }
    if r == NotPlaced(NoLegalCluster) {
      assert forall c :: c !in legal;
    }
  }

  lemma NameIsConsidered(legal: seq<Cluster>, c: Cluster)
    requires c in legal
    ensures c.name in SortedText(Names(legal))
  {
    var i :| 0 <= i < |legal| && legal[i] == c;
    assert Names(legal)[i] == c.name;
    assert c.name in multiset(Names(legal));
    assert c.name in multiset(SortedText(Names(legal)));
  }

  /** An app already running on a cluster that is still legal stays there, whatever the
      capacity reports and the preferences say. */
  lemma StaysWhileLegal(rules: TextRules, clusters: seq<Cluster>, reports: Reports, minFree: real,
                        claim: Placement, current: string, prefer: seq<string>, r: Placed, c: Cluster)
    requires Decides(rules, clusters, reports, minFree, claim, current, prefer, r)
    requires current != "" && c in clusters && c.name == current && Legal(rules, claim, c)
    requires claim.env != "" || claim.requirements != map[]
    ensures r.Placed? && r.decision.sticky && r.decision.cluster == current
  {
    assert c in LegalAmong(rules, claim, clusters);
  }

  /** Whether a preferred name can be taken up. */
  predicate Takeable(legal: seq<Cluster>, reports: Reports, minFree: real, name: string) {
    FirstNamed(legal, name).Some? && !TooFull(reports, minFree, FirstNamed(legal, name).value)
  }

  /** The preference is the earliest name that can be taken up; none when none can. */
  lemma {:induction false} PreferenceIsTheFirstTakeable(legal: seq<Cluster>, reports: Reports, minFree: real,
                                                        prefer: seq<string>)
    ensures match FirstPreferred(legal, reports, minFree, prefer)
            case None => forall j | 0 <= j < |prefer| :: !Takeable(legal, reports, minFree, prefer[j])
            case Some(c) =>
              exists k ::
                && 0 <= k < |prefer| && Takeable(legal, reports, minFree, prefer[k])
                && FirstNamed(legal, prefer[k]) == Some(c)
                && forall j | 0 <= j < k :: !Takeable(legal, reports, minFree, prefer[j])
  {
    if prefer != [] {
      PreferenceIsTheFirstTakeable(legal, reports, minFree, prefer[1..]);
      if Takeable(legal, reports, minFree, prefer[0]) {
        assert FirstNamed(legal, prefer[0]) == FirstPreferred(legal, reports, minFree, prefer);
      } else {
        match FirstPreferred(legal, reports, minFree, prefer)
        case None =>
          forall j | 0 <= j < |prefer| ensures !Takeable(legal, reports, minFree, prefer[j]) {
            assert j > 0 ==> prefer[j] == prefer[1..][j - 1];
          }
        case Some(c) => LaterPreference(legal, reports, minFree, prefer, c);
      }
    }
  }

  lemma {:induction false} LaterPreference(legal: seq<Cluster>, reports: Reports, minFree: real, prefer: seq<string>,
                                           c: Cluster)
    requires prefer != [] && !Takeable(legal, reports, minFree, prefer[0])
    requires exists k ::
               && 0 <= k < |prefer[1..]| && Takeable(legal, reports, minFree, prefer[1..][k])
               && FirstNamed(legal, prefer[1..][k]) == Some(c)
               && forall j | 0 <= j < k :: !Takeable(legal, reports, minFree, prefer[1..][j])
    ensures exists k ::
              && 0 <= k < |prefer| && Takeable(legal, reports, minFree, prefer[k]) && FirstNamed(legal, prefer[k]) == Some(c)
              && forall j | 0 <= j < k :: !Takeable(legal, reports, minFree, prefer[j])
  {
    var k :|
      && 0 <= k < |prefer[1..]| && Takeable(legal, reports, minFree, prefer[1..][k])
      && FirstNamed(legal, prefer[1..][k]) == Some(c)
      && forall j | 0 <= j < k :: !Takeable(legal, reports, minFree, prefer[1..][j]);
    var next := k + 1;
    assert prefer[next] == prefer[1..][k];
    forall j | 0 <= j < next ensures !Takeable(legal, reports, minFree, prefer[j]) {
      assert j > 0 ==> prefer[j] == prefer[1..][j - 1];
    }
  }

}
