/**
 The dependency-levelled topological sort of the orchestrator
 (mantlekeep-control/orchestrator/dag.go).

 A workflow is a list of named steps with dependencies. `Layers` is Kahn's algorithm one
 frontier at a time over mutable counters. It is specified by longest dependency chains,
 which mention neither frontiers nor counters.
 */
module Dag {

  /** The fields after `dependsOn` travel with a step and are never read here. */
  datatype Step = Step(name: string, dependsOn: seq<string>, runtime: string, command: seq<string>)

  datatype LayersResult =
    | Ordered(levels: seq<seq<Step>>)
    | DuplicateStep(name: string)
    | UnknownDependency(name: string, dependency: string)
    | HasCycle(remaining: nat)

  // ---------------------------------------------------------------------------------------
  // What a dependency chain is
  // ---------------------------------------------------------------------------------------

  function Names(steps: seq<Step>): (names: set<string>)
    ensures forall i | 0 <= i < |steps| :: steps[i].name in names
  {
    if steps == [] then {}
    else
      var n := |steps| - 1;
      var before := Names(steps[..n]);
      assert forall i | 0 <= i < n :: steps[i] == steps[..n][i];
      before + {steps[n].name}
  }

  lemma {:induction false} NameIndex(steps: seq<Step>, name: string) returns (i: nat)
    requires name in Names(steps)
    ensures i < |steps| && steps[i].name == name
  {
    var n := |steps| - 1;
    if steps[n].name == name {
      i := n;
    } else {
      i := NameIndex(steps[..n], name);
    }
  }

  ghost predicate UniqueNames(steps: seq<Step>) {
    forall i, j | 0 <= i < j < |steps| :: steps[i].name != steps[j].name
  }

  ghost predicate KnownDependencies(steps: seq<Step>) {
    forall i | 0 <= i < |steps| :: forall d | d in steps[i].dependsOn :: d in Names(steps)
  }

  ghost predicate DependsOn(steps: seq<Step>, name: string, dependency: string) {
    exists i | 0 <= i < |steps| :: steps[i].name == name && dependency in steps[i].dependsOn
  }

  /** The name at position `i` depends on the one before it. */
  ghost predicate Linked(steps: seq<Step>, chain: seq<string>, i: nat)
    requires 0 < i < |chain|
  {
    DependsOn(steps, chain[i], chain[i - 1])
  }

  /** A chain lists step names, each one a dependency of the next. */
  ghost predicate Chain(steps: seq<Step>, chain: seq<string>) {
    && |chain| > 0
    && (forall i | 0 <= i < |chain| :: chain[i] in Names(steps))
    && (forall i | 0 < i < |chain| :: Linked(steps, chain, i))
  }

  ghost predicate ChainTo(steps: seq<Step>, chain: seq<string>, name: string) {
    Chain(steps, chain) && chain[|chain| - 1] == name
  }

  ghost predicate IsCycle(steps: seq<Step>, chain: seq<string>) {
    Chain(steps, chain) && |chain| > 1 && chain[0] == chain[|chain| - 1]
  }

  ghost predicate Acyclic(steps: seq<Step>) {
    !exists chain :: IsCycle(steps, chain)
  }

  ghost predicate HasChainOfLength(steps: seq<Step>, name: string, edges: nat) {
    exists chain :: ChainTo(steps, chain, name) && |chain| == edges + 1
  }

  /** The longest dependency chain ending at `name` has exactly `edges` edges. */
  ghost predicate LongestChain(steps: seq<Step>, name: string, edges: nat) {
    && HasChainOfLength(steps, name, edges)
    && (forall chain :: ChainTo(steps, chain, name) ==> |chain| <= edges + 1)
  }

  /** Chains of every length end at `name`: it waits on a cycle, directly or not. */
  ghost predicate Bottomless(steps: seq<Step>, name: string) {
    forall edges: nat :: HasChainOfLength(steps, name, edges)
  }

  ghost function BottomlessNames(steps: seq<Step>): set<string> {
    set name | name in Names(steps) && Bottomless(steps, name)
  }

  // ---------------------------------------------------------------------------------------
  // What a layering is
  // ---------------------------------------------------------------------------------------

  /** The steps whose names are in `names`, in input order. */
  function Select(steps: seq<Step>, names: set<string>): seq<Step> {
    if steps == [] then []
    else
      var last := steps[|steps| - 1];
      Select(steps[..|steps| - 1], names) + if last.name in names then [last] else []
  }

  function Flatten(levels: seq<seq<Step>>): seq<Step> {
    if levels == [] then [] else Flatten(levels[..|levels| - 1]) + levels[|levels| - 1]
  }

  /** Every step in exactly one level, each level in input order, and a step's level index
      is the length of its longest dependency chain. */
  ghost predicate IsLayering(steps: seq<Step>, levels: seq<seq<Step>>) {
    && multiset(Flatten(levels)) == multiset(steps)
    && Shaped(steps, levels)
  }

  ghost predicate Shaped(steps: seq<Step>, levels: seq<seq<Step>>) {
    forall k | 0 <= k < |levels| :: LevelShape(steps, levels[k], k)
  }

  ghost predicate LevelShape(steps: seq<Step>, level: seq<Step>, k: nat) {
    && level != [] && level == Select(steps, Names(level))
    && forall s | s in level :: LongestChain(steps, s.name, k)
  }

  // ---------------------------------------------------------------------------------------
  // Facts about selection
  // ---------------------------------------------------------------------------------------

  lemma {:induction false} SelectMembers(steps: seq<Step>, names: set<string>)
    ensures forall s :: s in Select(steps, names) <==> s in steps && s.name in names
  {
    if steps != [] {
      SelectMembers(steps[..|steps| - 1], names);
      assert steps == steps[..|steps| - 1] + [steps[|steps| - 1]];
    }
  }

  lemma {:induction false} SelectNames(steps: seq<Step>, names: set<string>)
    requires names <= Names(steps)
    ensures Names(Select(steps, names)) == names
  {
    SelectMembers(steps, names);
    var chosen := Select(steps, names);
    forall name | name in names
      ensures name in Names(chosen)
    {
      var i := NameIndex(steps, name);
      assert steps[i] in chosen;
      var j :| 0 <= j < |chosen| && chosen[j] == steps[i];
      assert chosen[j].name == name;
    }
    forall name | name in Names(chosen)
      ensures name in names
    {
      var j := NameIndex(chosen, name);
      assert chosen[j] in chosen;
    }
  }

  lemma {:induction false} SelectSplits(steps: seq<Step>, left: set<string>, right: set<string>)
    requires left !! right
    ensures multiset(Select(steps, left + right)) == multiset(Select(steps, left)) + multiset(Select(steps, right))
  {
    if steps != [] {
      SelectSplits(steps[..|steps| - 1], left, right);
    }
  }

  lemma {:induction false} SelectBounded(steps: seq<Step>, names: set<string>)
    ensures |Select(steps, names)| <= |steps|
    ensures |Select(steps, names)| == |steps| ==> Select(steps, names) == steps
  {
    if steps != [] {
      SelectBounded(steps[..|steps| - 1], names);
      assert steps == steps[..|steps| - 1] + [steps[|steps| - 1]];
    }
  }

  lemma {:induction false} SelectAll(steps: seq<Step>, names: set<string>)
    requires Names(steps) <= names
    ensures Select(steps, names) == steps
  {
    if steps != [] {
      var front := steps[..|steps| - 1];
      forall name | name in Names(front)
        ensures name in names
      {
        var i := NameIndex(front, name);
        assert steps[i].name == name;
      }
      SelectAll(front, names);
      assert steps[|steps| - 1].name in Names(steps);
      assert steps == front + [steps[|steps| - 1]];
    }
  }

  lemma {:induction false} FlattenMembers(levels: seq<seq<Step>>, s: Step)
    ensures s in Flatten(levels) <==> exists k | 0 <= k < |levels| :: s in levels[k]
  {
    if levels != [] {
      var front := levels[..|levels| - 1];
      FlattenMembers(front, s);
      assert levels[|levels| - 1] == levels[|levels| - 1];
      if s in Flatten(front) {
        var k :| 0 <= k < |front| && s in front[k];
        assert s in levels[k];
      }
      if k :| 0 <= k < |levels| && s in levels[k] {
        assert k < |front| ==> s in front[k];
      }
    }
  }

  // ---------------------------------------------------------------------------------------
  // Facts about chains
  // ---------------------------------------------------------------------------------------

  lemma StepDepends(steps: seq<Step>, i: nat, dependency: string)
    requires UniqueNames(steps) && i < |steps|
    ensures DependsOn(steps, steps[i].name, dependency) <==> dependency in steps[i].dependsOn
  {
    if DependsOn(steps, steps[i].name, dependency) {
      var k :| 0 <= k < |steps| && steps[k].name == steps[i].name && dependency in steps[k].dependsOn;
      assert k == i;
    }
  }

  lemma {:induction false} ExtendChain(steps: seq<Step>, chain: seq<string>, name: string)
    requires Chain(steps, chain) && name in Names(steps)
    requires DependsOn(steps, name, chain[|chain| - 1])
    ensures ChainTo(steps, chain + [name], name)
  {
    var longer := chain + [name];
    forall i | 0 < i < |longer|
      ensures Linked(steps, longer, i)
    {
      if i < |chain| {
        assert Linked(steps, chain, i);
      }
    }
  }

  lemma SubchainIsChain(steps: seq<Step>, chain: seq<string>, lo: nat, hi: nat)
    requires Chain(steps, chain) && lo < hi <= |chain|
    ensures Chain(steps, chain[lo..hi])
  {
    var part := chain[lo..hi];
    forall k | 0 < k < |part|
      ensures Linked(steps, part, k)
    {
      assert Linked(steps, chain, lo + k);
    }
  }

  lemma ChainFront(steps: seq<Step>, chain: seq<string>)
    requires Chain(steps, chain) && |chain| > 1
    ensures ChainTo(steps, chain[..|chain| - 1], chain[|chain| - 2])
    ensures DependsOn(steps, chain[|chain| - 1], chain[|chain| - 2])
  {
    SubchainIsChain(steps, chain, 0, |chain| - 1);
    assert Linked(steps, chain, |chain| - 1);
  }

  /** A dependency's longest chain is strictly shorter. */
  lemma {:induction false} DependencyIsShorter(steps: seq<Step>, name: string, dependency: string, m: nat, n: nat)
    requires name in Names(steps) && DependsOn(steps, name, dependency)
    requires LongestChain(steps, dependency, m) && LongestChain(steps, name, n)
    ensures m < n
  {
    var chain :| ChainTo(steps, chain, dependency) && |chain| == m + 1;
    ExtendChain(steps, chain, name);
  }

  lemma LongestChainIsUnique(steps: seq<Step>, name: string, m: nat, n: nat)
    requires LongestChain(steps, name, m) && LongestChain(steps, name, n)
    ensures m == n
  {
  }

  /** A chain to a name on a cycle, continued once around it, is a longer chain to that name. */
  lemma GoAround(steps: seq<Step>, cycle: seq<string>, chain: seq<string>)
    requires IsCycle(steps, cycle) && ChainTo(steps, chain, cycle[0])
    ensures ChainTo(steps, chain + cycle[1..], cycle[0])
  {
    var around := chain + cycle[1..];
    forall i | 0 < i < |around|
      ensures Linked(steps, around, i)
    {
      if i < |chain| {
        assert Linked(steps, chain, i);
      } else {
        assert Linked(steps, cycle, i - |chain| + 1);
      }
    }
  }

  lemma CycleHasNoLongestChain(steps: seq<Step>, cycle: seq<string>, n: nat)
    requires IsCycle(steps, cycle)
    ensures !LongestChain(steps, cycle[0], n)
  {
    if LongestChain(steps, cycle[0], n) {
      var chain :| ChainTo(steps, chain, cycle[0]) && |chain| == n + 1;
      GoAround(steps, cycle, chain);
    }
  }

  ghost predicate WaitsWithin(steps: seq<Step>, open: set<string>, name: string) {
    exists d :: d in open && DependsOn(steps, name, d)
  }

  /** If every name in `open` depends on a name in `open`, chains inside `open` of every
      length end at each of them. */
  lemma {:induction false} WalkBack(steps: seq<Step>, open: set<string>, name: string, edges: nat)
    returns (chain: seq<string>)
    requires open <= Names(steps) && name in open
    requires forall s {:trigger WaitsWithin(steps, open, s)} | s in open :: WaitsWithin(steps, open, s)
    ensures ChainTo(steps, chain, name) && |chain| == edges + 1
    ensures forall i | 0 <= i < |chain| :: chain[i] in open
    decreases edges
  {
    if edges == 0 {
      chain := [name];
    } else {
      assert WaitsWithin(steps, open, name);
      var d :| d in open && DependsOn(steps, name, d);
      var shorter := WalkBack(steps, open, d, edges - 1);
      ExtendChain(steps, shorter, name);
      chain := shorter + [name];
    }
  }

  lemma {:induction false} Pigeonhole(items: seq<string>, holes: set<string>) returns (i: nat, j: nat)
    requires |items| > |holes|
    requires forall k | 0 <= k < |items| :: items[k] in holes
    ensures i < j < |items| && items[i] == items[j]
    decreases |items|
  {
    var last := items[|items| - 1];
    if k :| 0 <= k < |items| - 1 && items[k] == last {
      i, j := k, |items| - 1;
    } else {
      i, j := Pigeonhole(items[..|items| - 1], holes - {last});
    }
  }

  /** Steps that all wait on each other contain a cycle. */
  lemma WaitingStepsContainACycle(steps: seq<Step>, open: set<string>) returns (cycle: seq<string>)
    requires open <= Names(steps) && open != {}
    requires forall s {:trigger WaitsWithin(steps, open, s)} | s in open :: WaitsWithin(steps, open, s)
    ensures IsCycle(steps, cycle)
    ensures forall i | 0 <= i < |cycle| :: cycle[i] in open
  {
    var name :| name in open;
    var chain := WalkBack(steps, open, name, |open|);
    var i, j := Pigeonhole(chain, open);
    cycle := chain[i..j + 1];
    SubchainIsChain(steps, chain, i, j + 1);
  }

  // ---------------------------------------------------------------------------------------
  // Consequences of the specification
  // ---------------------------------------------------------------------------------------

  lemma LayeringHolds(steps: seq<Step>, levels: seq<seq<Step>>, name: string) returns (k: nat, s: Step)
    requires IsLayering(steps, levels) && name in Names(steps)
    ensures k < |levels| && s in levels[k] && s.name == name
  {
    var i := NameIndex(steps, name);
    s := steps[i];
    assert s in multiset(Flatten(levels));
    FlattenMembers(levels, s);
    k :| 0 <= k < |levels| && s in levels[k];
  }

  /** Every dependency of a step lies in a strictly earlier level. */
  lemma DependenciesLieEarlier(steps: seq<Step>, levels: seq<seq<Step>>, k: nat, s: Step, dependency: string)
    requires UniqueNames(steps) && KnownDependencies(steps) && IsLayering(steps, levels)
    requires k < |levels| && s in levels[k] && dependency in s.dependsOn
    ensures exists j, d :: 0 <= j < k && d in levels[j] && d.name == dependency
  {
    FlattenMembers(levels, s);
    assert s in multiset(steps);
    var i :| 0 <= i < |steps| && steps[i] == s;
    StepDepends(steps, i, dependency);
    var j, d := LayeringHolds(steps, levels, dependency);
    assert LongestChain(steps, d.name, j) && LongestChain(steps, s.name, k);
    DependencyIsShorter(steps, s.name, dependency, j, k);
  }

  /** A layering exists only for an acyclic workflow. */
  lemma LayeringMeansAcyclic(steps: seq<Step>, levels: seq<seq<Step>>)
    requires IsLayering(steps, levels)
    ensures Acyclic(steps)
  {
    if cycle :| IsCycle(steps, cycle) {
      assert cycle[0] in Names(steps);
      var k, s := LayeringHolds(steps, levels, cycle[0]);
      assert LongestChain(steps, s.name, k);
      CycleHasNoLongestChain(steps, cycle, k);
    }
  }

  lemma {:induction false} LevelNameHasRank(steps: seq<Step>, levels: seq<seq<Step>>, k: nat, name: string)
    requires IsLayering(steps, levels) && k < |levels| && name in Names(levels[k])
    ensures name in Names(steps) && LongestChain(steps, name, k)
  {
    var j := NameIndex(levels[k], name);
    var s := levels[k][j];
    assert s in levels[k];
    FlattenMembers(levels, s);
    assert s in multiset(steps);
    var i :| 0 <= i < |steps| && steps[i] == s;
  }

  lemma {:induction false} RankedNameIsInLevel(steps: seq<Step>, levels: seq<seq<Step>>, k: nat, name: string)
    requires IsLayering(steps, levels) && name in Names(steps) && LongestChain(steps, name, k)
    ensures k < |levels| && name in Names(levels[k])
  {
    var j, s := LayeringHolds(steps, levels, name);
    assert LongestChain(steps, s.name, j);
    LongestChainIsUnique(steps, name, j, k);
    var p :| 0 <= p < |levels[j]| && levels[j][p] == s;
  }

  lemma LayeringsAgreeOn(steps: seq<Step>, one: seq<seq<Step>>, two: seq<seq<Step>>, k: nat)
    requires IsLayering(steps, one) && IsLayering(steps, two)
    requires k < |one|
    ensures k < |two| && one[k] == two[k]
  {
    var first := one[k][0].name;
    assert first in Names(one[k]);
    LevelNameHasRank(steps, one, k, first);
    RankedNameIsInLevel(steps, two, k, first);
    forall name: string
      ensures name in Names(one[k]) <==> name in Names(two[k])
    {
      if name in Names(one[k]) {
        LevelNameHasRank(steps, one, k, name);
        RankedNameIsInLevel(steps, two, k, name);
      }
      if name in Names(two[k]) {
        LevelNameHasRank(steps, two, k, name);
        RankedNameIsInLevel(steps, one, k, name);
      }
    }
    assert Names(one[k]) == Names(two[k]);
  }

  /** The specification leaves nothing open: a workflow has at most one layering. */
  lemma LayeringIsUnique(steps: seq<Step>, one: seq<seq<Step>>, two: seq<seq<Step>>)
    requires IsLayering(steps, one) && IsLayering(steps, two)
    ensures one == two
  {
    forall k | 0 <= k < |one|
      ensures k < |two| && one[k] == two[k]
    {
      LayeringsAgreeOn(steps, one, two, k);
    }
    if |one| < |two| {
      LayeringsAgreeOn(steps, two, one, |one|);
    }
    if |one| > 0 {
      LayeringsAgreeOn(steps, one, two, |one| - 1);
    }
  }

  // ---------------------------------------------------------------------------------------
  // The mutable dependency graph
  // ---------------------------------------------------------------------------------------

  /** How many entries of `dependsOn`, repeats included, are still to be consumed. */
  function Pending(dependsOn: seq<string>, done: set<string>): nat {
    if dependsOn == [] then 0
    else
      var n := |dependsOn| - 1;
      Pending(dependsOn[..n], done) + if dependsOn[n] in done then 0 else 1
  }

  /** How many times `name` is listed. */
  function Count(names: seq<string>, name: string): nat {
    if names == [] then 0
    else
      var n := |names| - 1;
      Count(names[..n], name) + if names[n] == name then 1 else 0
  }

  lemma {:induction false} CountUpTo(names: seq<string>, k: nat, name: string)
    requires k < |names|
    ensures Count(names[..k + 1], name) == Count(names[..k], name) + if names[k] == name then 1 else 0
  {
    assert names[..k + 1][..k] == names[..k];
  }

  lemma {:induction false} CountOfPrefix(names: seq<string>, k: nat, name: string)
    requires k <= |names|
    ensures Count(names[..k], name) <= Count(names, name)
    decreases |names|
  {
    if k == |names| {
      assert names[..k] == names;
    } else {
      CountOfPrefix(names[..|names| - 1], k, name);
      assert names[..|names| - 1][..k] == names[..k];
    }
  }

  function Elements(names: seq<string>): set<string> {
    set name | name in names
  }

  lemma ElementsGrow(names: seq<string>, k: nat, done: set<string>)
    requires k < |names|
    ensures done + Elements(names[..k + 1]) == done + Elements(names[..k]) + {names[k]}
  {
    assert names[..k + 1] == names[..k] + [names[k]];
  }

  lemma {:induction false} PendingReleases(dependsOn: seq<string>, done: set<string>, name: string)
    requires name !in done
    ensures Pending(dependsOn, done) == Pending(dependsOn, done + {name}) + Count(dependsOn, name)
  {
    if dependsOn != [] {
      PendingReleases(dependsOn[..|dependsOn| - 1], done, name);
    }
  }

  lemma {:induction false} PendingIsZero(dependsOn: seq<string>, done: set<string>)
    ensures Pending(dependsOn, done) == 0 <==> forall d | d in dependsOn :: d in done
  {
    if dependsOn != [] {
      PendingIsZero(dependsOn[..|dependsOn| - 1], done);
      assert dependsOn == dependsOn[..|dependsOn| - 1] + [dependsOn[|dependsOn| - 1]];
    }
  }

  lemma {:induction false} PendingAtStart(dependsOn: seq<string>)
    ensures Pending(dependsOn, {}) == |dependsOn|
  {
    if dependsOn != [] {
      PendingAtStart(dependsOn[..|dependsOn| - 1]);
    }
  }

  class DependencyGraph {
    var byName: map<string, Step>
    var waitingOn: map<string, int>
    var unblocks: map<string, seq<string>>

    constructor ()
      ensures byName == map[] && waitingOn == map[] && unblocks == map[]
    {
      byName, waitingOn, unblocks := map[], map[], map[];
    }

    function Dependants(name: string): seq<string>
      reads this`unblocks
    {
      if name in unblocks then unblocks[name] else []
    }

    /** The two indexes say what the workflow says, dependency multiplicities included. */
    ghost predicate Indexes(steps: seq<Step>)
      reads this`byName, this`unblocks
    {
      && byName.Keys == Names(steps)
      && (forall i | 0 <= i < |steps| :: byName[steps[i].name] == steps[i])
      && (forall d: string :: IndexesDependants(steps, d))
    }

    ghost predicate IndexesDependants(steps: seq<Step>, d: string)
      reads this`unblocks
    {
      && (forall i | 0 <= i < |steps| ::
            Count(Dependants(d), steps[i].name) == Count(steps[i].dependsOn, d))
      && (forall name | name in Dependants(d) :: name in Names(steps))
    }

    /** `waitingOn` counts unconsumed dependencies with multiplicity, and is -1 once consumed. */
    ghost predicate Counts(steps: seq<Step>, done: set<string>)
      reads this`waitingOn
    {
      && waitingOn.Keys == Names(steps)
      && forall i | 0 <= i < |steps| :: steps[i].name in waitingOn && waitingOn[steps[i].name] ==
             if steps[i].name in done then -1 else Pending(steps[i].dependsOn, done)
    }

    method ReadyNow(steps: seq<Step>) returns (frontier: seq<string>)
      requires waitingOn.Keys == Names(steps)
      ensures forall i | 0 <= i < |steps| :: steps[i].name in frontier <==> waitingOn[steps[i].name] == 0
      ensures Elements(frontier) <= Names(steps)
      ensures UniqueNames(steps) ==> forall i, j | 0 <= i < j < |frontier| :: frontier[i] != frontier[j]
      ensures |frontier| == |Select(steps, Elements(frontier))|
      ensures forall i | 0 <= i < |frontier| :: frontier[i] == Select(steps, Elements(frontier))[i].name
    {
      frontier := [];
      ghost var ready := set name | name in waitingOn && waitingOn[name] == 0;
      for k := 0 to |steps|
        invariant |frontier| == |Select(steps[..k], ready)|
        invariant forall i | 0 <= i < |frontier| :: frontier[i] == Select(steps[..k], ready)[i].name
        invariant forall i | 0 <= i < k :: steps[i].name in ready ==> steps[i].name in frontier
        invariant forall name | name in frontier :: name in ready && exists i | 0 <= i < k :: steps[i].name == name
        invariant UniqueNames(steps) ==> forall i, j | 0 <= i < j < |frontier| :: frontier[i] != frontier[j]
      {
        assert steps[k].name in Names(steps);
        assert steps[..k + 1][..k] == steps[..k];
        if waitingOn[steps[k].name] == 0 {
          frontier := frontier + [steps[k].name];
        }
      }
      assert steps[..|steps|] == steps;
      assert Elements(frontier) == ready by {
        forall name | name in ready
          ensures name in frontier
        {
          var i := NameIndex(steps, name);
        }
      }
    }

    method Consume(frontier: seq<string>, ghost steps: seq<Step>, ghost done: set<string>)
      returns (level: seq<Step>)
      requires UniqueNames(steps) && Indexes(steps) && Counts(steps, done)
      requires Elements(frontier) <= Names(steps) && Elements(frontier) !! done
      requires forall i, j | 0 <= i < j < |frontier| :: frontier[i] != frontier[j]
      modifies this`waitingOn
      ensures Counts(steps, done + Elements(frontier))
      ensures |level| == |frontier|
      ensures forall i | 0 <= i < |frontier| :: level[i] in steps && level[i].name == frontier[i]
    {
      level := Take(frontier, steps, done);
      ghost var taken := done + Elements(frontier);
      for k := 0 to |frontier|
        invariant CountsWhere(steps, taken, done + Elements(frontier[..k]))
      {
        assert frontier[k] in Elements(frontier);
        assert frontier[k] !in Elements(frontier[..k]);
        assert IndexesDependants(steps, frontier[k]);
        Release(frontier[k], steps, taken, done + Elements(frontier[..k]));
        ElementsGrow(frontier, k, done);
      }
      assert frontier[..|frontier|] == frontier;
    }

    /** The first pass: the frontier becomes a level and is marked consumed. */
    method Take(frontier: seq<string>, ghost steps: seq<Step>, ghost done: set<string>)
      returns (level: seq<Step>)
      requires Indexes(steps) && Counts(steps, done)
      requires Elements(frontier) <= Names(steps)
      modifies this`waitingOn
      ensures CountsWhere(steps, done + Elements(frontier), done + Elements([]))
      ensures |level| == |frontier|
      ensures forall i | 0 <= i < |frontier| :: level[i] in steps && level[i].name == frontier[i]
    {
      level := [];
      assert done + Elements([]) == done;
      for k := 0 to |frontier|
        invariant CountsWhere(steps, done + Elements(frontier[..k]), done)
        invariant |level| == k
        invariant forall i | 0 <= i < k :: level[i] in steps && level[i].name == frontier[i]
      {
        var name := frontier[k];
        assert name in Elements(frontier);
        ghost var p := NameIndex(steps, name);
        level := level + [byName[name]];
        waitingOn := waitingOn[name := -1];
        ElementsGrow(frontier, k, done);
      }
      assert frontier[..|frontier|] == frontier;
    }

    /** As `Counts`, while `taken` is already marked and only `released` is discounted. */
    ghost predicate CountsWhere(steps: seq<Step>, taken: set<string>, released: set<string>)
      reads this`waitingOn
    {
      && waitingOn.Keys == Names(steps)
      && forall i | 0 <= i < |steps| :: steps[i].name in waitingOn && waitingOn[steps[i].name] ==
             if steps[i].name in taken then -1 else Pending(steps[i].dependsOn, released)
    }

    method Release(name: string, ghost steps: seq<Step>, ghost taken: set<string>, ghost released: set<string>)
      requires UniqueNames(steps) && IndexesDependants(steps, name) && CountsWhere(steps, taken, released)
      requires name !in released
      modifies this`waitingOn
      ensures CountsWhere(steps, taken, released + {name})
    {
      var dependants := Dependants(name);
      for j := 0 to |dependants|
        invariant CountsMidway(steps, taken, released, dependants[..j])
      {
        assert dependants[j] in dependants;
        CountDown(dependants, j, name, steps, taken, released);
      }
      assert dependants[..|dependants|] == dependants;
      forall i | 0 <= i < |steps|
        ensures Pending(steps[i].dependsOn, released)
             == Pending(steps[i].dependsOn, released + {name}) + Count(dependants, steps[i].name)
      {
        PendingReleases(steps[i].dependsOn, released, name);
      }
    }

    /** `dependants` have been told that one more of their dependencies is consumed. */
    ghost predicate CountsMidway(steps: seq<Step>, taken: set<string>, released: set<string>, dependants: seq<string>)
      reads this`waitingOn
    {
      && waitingOn.Keys == Names(steps)
      && forall i | 0 <= i < |steps| :: steps[i].name in waitingOn && waitingOn[steps[i].name] ==
             if steps[i].name in taken then -1
             else Pending(steps[i].dependsOn, released) - Count(dependants, steps[i].name)
    }

    method CountDown(dependants: seq<string>, j: nat, ghost name: string,
                     ghost steps: seq<Step>, ghost taken: set<string>, ghost released: set<string>)
      requires UniqueNames(steps) && j < |dependants| && name !in released
      requires dependants[j] in Names(steps)
      requires forall i | 0 <= i < |steps| :: Count(dependants, steps[i].name) == Count(steps[i].dependsOn, name)
      requires CountsMidway(steps, taken, released, dependants[..j])
      modifies this`waitingOn
      ensures CountsMidway(steps, taken, released, dependants[..j + 1])
    {
      var dependant := dependants[j];
      ghost var p := NameIndex(steps, dependant);
      PendingReleases(steps[p].dependsOn, released, name);
      CountOfPrefix(dependants, j + 1, dependant);
      forall i | 0 <= i < |steps|
        ensures Count(dependants[..j + 1], steps[i].name)
             == Count(dependants[..j], steps[i].name) + if steps[i].name == dependant then 1 else 0
      {
        CountUpTo(dependants, j, steps[i].name);
      }
      if waitingOn[dependant] > 0 {
        waitingOn := waitingOn[dependant := waitingOn[dependant] - 1];
      }
    }

    // -------------------------------------------------------------------------------------
    // Building the indexes
    // -------------------------------------------------------------------------------------

    method IndexNames(steps: seq<Step>) returns (duplicate: seq<string>)
      requires byName == map[] && waitingOn == map[]
      modifies this`byName, this`waitingOn
      ensures duplicate == [] ==>
                && UniqueNames(steps) && byName.Keys == Names(steps) && waitingOn.Keys == Names(steps)
                && forall i | 0 <= i < |steps| :: byName[steps[i].name] == steps[i] && waitingOn[steps[i].name] == 0
      ensures duplicate != [] ==> |duplicate| == 1 && !UniqueNames(steps) && FirstRepeated(steps, duplicate[0])
    {
      duplicate := [];
      for k := 0 to |steps|
        invariant NamesIndexed(steps, k)
      {
        if steps[k].name in byName {
          ghost var j := NameIndex(steps[..k], steps[k].name);
          assert steps[j].name == steps[k].name;
          assert RepeatedAt(steps, k, steps[k].name);
          return [steps[k].name];
        }
        AddName(steps, k);
      }
      assert steps[..|steps|] == steps;
    }

    ghost predicate NamesIndexed(steps: seq<Step>, k: nat)
      reads this`byName, this`waitingOn
    {
      && k <= |steps| && UniqueNames(steps[..k])
      && byName.Keys == Names(steps[..k]) && waitingOn.Keys == Names(steps[..k])
      && forall i | 0 <= i < k ::
           && steps[i].name in byName && byName[steps[i].name] == steps[i]
           && steps[i].name in waitingOn && waitingOn[steps[i].name] == 0
    }

    method AddName(steps: seq<Step>, k: nat)
      requires k < |steps| && NamesIndexed(steps, k) && steps[k].name !in byName
      modifies this`byName, this`waitingOn
      ensures NamesIndexed(steps, k + 1)
    {
      NamesGrow(steps, k);
      byName := byName[steps[k].name := steps[k]];
      waitingOn := waitingOn[steps[k].name := 0];
      assert steps[..k + 1] == steps[..k] + [steps[k]];
      forall i | 0 <= i < k
        ensures steps[i].name != steps[k].name
      {
        assert steps[..k][i].name in Names(steps[..k]);
      }
    }

    /** `unblocks` and `waitingOn` after the dependencies `Seen` so far. */
    ghost predicate IndexedSoFar(steps: seq<Step>, i: nat, j: nat)
      requires i <= |steps| && (i < |steps| ==> j <= |steps[i].dependsOn|)
      reads this`unblocks, this`waitingOn
    {
      && WaitingSoFar(steps, i, j)
      && (forall p, d | 0 <= p < |steps| && d in Seen(steps, i, j, p) :: d in Names(steps))
      && AllDependantsSoFar(steps, i, j)
    }

    ghost predicate AllDependantsSoFar(steps: seq<Step>, i: nat, j: nat)
      requires i <= |steps| && (i < |steps| ==> j <= |steps[i].dependsOn|)
      reads this`unblocks
    {
      forall d :: DependantsSoFar(steps, i, j, d)
    }

    ghost predicate WaitingSoFar(steps: seq<Step>, i: nat, j: nat)
      requires i <= |steps| && (i < |steps| ==> j <= |steps[i].dependsOn|)
      reads this`waitingOn
    {
      && waitingOn.Keys == Names(steps)
      && (forall p | 0 <= p < |steps| ::
            steps[p].name in waitingOn && waitingOn[steps[p].name] == |Seen(steps, i, j, p)|)
    }

    ghost predicate DependantsSoFar(steps: seq<Step>, i: nat, j: nat, d: string)
      requires i <= |steps| && (i < |steps| ==> j <= |steps[i].dependsOn|)
      reads this`unblocks
    {
      && (forall p | 0 <= p < |steps| ::
            Count(Dependants(d), steps[p].name) == Count(Seen(steps, i, j, p), d))
      && (forall name | name in Dependants(d) :: name in Names(steps))
    }

    method AddEdge(steps: seq<Step>, i: nat, j: nat)
      requires UniqueNames(steps) && i < |steps| && j < |steps[i].dependsOn|
      requires IndexedSoFar(steps, i, j) && steps[i].dependsOn[j] in Names(steps)
      modifies this`unblocks, this`waitingOn
      ensures IndexedSoFar(steps, i, j + 1)
    {
      SeenGrows(steps, i, j);
      CountUp(steps, i, j);
      AddDependant(steps, i, j);
    }

    method CountUp(steps: seq<Step>, i: nat, j: nat)
      requires UniqueNames(steps) && i < |steps| && j < |steps[i].dependsOn|
      requires WaitingSoFar(steps, i, j)
      modifies this`waitingOn
      ensures WaitingSoFar(steps, i, j + 1)
    {
      waitingOn := waitingOn[steps[i].name := waitingOn[steps[i].name] + 1];
    }

    method AddDependant(steps: seq<Step>, i: nat, j: nat)
      requires UniqueNames(steps) && i < |steps| && j < |steps[i].dependsOn|
      requires AllDependantsSoFar(steps, i, j)
      modifies this`unblocks
      ensures AllDependantsSoFar(steps, i, j + 1)
    {
      ghost var next := j + 1;
      var dependency := steps[i].dependsOn[j];
      unblocks := unblocks[dependency := Dependants(dependency) + [steps[i].name]];
      forall d
        ensures DependantsSoFar(steps, i, next, d)
      {
        assert old(DependantsSoFar(steps, i, j, d));
        EdgeCounts(steps, i, j, d, old(Dependants(d)));
      }
    }

    method IndexDependencies(steps: seq<Step>) returns (unknown: seq<string>)
      requires UniqueNames(steps) && byName.Keys == Names(steps) && waitingOn.Keys == Names(steps)
      requires forall i | 0 <= i < |steps| :: waitingOn[steps[i].name] == 0
      requires unblocks == map[]
      modifies this`unblocks, this`waitingOn
      ensures unknown == [] ==>
                && KnownDependencies(steps) && Counts(steps, {})
                && forall d: string :: IndexesDependants(steps, d)
      ensures unknown != [] ==> |unknown| == 2 && !KnownDependencies(steps) && FirstUnknown(steps, unknown[0], unknown[1])
    {
      unknown := [];
      assert IndexedSoFar(steps, 0, 0);
      for i := 0 to |steps|
        invariant IndexedSoFar(steps, i, 0)
      {
        for j := 0 to |steps[i].dependsOn|
          invariant IndexedSoFar(steps, i, j)
        {
          if steps[i].dependsOn[j] !in byName {
            assert steps[i].dependsOn[j] in steps[i].dependsOn;
            SeenAreKnown(steps, i, j);
            assert UnknownAt(steps, i, j, steps[i].name, steps[i].dependsOn[j]);
            return [steps[i].name, steps[i].dependsOn[j]];
          }
          AddEdge(steps, i, j);
        }
        assert steps[i].dependsOn[..|steps[i].dependsOn|] == steps[i].dependsOn;
        NextStep(steps, i);
      }
      AllIndexed(steps);
    }

    lemma {:induction false} SeenAreKnown(steps: seq<Step>, i: nat, j: nat)
      requires i < |steps| && j <= |steps[i].dependsOn| && IndexedSoFar(steps, i, j)
      ensures forall p, q | 0 <= p < i && 0 <= q < |steps[p].dependsOn| :: steps[p].dependsOn[q] in Names(steps)
      ensures forall q | 0 <= q < j :: steps[i].dependsOn[q] in Names(steps)
    {
      forall p, q | 0 <= p < i && 0 <= q < |steps[p].dependsOn|
        ensures steps[p].dependsOn[q] in Names(steps)
      {
        assert Seen(steps, i, j, p)[q] == steps[p].dependsOn[q];
      }
      forall q | 0 <= q < j
        ensures steps[i].dependsOn[q] in Names(steps)
      {
        assert Seen(steps, i, j, i)[q] == steps[i].dependsOn[q];
      }
    }

    lemma NextStep(steps: seq<Step>, i: nat)
      requires i < |steps| && IndexedSoFar(steps, i, |steps[i].dependsOn|)
      ensures IndexedSoFar(steps, i + 1, 0)
    {
      assert steps[i].dependsOn[..|steps[i].dependsOn|] == steps[i].dependsOn;
      forall p | 0 <= p < |steps|
        ensures Seen(steps, i + 1, 0, p) == Seen(steps, i, |steps[i].dependsOn|, p)
      {
      }
      var next := i + 1;
      forall d
        ensures DependantsSoFar(steps, next, 0, d)
      {
        assert DependantsSoFar(steps, i, |steps[i].dependsOn|, d);
      }
    }

    lemma AllIndexed(steps: seq<Step>)
      requires IndexedSoFar(steps, |steps|, 0)
      ensures KnownDependencies(steps) && Counts(steps, {})
      ensures forall d: string :: IndexesDependants(steps, d)
    {
      forall p | 0 <= p < |steps|
        ensures Pending(steps[p].dependsOn, {}) == |Seen(steps, |steps|, 0, p)|
      {
        PendingAtStart(steps[p].dependsOn);
      }
      forall p, d | 0 <= p < |steps| && d in steps[p].dependsOn
        ensures d in Names(steps)
      {
        assert d in Seen(steps, |steps|, 0, p);
      }
      forall d: string
        ensures IndexesDependants(steps, d)
      {
        assert DependantsSoFar(steps, |steps|, 0, d);
      }
    }
  }

  /** The first name met a second time. */
  ghost predicate FirstRepeated(steps: seq<Step>, name: string) {
    exists k: nat :: RepeatedAt(steps, k, name)
  }

  ghost predicate RepeatedAt(steps: seq<Step>, k: nat, name: string) {
    k < |steps| && UniqueNames(steps[..k]) && steps[k].name == name && name in Names(steps[..k])
  }

  /** The first dependency, in the order steps and their lists are written, on no step's name. */
  ghost predicate FirstUnknown(steps: seq<Step>, name: string, dependency: string) {
    exists i: nat, j: nat :: UnknownAt(steps, i, j, name, dependency)
  }

  ghost predicate UnknownAt(steps: seq<Step>, i: nat, j: nat, name: string, dependency: string) {
    && i < |steps| && j < |steps[i].dependsOn| && steps[i].name == name && steps[i].dependsOn[j] == dependency
    && dependency !in Names(steps)
    && (forall p, q | 0 <= p < i && 0 <= q < |steps[p].dependsOn| :: steps[p].dependsOn[q] in Names(steps))
    && (forall q | 0 <= q < j :: steps[i].dependsOn[q] in Names(steps))
  }

  /** The dependencies of step `p` read once steps before `i`, and `j` entries of `i`, are. */
  ghost function Seen(steps: seq<Step>, i: nat, j: nat, p: nat): seq<string>
    requires i <= |steps| && p < |steps| && (i < |steps| ==> j <= |steps[i].dependsOn|)
  {
    if p < i then steps[p].dependsOn else if p == i then steps[p].dependsOn[..j] else []
  }

  lemma SeenGrows(steps: seq<Step>, i: nat, j: nat)
    requires i < |steps| && j < |steps[i].dependsOn|
    ensures forall p | 0 <= p < |steps| :: Seen(steps, i, j + 1, p) ==
              if p == i then Seen(steps, i, j, p) + [steps[i].dependsOn[j]] else Seen(steps, i, j, p)
  {
  }

  lemma EdgeCounts(steps: seq<Step>, i: nat, j: nat, d: string, before: seq<string>)
    requires UniqueNames(steps) && i < |steps| && j < |steps[i].dependsOn|
    requires forall p | 0 <= p < |steps| :: Count(before, steps[p].name) == Count(Seen(steps, i, j, p), d)
    ensures var after := if d == steps[i].dependsOn[j] then before + [steps[i].name] else before;
            forall p | 0 <= p < |steps| :: Count(after, steps[p].name) == Count(Seen(steps, i, j + 1, p), d)
  {
    assert (before + [steps[i].name])[..|before|] == before;
    CountUpTo(steps[i].dependsOn, j, d);
  }

  lemma NamesGrow(steps: seq<Step>, k: nat)
    requires k < |steps|
    ensures Names(steps[..k + 1]) == Names(steps[..k]) + {steps[k].name}
  {
    assert steps[..k + 1][..k] == steps[..k];
  }

  // ---------------------------------------------------------------------------------------
  // The sort itself
  // ---------------------------------------------------------------------------------------

  /** What holds between two rounds: `done` are exactly the names whose longest chain is
      shorter than the number of levels so far, and they fill those levels. */
  ghost predicate Progress(steps: seq<Step>, levels: seq<seq<Step>>, done: set<string>) {
    && done <= Names(steps)
    && Layered(steps, levels, done)
    && RanksSplitAt(steps, |levels|, done)
  }

  ghost predicate Layered(steps: seq<Step>, levels: seq<seq<Step>>, done: set<string>) {
    && multiset(Flatten(levels)) == multiset(Select(steps, done))
    && Shaped(steps, levels)
  }

  /** Names in `done` have a longest chain shorter than `bound`; the others have one that long. */
  ghost predicate RanksSplitAt(steps: seq<Step>, bound: nat, done: set<string>) {
    && (forall name {:trigger RankedBelow(steps, name, bound)} | name in done :: RankedBelow(steps, name, bound))
    && (forall name {:trigger HasChainOfLength(steps, name, bound)} | name in Names(steps) - done ::
          HasChainOfLength(steps, name, bound))
  }

  ghost predicate RankedBelow(steps: seq<Step>, name: string, bound: nat) {
    exists k | 0 <= k < bound :: LongestChain(steps, name, k)
  }

  ghost predicate DependenciesWithin(steps: seq<Step>, name: string, done: set<string>) {
    forall d :: DependsOn(steps, name, d) ==> d in done
  }

  /** A name outside `done` whose dependencies are all in `done` has its longest chain now. */
  lemma {:induction false} FrontierRank(steps: seq<Step>, bound: nat, done: set<string>, name: string)
    requires RanksSplitAt(steps, bound, done)
    requires name in Names(steps) - done && DependenciesWithin(steps, name, done)
    ensures LongestChain(steps, name, bound)
  {
    forall chain | ChainTo(steps, chain, name)
      ensures |chain| <= bound + 1
    {
      if |chain| > 1 {
        ChainFront(steps, chain);
        var d := chain[|chain| - 2];
        assert d in done && RankedBelow(steps, d, bound);
        var k :| 0 <= k < bound && LongestChain(steps, d, k);
      }
    }
  }

  /** A name still waiting has a chain one longer than the round before. */
  lemma {:induction false} WaitingRank(steps: seq<Step>, bound: nat, done: set<string>, name: string)
    requires KnownDependencies(steps) && RanksSplitAt(steps, bound, done)
    requires name in Names(steps) && !DependenciesWithin(steps, name, done)
    ensures HasChainOfLength(steps, name, bound + 1)
  {
    var d :| DependsOn(steps, name, d) && d !in done;
    assert d in Names(steps) - done;
    assert HasChainOfLength(steps, d, bound);
    var chain :| ChainTo(steps, chain, d) && |chain| == bound + 1;
    ExtendChain(steps, chain, name);
  }

  ghost predicate IsFrontier(steps: seq<Step>, done: set<string>, frontier: set<string>) {
    && frontier <= Names(steps) && frontier !! done
    && forall name | name in Names(steps) - done ::
         name in frontier <==> DependenciesWithin(steps, name, done)
  }

  /** Consuming exactly the ready names keeps `Progress`. */
  lemma {:induction false} ProgressStep(steps: seq<Step>, levels: seq<seq<Step>>, done: set<string>,
                                        frontier: set<string>)
    requires KnownDependencies(steps) && Progress(steps, levels, done)
    requires frontier != {} && IsFrontier(steps, done, frontier)
    ensures Progress(steps, levels + [Select(steps, frontier)], done + frontier)
  {
    RanksAfterRound(steps, |levels|, done, frontier);
    LevelRank(steps, |levels|, done, frontier);
    LayeredStep(steps, levels, done, frontier);
  }

  lemma {:induction false} LayeredStep(steps: seq<Step>, levels: seq<seq<Step>>, done: set<string>,
                                       frontier: set<string>)
    requires Layered(steps, levels, done)
    requires frontier != {} && frontier <= Names(steps) && frontier !! done
    requires forall s | s in Select(steps, frontier) :: LongestChain(steps, s.name, |levels|)
    ensures Layered(steps, levels + [Select(steps, frontier)], done + frontier)
  {
    FlattenStep(steps, levels, done, frontier);
    LevelOfFrontier(steps, frontier);
    ShapedStep(steps, levels, Select(steps, frontier));
  }

  lemma {:induction false} LevelOfFrontier(steps: seq<Step>, frontier: set<string>)
    requires frontier != {} && frontier <= Names(steps)
    ensures Select(steps, frontier) != [] && Names(Select(steps, frontier)) == frontier
  {
    SelectNames(steps, frontier);
    var name :| name in frontier;
    assert name in Names(Select(steps, frontier));
  }

  lemma ShapedStep(steps: seq<Step>, levels: seq<seq<Step>>, level: seq<Step>)
    requires Shaped(steps, levels)
    requires LevelShape(steps, level, |levels|)
    ensures Shaped(steps, levels + [level])
  {
    var more := levels + [level];
    forall k | 0 <= k < |more|
      ensures LevelShape(steps, more[k], k)
    {
      assert k < |levels| ==> LevelShape(steps, levels[k], k);
    }
  }

  lemma {:induction false} FlattenStep(steps: seq<Step>, levels: seq<seq<Step>>, done: set<string>,
                                       frontier: set<string>)
    requires multiset(Flatten(levels)) == multiset(Select(steps, done)) && frontier !! done
    ensures multiset(Flatten(levels + [Select(steps, frontier)])) == multiset(Select(steps, done + frontier))
  {
    var more := levels + [Select(steps, frontier)];
    assert more[..|more| - 1] == levels;
    SelectSplits(steps, done, frontier);
  }

  lemma {:induction false} LevelRank(steps: seq<Step>, bound: nat, done: set<string>, frontier: set<string>)
    requires RanksSplitAt(steps, bound, done) && IsFrontier(steps, done, frontier)
    ensures forall s | s in Select(steps, frontier) :: LongestChain(steps, s.name, bound)
  {
    SelectMembers(steps, frontier);
    forall s | s in Select(steps, frontier)
      ensures LongestChain(steps, s.name, bound)
    {
      FrontierRank(steps, bound, done, s.name);
    }
  }

  lemma RanksAfterRound(steps: seq<Step>, bound: nat, done: set<string>, frontier: set<string>)
    requires KnownDependencies(steps) && RanksSplitAt(steps, bound, done)
    requires IsFrontier(steps, done, frontier)
    ensures RanksSplitAt(steps, bound + 1, done + frontier)
  {
    forall name | name in done + frontier
      ensures RankedBelow(steps, name, bound + 1)
    {
      if name in frontier {
        FrontierRank(steps, bound, done, name);
      } else {
        assert RankedBelow(steps, name, bound);
      }
    }
    forall name | name in Names(steps) - (done + frontier)
      ensures HasChainOfLength(steps, name, bound + 1)
    {
      WaitingRank(steps, bound, done, name);
    }
  }

  lemma {:induction false} WaitingMeansOpen(steps: seq<Step>, done: set<string>, i: nat)
    requires UniqueNames(steps) && i < |steps|
    ensures Pending(steps[i].dependsOn, done) == 0 <==> DependenciesWithin(steps, steps[i].name, done)
  {
    PendingIsZero(steps[i].dependsOn, done);
    forall d
      ensures DependsOn(steps, steps[i].name, d) <==> d in steps[i].dependsOn
    {
      StepDepends(steps, i, d);
    }
  }

  lemma DoneHasABottom(steps: seq<Step>, bound: nat, name: string)
    requires RankedBelow(steps, name, bound)
    ensures !Bottomless(steps, name)
  {
    var k :| 0 <= k < bound && LongestChain(steps, name, k);
    assert !HasChainOfLength(steps, name, k + 1);
  }

  lemma {:induction false} StuckMeansWaiting(steps: seq<Step>, done: set<string>)
    requires KnownDependencies(steps)
    requires forall name | name in Names(steps) - done :: !DependenciesWithin(steps, name, done)
    ensures forall name | name in Names(steps) - done :: WaitsWithin(steps, Names(steps) - done, name)
  {
    forall s | s in Names(steps) - done
      ensures WaitsWithin(steps, Names(steps) - done, s)
    {
      var d :| DependsOn(steps, s, d) && d !in done;
      assert d in Names(steps) - done;
    }
  }

  /** With no name ready, the names left over are those that wait on a cycle, and they hold one. */
  lemma {:induction false} StuckMeansCycle(steps: seq<Step>, bound: nat, done: set<string>)
    requires KnownDependencies(steps) && RanksSplitAt(steps, bound, done)
    requires done <= Names(steps) && Names(steps) - done != {}
    requires forall name | name in Names(steps) - done :: !DependenciesWithin(steps, name, done)
    ensures BottomlessNames(steps) == Names(steps) - done
    ensures exists cycle :: IsCycle(steps, cycle) && forall i | 0 <= i < |cycle| :: cycle[i] in Names(steps) - done
  {
    var open := Names(steps) - done;
    StuckMeansWaiting(steps, done);
    BottomlessAreOpen(steps, bound, done);
    var cycle := WaitingStepsContainACycle(steps, open);
  }

  lemma {:induction false} BottomlessAreOpen(steps: seq<Step>, bound: nat, done: set<string>)
    requires RanksSplitAt(steps, bound, done)
    requires forall s {:trigger WaitsWithin(steps, Names(steps) - done, s)} | s in Names(steps) - done ::
               WaitsWithin(steps, Names(steps) - done, s)
    ensures BottomlessNames(steps) == Names(steps) - done
  {
    forall s | s in Names(steps)
      ensures Bottomless(steps, s) <==> s !in done
    {
      if s in done {
        assert RankedBelow(steps, s, bound);
        DoneHasABottom(steps, bound, s);
      } else {
        OpenIsBottomless(steps, Names(steps) - done, s);
      }
    }
  }

  lemma {:induction false} OpenIsBottomless(steps: seq<Step>, open: set<string>, name: string)
    requires open <= Names(steps) && name in open
    requires forall s {:trigger WaitsWithin(steps, open, s)} | s in open :: WaitsWithin(steps, open, s)
    ensures Bottomless(steps, name)
  {
    forall edges: nat
      ensures HasChainOfLength(steps, name, edges)
    {
      var chain := WalkBack(steps, open, name, edges);
    }
  }

  lemma {:induction false} ProgressStarts(steps: seq<Step>)
    ensures Progress(steps, [], {}) && Select(steps, {}) == []
  {
    SelectMembers(steps, {});
    if Select(steps, {}) != [] {
      assert Select(steps, {})[0] in Select(steps, {});
    }
    forall name | name in Names(steps)
      ensures HasChainOfLength(steps, name, 0)
    {
      assert ChainTo(steps, [name], name);
    }
  }

  lemma {:induction false} OpenNames(steps: seq<Step>, done: set<string>)
    requires done <= Names(steps) && |Select(steps, done)| < |steps|
    ensures Names(steps) - done != {}
  {
    if Names(steps) - done == {} {
      forall name | name in Names(steps)
        ensures name in done
      {
        assert name !in Names(steps) - done;
      }
      SelectAll(steps, done);
    }
  }

  lemma {:induction false} SelectGrows(steps: seq<Step>, done: set<string>, frontier: set<string>)
    requires done !! frontier
    ensures |Select(steps, done + frontier)| == |Select(steps, done)| + |Select(steps, frontier)| <= |steps|
  {
    SelectSplits(steps, done, frontier);
    assert |multiset(Select(steps, done + frontier))|
        == |multiset(Select(steps, done)) + multiset(Select(steps, frontier))|;
    SelectBounded(steps, done + frontier);
  }

  lemma {:induction false} StuckResult(steps: seq<Step>, levels: seq<seq<Step>>, done: set<string>)
    requires KnownDependencies(steps) && Progress(steps, levels, done)
    requires |Select(steps, done)| < |steps|
    requires forall name | name in Names(steps) - done :: !DependenciesWithin(steps, name, done)
    ensures |steps| - |Select(steps, done)| == |Select(steps, BottomlessNames(steps))|
    ensures exists cycle :: IsCycle(steps, cycle) &&
              forall i | 0 <= i < |cycle| :: cycle[i] in BottomlessNames(steps)
  {
    OpenNames(steps, done);
    StuckMeansCycle(steps, |levels|, done);
    SelectGrows(steps, done, Names(steps) - done);
    SelectAll(steps, done + (Names(steps) - done));
  }

  lemma {:induction false} LevelIsSelected(steps: seq<Step>, frontier: seq<string>, level: seq<Step>)
    requires UniqueNames(steps)
    requires |level| == |frontier| == |Select(steps, Elements(frontier))|
    requires forall i | 0 <= i < |frontier| :: level[i] in steps && level[i].name == frontier[i]
    requires forall i | 0 <= i < |frontier| :: frontier[i] == Select(steps, Elements(frontier))[i].name
    ensures level == Select(steps, Elements(frontier))
  {
    var chosen := Select(steps, Elements(frontier));
    SelectMembers(steps, Elements(frontier));
    forall i | 0 <= i < |level|
      ensures level[i] == chosen[i]
    {
      assert chosen[i] in chosen;
    }
  }

  /** The names `ReadyNow` reports are the open names whose dependencies are all consumed. */
  lemma {:induction false} ReadyAreOpen(steps: seq<Step>, done: set<string>, frontier: seq<string>,
                                        graph: DependencyGraph)
    requires UniqueNames(steps) && graph.Counts(steps, done)
    requires Elements(frontier) <= Names(steps)
    requires forall i | 0 <= i < |steps| :: steps[i].name in frontier <==> graph.waitingOn[steps[i].name] == 0
    ensures IsFrontier(steps, done, Elements(frontier))
  {
    forall name | name in Names(steps)
      ensures name in Elements(frontier) ==> name !in done
      ensures name !in done ==> (name in Elements(frontier) <==> DependenciesWithin(steps, name, done))
    {
      var i := NameIndex(steps, name);
      WaitingMeansOpen(steps, done, i);
    }
  }

  /** One round of the loop: the next level, or nothing when every step left is waiting. */
  method Round(graph: DependencyGraph, steps: seq<Step>, ghost levels: seq<seq<Step>>, ghost done: set<string>)
    returns (level: seq<Step>, ghost frontierNames: set<string>)
    requires UniqueNames(steps) && KnownDependencies(steps)
    requires graph.Indexes(steps) && graph.Counts(steps, done) && Progress(steps, levels, done)
    modifies graph`waitingOn
    ensures level == [] ==> forall name | name in Names(steps) - done :: !DependenciesWithin(steps, name, done)
    ensures level != [] ==>
              && graph.Counts(steps, done + frontierNames)
              && Progress(steps, levels + [level], done + frontierNames)
              && |Select(steps, done + frontierNames)| == |Select(steps, done)| + |level| <= |steps|
  {
    var frontier := graph.ReadyNow(steps);
    ReadyAreOpen(steps, done, frontier, graph);
    frontierNames := Elements(frontier);
    if |frontier| == 0 {
      return [], frontierNames;
    }
    level := graph.Consume(frontier, steps, done);
    assert frontier[0] in Elements(frontier);
    LevelIsSelected(steps, frontier, level);
    ProgressStep(steps, levels, done, frontierNames);
    SelectGrows(steps, done, frontierNames);
  }

  ghost predicate CycleReport(steps: seq<Step>, remaining: nat) {
    && remaining == |Select(steps, BottomlessNames(steps))|
    && exists cycle :: IsCycle(steps, cycle) &&
         forall i | 0 <= i < |cycle| :: cycle[i] in BottomlessNames(steps)
  }

  method Order(graph: DependencyGraph, steps: seq<Step>) returns (r: LayersResult)
    requires UniqueNames(steps) && KnownDependencies(steps)
    requires graph.Indexes(steps) && graph.Counts(steps, {})
    modifies graph`waitingOn
    ensures r.Ordered? || r.HasCycle?
    ensures r.Ordered? ==> IsLayering(steps, r.levels)
    ensures r.HasCycle? ==> CycleReport(steps, r.remaining)
  {
    var levels := [];
    var remaining := |steps|;
    ghost var done: set<string> := {};
    ProgressStarts(steps);
    while remaining > 0
      invariant graph.Counts(steps, done)
      invariant Progress(steps, levels, done)
      invariant remaining == |steps| - |Select(steps, done)|
    {
      ghost var frontier;
      var level;
      level, frontier := Round(graph, steps, levels, done);
      if |level| == 0 {
        StuckResult(steps, levels, done);
        return HasCycle(remaining);
      }
      levels := levels + [level];
      done := done + frontier;
      remaining := remaining - |level|;
    }
    SelectBounded(steps, done);
    r := Ordered(levels);
  }

  /** Groups a workflow's steps into dependency levels, or says why they cannot be ordered. */
  method Layers(steps: seq<Step>) returns (r: LayersResult)
    ensures r.Ordered? ==> IsLayering(steps, r.levels)
    ensures r.DuplicateStep? <==> !UniqueNames(steps)
    ensures r.DuplicateStep? ==> FirstRepeated(steps, r.name)
    ensures r.UnknownDependency? <==> UniqueNames(steps) && !KnownDependencies(steps)
    ensures r.UnknownDependency? ==> FirstUnknown(steps, r.name, r.dependency)
    ensures r.HasCycle? ==> UniqueNames(steps) && KnownDependencies(steps) && CycleReport(steps, r.remaining)
    ensures r.Ordered? <==> UniqueNames(steps) && KnownDependencies(steps) && Acyclic(steps)
  {
    var graph := new DependencyGraph();
    var duplicate := graph.IndexNames(steps);
    if duplicate != [] {
      return DuplicateStep(duplicate[0]);
    }
    var unknown := graph.IndexDependencies(steps);
    if unknown != [] {
      return UnknownDependency(unknown[0], unknown[1]);
    }
    r := Order(graph, steps);
    if r.Ordered? {
      LayeringMeansAcyclic(steps, r.levels);
    }
  }
}
