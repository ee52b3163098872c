/**
 What every run of registry operations keeps, under one fixed promotion policy.
 */
module RegistryHistory {
  import opened Paths
  import opened Registry

  // ---------------------------------------------------------------------------------------
  // Invariants of an entry
  // ---------------------------------------------------------------------------------------

  predicate Live(v: Version) {
    v.status == Published || v.status == Deprecated
  }

  /** Published at some time: live, or retired since. */
  predicate EverPublished(v: Version) {
    Live(v) || v.status == Demised
  }

  ghost predicate UniqueVersions(e: Entry) {
    forall i, j | 0 <= i < j < |e.versions| :: e.versions[i].version != e.versions[j].version
  }

  ghost predicate OneDefault(e: Entry) {
    forall i, j | 0 <= i < j < |e.versions| :: !(e.versions[i].isDefault && e.versions[j].isDefault)
  }

  /** What the policy asks of a version before it is ever published, and of a default. */
  ghost predicate Earned(policy: PromotionPolicy, v: Version) {
    && (v.isDefault ==> Live(v))
    && (policy.requireTestBeforePromote && (EverPublished(v) || v.status == InReview) ==> v.testPassed)
    && (policy.requiresApproval && policy.requireSoD && EverPublished(v) ==> v.approvedBy != v.proposedBy)
  }

  ghost predicate EntryOk(policy: PromotionPolicy, e: Entry) {
    && UniqueVersions(e) && OneDefault(e)
    && (forall i | 0 <= i < |e.versions| :: Earned(policy, e.versions[i]))
  }

  ghost predicate EntriesOk(policy: PromotionPolicy, entries: Entries) {
    forall key | key in entries :: EntryKey(entries[key].name) == key && EntryOk(policy, entries[key])
  }

  // ---------------------------------------------------------------------------------------
  // How an entry may change
  // ---------------------------------------------------------------------------------------

  /** The artifact itself is fixed, what was published stays so, and retirement is final. */
  ghost predicate SameArtifact(v: Version, w: Version) {
    && w.version == v.version && w.ref == v.ref && w.manifest == v.manifest && w.env == v.env
    && (EverPublished(v) ==> EverPublished(w))
    && (v.status == Deprecated ==> w.status != Published)
    && (v.status == Demised ==> w.status == Demised && !w.isDefault)
  }

  ghost predicate Continues(e: Entry, f: Entry) {
    && f.name == e.name && f.kind == e.kind && f.title == e.title && f.owner == e.owner
    && |e.versions| <= |f.versions|
    && forall i | 0 <= i < |e.versions| :: SameArtifact(e.versions[i], f.versions[i])
  }

  ghost predicate AllContinue(before: Entries, after: Entries) {
    forall key | key in before :: key in after && Continues(before[key], after[key])
  }

  lemma ChangeKeepsVersion(policy: PromotionPolicy, v: Version, change: Change, now: int)
    requires Earned(policy, v) && (v.status == Demised ==> !v.isDefault) && Changed(policy, v, change, now).Ok?
    ensures var w := Changed(policy, v, change, now).value;
            && Earned(policy, w.(updatedAt := now)) && SameArtifact(v, w.(updatedAt := now))
            && (w.isDefault ==> v.isDefault)
  {
  }

  lemma EditKeepsEntry(policy: PromotionPolicy, e: Entry, i: nat, w: Version)
    requires EntryOk(policy, e) && i < |e.versions|
    requires Earned(policy, w) && SameArtifact(e.versions[i], w) && (w.isDefault ==> e.versions[i].isDefault)
    ensures EntryOk(policy, e.(versions := e.versions[i := w])) && Continues(e, e.(versions := e.versions[i := w]))
  {
    var f := e.(versions := e.versions[i := w]);
    forall j | 0 <= j < |f.versions|
      ensures Earned(policy, f.versions[j]) && SameArtifact(e.versions[j], f.versions[j])
    {
      assert Earned(policy, e.versions[j]);
    }
  }

  lemma SavingKeepsEntries(policy: PromotionPolicy, entries: Entries, f: Entry)
    requires EntriesOk(policy, entries) && EntryOk(policy, f)
    ensures EntriesOk(policy, entries[EntryKey(f.name) := f])
  {
  }

  /** Saving one entry continues them all exactly when it continues the one it replaces. */
  lemma SavingContinuesIff(policy: PromotionPolicy, entries: Entries, f: Entry)
    requires EntriesOk(policy, entries)
    ensures AllContinue(entries, entries[EntryKey(f.name) := f]) <==>
            (EntryKey(f.name) in entries ==> Continues(entries[EntryKey(f.name)], f))
  {
    forall key | key in entries && key != EntryKey(f.name)
      ensures Continues(entries[key], entries[key])
    {
      ContinuesItself(policy, entries[key]);
    }
  }

  lemma ContinuesItself(policy: PromotionPolicy, e: Entry)
    requires EntryOk(policy, e)
    ensures Continues(e, e)
  {
    forall i | 0 <= i < |e.versions| ensures SameArtifact(e.versions[i], e.versions[i]) {
      assert Earned(policy, e.versions[i]);
    }
  }

  lemma AllContinueThemselves(policy: PromotionPolicy, entries: Entries)
    requires EntriesOk(policy, entries)
    ensures AllContinue(entries, entries)
  {
    forall key | key in entries ensures Continues(entries[key], entries[key]) {
      ContinuesItself(policy, entries[key]);
    }
  }

  // ---------------------------------------------------------------------------------------
  // Each operation
  // ---------------------------------------------------------------------------------------

  lemma TransitionKeeps(policy: PromotionPolicy, entries: Entries, name: string, version: string, change: Change,
                        now: int)
    requires EntriesOk(policy, entries) && Transitioned(policy, entries, name, version, change, now).Ok?
    ensures EntriesOk(policy, Transitioned(policy, entries, name, version, change, now).value)
    ensures AllContinue(entries, Transitioned(policy, entries, name, version, change, now).value)
  {
    var e := entries[EntryKey(name)];
    var i := IndexOf(e.versions, version);
    assert Earned(policy, e.versions[i]);
    ChangeKeepsVersion(policy, e.versions[i], change, now);
    var w := Changed(policy, e.versions[i], change, now).value.(updatedAt := now);
    EditKeepsEntry(policy, e, i, w);
    SavingKeepsEntries(policy, entries, e.(versions := e.versions[i := w]));
    SavingContinuesIff(policy, entries, e.(versions := e.versions[i := w]));
  }

  lemma DefaultKeepsEntry(policy: PromotionPolicy, e: Entry, at: nat, now: int)
    requires EntryOk(policy, e) && at < |e.versions| && e.versions[at].status == Published
    ensures var versions := Cleared(e.versions);
            var f := e.(versions := versions[at := versions[at].(isDefault := true, updatedAt := now)]);
            EntryOk(policy, f) && Continues(e, f)
  {
    var versions := Cleared(e.versions);
    var f := e.(versions := versions[at := versions[at].(isDefault := true, updatedAt := now)]);
    forall j | 0 <= j < |f.versions|
      ensures Earned(policy, f.versions[j]) && SameArtifact(e.versions[j], f.versions[j])
    {
      assert Earned(policy, e.versions[j]);
    }
  }

  lemma DefaultKeeps(policy: PromotionPolicy, entries: Entries, name: string, version: string, now: int)
    requires EntriesOk(policy, entries) && Defaulted(entries, name, version, now).Ok?
    ensures EntriesOk(policy, Defaulted(entries, name, version, now).value)
    ensures AllContinue(entries, Defaulted(entries, name, version, now).value)
  {
    var e := entries[EntryKey(name)];
    var at := IndexOf(e.versions, version);
    DefaultKeepsEntry(policy, e, at, now);
    var versions := Cleared(e.versions);
    var f := e.(versions := versions[at := versions[at].(isDefault := true, updatedAt := now)]);
    SavingKeepsEntries(policy, entries, f);
    SavingContinuesIff(policy, entries, f);
  }

  lemma AddingKeepsEntry(policy: PromotionPolicy, e: Entry, v: Version)
    requires EntryOk(policy, e) && IndexOf(e.versions, v.version) == |e.versions|
    requires v.status == Draft && !v.isDefault
    ensures EntryOk(policy, e.(versions := e.versions + [v])) && Continues(e, e.(versions := e.versions + [v]))
  {
    var f := e.(versions := e.versions + [v]);
    ContinuesItself(policy, e);
    forall j | 0 <= j < |f.versions|
      ensures Earned(policy, f.versions[j])
    {
      assert j < |e.versions| ==> Earned(policy, e.versions[j]);
    }
  }

  /** What is registered again under an entry's own words: all it held, if anything, was this
      very version, never published. */
  predicate AsRegistered(env: string, e: Entry, r: Registration) {
    && e.name == r.name && e.kind == r.kind && e.title == r.title && e.owner == r.owner
    && (|| e.versions == []
        || (|e.versions| == 1 && IsRegistered(env, e.versions[0], r) && !EverPublished(e.versions[0])))
  }

  predicate IsRegistered(env: string, v: Version, r: Registration) {
    v.version == r.version && v.env == env && v.ref == r.ref && v.manifest == r.manifest
  }

  /** Nothing is forgotten by this operation: no registration takes an entry it failed to read
      for absent, or none whose entry says any more than the registration does. */
  ghost predicate Harmless(env: string, entries: Entries, op: Op) {
    op.Register? && !op.readable && EntryKey(op.registration.name) in entries ==>
      || Blank(op.registration.name) || Blank(op.registration.version)
      || AsRegistered(env, entries[EntryKey(op.registration.name)], op.registration)
  }

  lemma RegisterKeeps(env: string, policy: PromotionPolicy, entries: Entries, r: Registration, readable: bool, now: int)
    requires EntriesOk(policy, entries) && Registered(env, entries, r, readable, now).Ok?
    ensures EntriesOk(policy, Registered(env, entries, r, readable, now).value)
  {
    var key := EntryKey(r.name);
    var e := if readable && key in entries then entries[key] else Entry(r.name, r.kind, r.title, r.owner, []);
    AddingKeepsEntry(policy, e, Fresh(r, env, now));
    SavingKeepsEntries(policy, entries, e.(versions := e.versions + [Fresh(r, env, now)]));
  }

  /** A registration that is accepted forgets nothing exactly when it is harmless. */
  lemma RegisterContinuesIff(env: string, policy: PromotionPolicy, entries: Entries, r: Registration, readable: bool,
                             now: int)
    requires EntriesOk(policy, entries) && Registered(env, entries, r, readable, now).Ok?
    ensures AllContinue(entries, Registered(env, entries, r, readable, now).value) <==>
            readable || (EntryKey(r.name) in entries ==> AsRegistered(env, entries[EntryKey(r.name)], r))
  {
    var key := EntryKey(r.name);
    var e := if readable && key in entries then entries[key] else Entry(r.name, r.kind, r.title, r.owner, []);
    var f := e.(versions := e.versions + [Fresh(r, env, now)]);
    SavingContinuesIff(policy, entries, f);
    if key in entries && readable {
      AddingKeepsEntry(policy, e, Fresh(r, env, now));
    } else if key in entries {
      NewContinuesIff(env, policy, entries[key], r, now);
      assert f == Entry(r.name, r.kind, r.title, r.owner, [Fresh(r, env, now)]);
    }
  }

  lemma NewContinuesIff(env: string, policy: PromotionPolicy, e: Entry, r: Registration, now: int)
    ensures Continues(e, Entry(r.name, r.kind, r.title, r.owner, [Fresh(r, env, now)])) <==> AsRegistered(env, e, r)
  {
    var f := Entry(r.name, r.kind, r.title, r.owner, [Fresh(r, env, now)]);
    if |e.versions| == 1 {
      assert SameArtifact(e.versions[0], f.versions[0]) <==> IsRegistered(env, e.versions[0], r) && !EverPublished(e.versions[0]);
    }
  }

  /** Every operation leaves the registry sound, and forgets nothing exactly when harmless. */
  lemma OperationKeeps(env: string, policy: PromotionPolicy, state: State, op: Op, now: int)
    requires EntriesOk(policy, state.entries)
    ensures EntriesOk(policy, Perform(env, policy, state, op, now).entries)
    ensures AllContinue(state.entries, Perform(env, policy, state, op, now).entries) <==> Harmless(env, state.entries, op)
  {
    AllContinueThemselves(policy, state.entries);
    match op
    case Register(r, readable) =>
      if Registered(env, state.entries, r, readable, now).Ok? {
        RegisterKeeps(env, policy, state.entries, r, readable, now);
        RegisterContinuesIff(env, policy, state.entries, r, readable, now);
      }
    case Transition(name, version, change) =>
      if Transitioned(policy, state.entries, name, version, change, now).Ok? {
        TransitionKeeps(policy, state.entries, name, version, change, now);
      }
    case DemiseUnlessUsed(name, version, _) =>
      if Transitioned(policy, state.entries, name, version, Change.Demise, now).Ok? {
        TransitionKeeps(policy, state.entries, name, version, Change.Demise, now);
      }
    case SetDefault(name, version) =>
      if Defaulted(state.entries, name, version, now).Ok? {
        DefaultKeeps(policy, state.entries, name, version, now);
      }
    case Pin(_, _, _) =>
    case Unpin(_, _, _) =>
  }

  // ---------------------------------------------------------------------------------------
  // Every run
  // ---------------------------------------------------------------------------------------

  /** The entries after the first `k` operations. */
  ghost function EntriesAfter(env: string, policy: PromotionPolicy, start: State, ops: seq<Timed>, k: nat): Entries
    requires k <= |ops|
  {
    Run(env, policy, start, ops[..k]).entries
  }

  ghost predicate HarmlessAt(env: string, policy: PromotionPolicy, start: State, ops: seq<Timed>, k: nat)
    requires k < |ops|
  {
    Harmless(env, EntriesAfter(env, policy, start, ops, k), ops[k].op)
  }

  lemma {:induction false} ContinuesOnward(e: Entry, f: Entry, g: Entry)
    requires Continues(e, f) && Continues(f, g)
    ensures Continues(e, g)
  {
    forall i | 0 <= i < |e.versions| ensures SameArtifact(e.versions[i], g.versions[i]) {
      assert SameArtifact(e.versions[i], f.versions[i]) && SameArtifact(f.versions[i], g.versions[i]);
    }
  }

  /** From any sound registry, however reads fail: names stay unique, one default at most and
      that one live, and what the policy asks was asked of all that was ever published. */
  lemma {:induction false} EveryRunKeepsTheRegistry(env: string, policy: PromotionPolicy, start: State, ops: seq<Timed>)
    requires EntriesOk(policy, start.entries)
    ensures EntriesOk(policy, Run(env, policy, start, ops).entries)
  {
    if ops != [] {
      var n := |ops| - 1;
      EveryRunKeepsTheRegistry(env, policy, start, ops[..n]);
      OperationKeeps(env, policy, Run(env, policy, start, ops[..n]), ops[n].op, ops[n].now);
    }
  }

  lemma StepContinuesIff(env: string, policy: PromotionPolicy, start: State, ops: seq<Timed>, k: nat)
    requires EntriesOk(policy, start.entries) && k < |ops|
    ensures AllContinue(EntriesAfter(env, policy, start, ops, k), EntriesAfter(env, policy, start, ops, k + 1)) <==>
            HarmlessAt(env, policy, start, ops, k)
  {
    EveryRunKeepsTheRegistry(env, policy, start, ops[..k]);
    OperationKeeps(env, policy, Run(env, policy, start, ops[..k]), ops[k].op, ops[k].now);
    assert ops[..k + 1][..k] == ops[..k];
  }

  lemma {:induction false} HarmlessStepsContinue(env: string, policy: PromotionPolicy, start: State, ops: seq<Timed>,
                                                 i: nat, j: nat)
    requires EntriesOk(policy, start.entries) && i <= j <= |ops|
    requires forall k | 0 <= k < |ops| :: HarmlessAt(env, policy, start, ops, k)
    ensures AllContinue(EntriesAfter(env, policy, start, ops, i), EntriesAfter(env, policy, start, ops, j))
    decreases j - i
  {
    var one := EntriesAfter(env, policy, start, ops, i);
    if i == j {
      EveryRunKeepsTheRegistry(env, policy, start, ops[..i]);
      AllContinueThemselves(policy, one);
    } else {
      var two, three := EntriesAfter(env, policy, start, ops, j - 1), EntriesAfter(env, policy, start, ops, j);
      HarmlessStepsContinue(env, policy, start, ops, i, j - 1);
      assert HarmlessAt(env, policy, start, ops, j - 1);
      StepContinuesIff(env, policy, start, ops, j - 1);
      forall key | key in one
        ensures key in three && Continues(one[key], three[key])
      {
        ContinuesOnward(one[key], two[key], three[key]);
      }
    }
  }

  /** Over a whole run, every version registered at any time keeps its artifact, never
      un-publishes and, once demised, stays demised; exactly when no operation of the run is a
      registration that forgot what its entry held. */
  lemma {:induction false} NothingIsForgottenIffHarmless(env: string, policy: PromotionPolicy, start: State,
                                                         ops: seq<Timed>)
    requires EntriesOk(policy, start.entries)
    ensures (forall i: nat, j: nat | i <= j <= |ops| ::
               AllContinue(EntriesAfter(env, policy, start, ops, i), EntriesAfter(env, policy, start, ops, j)))
            <==> (forall k: nat | k < |ops| :: HarmlessAt(env, policy, start, ops, k))
  {
    if forall k: nat | k < |ops| :: HarmlessAt(env, policy, start, ops, k) {
      forall i: nat, j: nat | i <= j <= |ops|
        ensures AllContinue(EntriesAfter(env, policy, start, ops, i), EntriesAfter(env, policy, start, ops, j))
      {
        HarmlessStepsContinue(env, policy, start, ops, i, j);
      }
    } else {
      var k: nat :| k < |ops| && !HarmlessAt(env, policy, start, ops, k);
      StepContinuesIff(env, policy, start, ops, k);
    }
  }

  /** Under the sealed policy, whatever is or was ever live passed a test and was approved by
      somebody other than its proposer, reads that failed or not. */
  lemma {:induction false} SealedMeansTestedAndApprovedByAnother(env: string, start: State, ops: seq<Timed>,
                                                            key: string, i: nat)
    requires start.entries == map[]
    requires var entries := Run(env, SEALED_PROD, start, ops).entries; key in entries && i < |entries[key].versions|
    ensures var v := Run(env, SEALED_PROD, start, ops).entries[key].versions[i];
            EverPublished(v) ==> v.testPassed && v.approvedBy != v.proposedBy
  {
    EveryRunKeepsTheRegistry(env, SEALED_PROD, start, ops);
    var entries := Run(env, SEALED_PROD, start, ops).entries;
    assert EntryOk(SEALED_PROD, entries[key]) && Earned(SEALED_PROD, entries[key].versions[i]);
  }

  /** Resolution returns the version asked for when it is live, and otherwise, in fallback
      only, the one published default there is. */
  lemma ResolutionIsLive(policy: PromotionPolicy, entries: Entries, name: string, requested: string, mode: Mode)
    requires EntriesOk(policy, entries)
    ensures var r := Resolved(entries, name, requested, mode);
            var live := EntryKey(name) in entries && exists v :: v in entries[EntryKey(name)].versions && v.version == requested && Live(v);
            && (r.Ok? ==> r.value.resolved in entries[EntryKey(name)].versions && Live(r.value.resolved))
            && (r.Ok? && !r.value.substituted <==> live)
            && (live ==> r.Ok? && r.value.resolved.version == requested)
            && (r.Ok? && r.value.substituted ==>
                  && mode == DefaultFallback && r.value.resolved.status == Published
                  && forall v | v in entries[EntryKey(name)].versions && v.isDefault :: v == r.value.resolved)
  {
    var key := EntryKey(name);
    if key in entries {
      var versions := entries[key].versions;
      assert EntryOk(policy, entries[key]);
      var i := IndexOf(versions, requested);
      forall v | v in versions && v.version == requested
        ensures i < |versions| && v == versions[i]
      {
        var j :| 0 <= j < |versions| && versions[j] == v;
      }
      var d := DefaultVersion(versions);
      forall v | v in versions && v.isDefault && d < |versions|
        ensures v == versions[d]
      {
        var j :| 0 <= j < |versions| && versions[j] == v;
      }
    }
  }

  // ---------------------------------------------------------------------------------------
  // Pins
  // ---------------------------------------------------------------------------------------

  /** A pin's key tells its three parts apart, up to the slashes a key cannot hold, and listing
      by name and version finds that name's and version's pins and no others. */
  lemma PinKeysTellPartsApart(name: string, version: string, consumer: string,
                              name': string, version': string, consumer': string)
    ensures PinKey(name, version, consumer) == PinKey(name', version', consumer') <==>
            SafeName(name) == SafeName(name') && SafeName(version) == SafeName(version') && SafeName(consumer) == SafeName(consumer')
    ensures PinPrefix(name, version) <= PinKey(name', version', consumer') <==>
            SafeName(name) == SafeName(name') && SafeName(version) == SafeName(version')
  {
    SafePartsFollow(name, version, name', version', SafeName(consumer'));
    if PinKey(name, version, consumer) == PinKey(name', version', consumer') {
      assert PinPrefix(name, version) <= PinKey(name', version', consumer');
      var n := |PinPrefix(name, version)|;
      assert PinKey(name, version, consumer)[n..] == SafeName(consumer);
      assert PinKey(name', version', consumer')[n..] == SafeName(consumer');
    }
  }

  lemma SafePartsFollow(name: string, version: string, name': string, version': string, rest: string)
    requires NoSlash(rest)
    ensures PinPrefix(name, version) <= PinPrefix(name', version') + rest <==>
            SafeName(name) == SafeName(name') && SafeName(version) == SafeName(version')
  {
    var a, b := SafeName(name) + "/" + SafeName(version) + "/", SafeName(name') + "/" + SafeName(version') + "/" + rest;
    var root := "registry-pin/";
    assert PinPrefix(name, version) == root + a && PinPrefix(name', version') + rest == root + b;
    if PinPrefix(name, version) <= PinPrefix(name', version') + rest {
      assert (root + b)[|root|..][..|a|] == (root + a)[|root|..] == a;
      assert b[..|a|] == a;
      assert a == SafeName(name) + "/" + (SafeName(version) + "/");
      assert b == SafeName(name') + "/" + (SafeName(version') + "/" + rest);
      FirstPartAgrees(SafeName(name), SafeName(version) + "/", SafeName(name'), SafeName(version') + "/" + rest);
      assert SafeName(version) + "/" == SafeName(version) + "/" + "";
      FirstPartAgrees(SafeName(version), "", SafeName(version'), rest);
    }
  }

  /** The pin of those three parts, up to what keys tell apart. */
  predicate NamesPin(name: string, version: string, consumer: string, name': string, version': string,
                     consumer': string) {
    SafeName(name') == SafeName(name) && SafeName(version') == SafeName(version) && SafeName(consumer') == SafeName(consumer)
  }

  predicate PinsIt(op: Op, name: string, version: string, consumer: string) {
    op.Pin? && NamesPin(name, version, consumer, op.name, op.version, op.consumer)
  }

  predicate TakesBack(op: Op, name: string, version: string, consumer: string) {
    op.Unpin? && NamesPin(name, version, consumer, op.name, op.version, op.consumer)
  }

  predicate Stands(pins: Pins, name: string, version: string, consumer: string) {
    PinKey(name, version, consumer) in pins && pins[PinKey(name, version, consumer)] != ""
  }

  lemma StandsAfterOne(env: string, policy: PromotionPolicy, state: State, op: Op, now: int,
                       name: string, version: string, consumer: string)
    requires consumer != ""
    ensures Stands(Perform(env, policy, state, op, now).pins, name, version, consumer) <==>
            || PinsIt(op, name, version, consumer)
            || (Stands(state.pins, name, version, consumer) && !TakesBack(op, name, version, consumer))
  {
    if op.Pin? || op.Unpin? {
      PinKeysTellPartsApart(name, version, consumer, op.name, op.version, op.consumer);
    }
  }

  /** The pin was made, or stood from the start, and none of the operations since took it back. */
  ghost predicate MadeAndKept(start: Pins, ops: seq<Timed>, name: string, version: string, consumer: string) {
    || (Stands(start, name, version, consumer) && NoneTakesBack(ops, 0, name, version, consumer))
    || exists k: nat ::
         k < |ops| && PinsIt(ops[k].op, name, version, consumer) && NoneTakesBack(ops, k + 1, name, version, consumer)
  }

  predicate NoneTakesBack(ops: seq<Timed>, from: nat, name: string, version: string, consumer: string) {
    forall j | from <= j < |ops| :: !TakesBack(ops[j].op, name, version, consumer)
  }

  lemma NoneTakesBackOneMore(ops: seq<Timed>, op: Timed, from: nat, name: string, version: string, consumer: string)
    requires from <= |ops|
    ensures NoneTakesBack(ops + [op], from, name, version, consumer) <==>
            NoneTakesBack(ops, from, name, version, consumer) && !TakesBack(op.op, name, version, consumer)
  {
    var all := ops + [op];
    assert all[|ops|] == op;
    if NoneTakesBack(all, from, name, version, consumer) {
      forall j | from <= j < |ops| ensures !TakesBack(ops[j].op, name, version, consumer) {
        assert !TakesBack(all[j].op, name, version, consumer);
      }
    }
  }

  lemma MadeAndKeptOneMore(start: Pins, ops: seq<Timed>, op: Timed, name: string, version: string, consumer: string)
    ensures MadeAndKept(start, ops + [op], name, version, consumer) <==>
            || PinsIt(op.op, name, version, consumer)
            || (MadeAndKept(start, ops, name, version, consumer) && !TakesBack(op.op, name, version, consumer))
  {
    var all := ops + [op];
    forall from: nat | from <= |ops|
      ensures NoneTakesBack(all, from, name, version, consumer) <==>
              NoneTakesBack(ops, from, name, version, consumer) && !TakesBack(op.op, name, version, consumer)
    {
      NoneTakesBackOneMore(ops, op, from, name, version, consumer);
    }
    if PinsIt(op.op, name, version, consumer) {
      assert PinsIt(all[|ops|].op, name, version, consumer) && NoneTakesBack(all, |ops| + 1, name, version, consumer);
    } else if k: nat :| k < |ops| && PinsIt(ops[k].op, name, version, consumer)
                       && NoneTakesBack(ops, k + 1, name, version, consumer)
                       && !TakesBack(op.op, name, version, consumer) {
      assert PinsIt(all[k].op, name, version, consumer) && NoneTakesBack(all, k + 1, name, version, consumer);
    }
  }

  /** After any run a pin stands exactly when it was made and not taken back since; taken back
      by anybody whose name reads the same once slashes are gone. */
  lemma {:induction false} PinStandsIffMadeAndKept(env: string, policy: PromotionPolicy, start: State, ops: seq<Timed>,
                                                   name: string, version: string, consumer: string)
    requires consumer != ""
    ensures Stands(Run(env, policy, start, ops).pins, name, version, consumer) <==>
            MadeAndKept(start.pins, ops, name, version, consumer)
  {
    if ops != [] {
      var n := |ops| - 1;
      PinStandsIffMadeAndKept(env, policy, start, ops[..n], name, version, consumer);
      StandsAfterOne(env, policy, Run(env, policy, start, ops[..n]), ops[n].op, ops[n].now, name, version, consumer);
      assert ops == ops[..n] + [ops[n]];
      MadeAndKeptOneMore(start.pins, ops[..n], ops[n], name, version, consumer);
    }
  }

  /** Every pin not taken back holds the consumer its key is made of. */
  ghost predicate NamedPins(pins: Pins) {
    forall key | key in pins && pins[key] != "" :: IsPinOf(key, pins[key])
  }

  ghost predicate IsPinOf(key: string, consumer: string) {
    exists name, version :: key == PinKey(name, version, consumer)
  }

  lemma {:induction false} PinsStayNamed(env: string, policy: PromotionPolicy, start: State, ops: seq<Timed>)
    requires NamedPins(start.pins)
    ensures NamedPins(Run(env, policy, start, ops).pins)
  {
    if ops != [] {
      var n := |ops| - 1;
      PinsStayNamed(env, policy, start, ops[..n]);
      OneStepNames(env, policy, Run(env, policy, start, ops[..n]), ops[n].op, ops[n].now);
    }
  }

  lemma OneStepNames(env: string, policy: PromotionPolicy, state: State, op: Op, now: int)
    requires NamedPins(state.pins)
    ensures NamedPins(Perform(env, policy, state, op, now).pins)
  {
    var after := Perform(env, policy, state, op, now).pins;
    forall key | key in after && after[key] != ""
      ensures IsPinOf(key, after[key])
    {
      if op.Pin? && key == PinKey(op.name, op.version, op.consumer) {
        assert after[key] == op.consumer;
      } else {
        assert key in state.pins && after[key] == state.pins[key];
      }
    }
  }

  /** A pin that holds a version: made, kept, and read when pins are counted. */
  ghost predicate Holds(start: Pins, ops: seq<Timed>, unread: set<string>, name: string, version: string,
                        consumer: string) {
    consumer != "" && MadeAndKept(start, ops, name, version, consumer) && PinKey(name, version, consumer) !in unread
  }

  /** While such a pin stands, its version is not demised unforced. */
  lemma {:induction false} PinnedIsNotDemised(env: string, policy: PromotionPolicy, start: State, ops: seq<Timed>,
                                              name: string, version: string, consumer: string, unread: set<string>, now: int)
    requires Holds(start.pins, ops, unread, name, version, consumer)
    ensures var state := Run(env, policy, start, ops);
            && Used(state.pins - unread, name, version)
            && Perform(env, policy, state, DemiseUnlessUsed(name, version, unread), now) == state
  {
    PinStandsIffMadeAndKept(env, policy, start, ops, name, version, consumer);
    var key := PinKey(name, version, consumer);
    assert PinPrefix(name, version) <= key && key in Run(env, policy, start, ops).pins - unread;
  }

  lemma {:induction false} SeenIsHeld(env: string, policy: PromotionPolicy, start: State, ops: seq<Timed>,
                                      unread: set<string>,
                                      name: string, version: string) returns (consumer: string)
    requires NamedPins(start.pins) && Used(Run(env, policy, start, ops).pins - unread, name, version)
    ensures Holds(start.pins, ops, unread, name, version, consumer)
  {
    var pins := Run(env, policy, start, ops).pins;
    PinsStayNamed(env, policy, start, ops);
    var key :| key in pins - unread && PinPrefix(name, version) <= key && pins[key] != "";
    consumer := pins[key];
    var name', version' :| key == PinKey(name', version', consumer);
    PinKeysTellPartsApart(name, version, consumer, name', version', consumer);
    PinStandsIffMadeAndKept(env, policy, start, ops, name, version, consumer);
  }

  /** After any run, pins block an unforced demise exactly when some pin of the version was made,
      has not been taken back and can be read; otherwise it goes the way of a forced one. */
  lemma {:induction false} UnforcedDemiseIsBlockedIff(env: string, policy: PromotionPolicy, start: State,
                                                      ops: seq<Timed>,
                                                      name: string, version: string, unread: set<string>, now: int)
    requires NamedPins(start.pins)
    ensures var state := Run(env, policy, start, ops);
            var held := exists consumer :: Holds(start.pins, ops, unread, name, version, consumer);
            && (Used(state.pins - unread, name, version) <==> held)
            && Perform(env, policy, state, DemiseUnlessUsed(name, version, unread), now)
               == if held then state else Perform(env, policy, state, Op.Transition(name, version, Change.Demise), now)
  {
    var state := Run(env, policy, start, ops);
    if Used(state.pins - unread, name, version) {
      var consumer := SeenIsHeld(env, policy, start, ops, unread, name, version);
    }
    forall consumer | Holds(start.pins, ops, unread, name, version, consumer)
      ensures Used(state.pins - unread, name, version)
    {
      PinnedIsNotDemised(env, policy, start, ops, name, version, consumer, unread, now);
    }
  }

  const FREE := PromotionPolicy(false, false, false)
  const TOOL := Registration("x", "tool", "", "", "1", "ref", "")

  /** A version registered, published and pinned. */
  const PINNED := [
    Timed(Op.Register(TOOL, true), 0), Timed(Op.Transition("x", "1", ProposePromote("ana")), 0),
    Timed(Op.Pin("x", "1", "flow"), 0)]

  /** The registry after each of those steps. */
  function Pinning(k: nat): State {
    var drafted := Entry("x", "tool", "", "", [Fresh(TOOL, "", 0)]);
    var published := drafted.(versions := [Fresh(TOOL, "", 0).(status := Published, proposedBy := "ana")]);
    match k
    case 0 => State(map[], map[])
    case 1 => State(map["registry/x" := drafted], map[])
    case 2 => State(map["registry/x" := published], map[])
    case _ => State(map["registry/x" := published], map[PinKey("x", "1", "flow") := "flow"])
  }

  lemma KeyOfX()
    ensures EntryKey("x") == "registry/x" && !Blank("x") && !Blank("1")
  {
    assert SafeName("x") == "x";
    assert !IsSpace("x"[0]) && !IsSpace("1"[0]);
  }

  lemma {:induction false} PinningStep(k: nat)
    requires k < 3
    ensures Perform("", FREE, Pinning(k), PINNED[k].op, PINNED[k].now) == Pinning(k + 1)
  {
    KeyOfX();
    var draft := Fresh(TOOL, "", 0);
    assert [] + [draft] == [draft];
    var published := draft.(status := Published, proposedBy := "ana");
    assert [draft][0 := published] == [published];
    var drafted := Entry("x", "tool", "", "", [draft]);
    assert map["registry/x" := drafted]["registry/x" := drafted.(versions := [published])]
        == map["registry/x" := drafted.(versions := [published])];
  }

  lemma {:induction false} PinningRuns(k: nat)
    requires k <= 3
    ensures Run("", FREE, Pinning(0), PINNED[..k]) == Pinning(k)
  {
    if k > 0 {
      PinningRuns(k - 1);
      PinningStep(k - 1);
      assert PINNED[..k][..k - 1] == PINNED[..k - 1];
    }
  }

  lemma UnreadIsUnused(pins: Pins, name: string, version: string, key: string)
    requires pins.Keys == {key}
    ensures !Used(pins - {key}, name, version)
  {
  }

  lemma {:induction false} OneDemise()
    ensures var after := Perform("", FREE, Pinning(3), Op.Transition("x", "1", Change.Demise), 0);
            && after.pins == Pinning(3).pins
            && "registry/x" in after.entries && |after.entries["registry/x"].versions| == 1
            && after.entries["registry/x"].versions[0].version == "1"
            && after.entries["registry/x"].versions[0].status == Demised
  {
    KeyOfX();
  }

  /** A pin that cannot be read does not block: the version it holds is demised under it. */
  lemma {:induction false} AnUnreadPinIsPassedOver()
    ensures var pinned := Run("", FREE, State(map[], map[]), PINNED);
            var after := Perform("", FREE, pinned, DemiseUnlessUsed("x", "1", {PinKey("x", "1", "flow")}), 0);
            && Stands(pinned.pins, "x", "1", "flow") && Stands(after.pins, "x", "1", "flow")
            && "registry/x" in after.entries && |after.entries["registry/x"].versions| == 1
            && after.entries["registry/x"].versions[0].version == "1"
            && after.entries["registry/x"].versions[0].status == Demised
  {
    PinningRuns(3);
    assert PINNED[..3] == PINNED;
    UnreadIsUnused(Pinning(3).pins, "x", "1", PinKey("x", "1", "flow"));
    OneDemise();
  }

  /** Two consumers told apart only by a slash share one pin: either takes the other's back. */
  lemma {:induction false} ConsumersMayShareAPin(env: string, policy: PromotionPolicy, start: State,
                                                 name: string, version: string, now: int)
    ensures var ops := [Timed(Op.Pin(name, version, "a/b"), now), Timed(Op.Pin(name, version, "a_b"), now),
                        Timed(Op.Unpin(name, version, "a_b"), now)];
            !Stands(Run(env, policy, start, ops).pins, name, version, "a/b")
  {
    var ops := [Timed(Op.Pin(name, version, "a/b"), now), Timed(Op.Pin(name, version, "a_b"), now),
                Timed(Op.Unpin(name, version, "a_b"), now)];
    assert SafeName("a/b") == "a_b" == SafeName("a_b");
    assert TakesBack(ops[2].op, name, version, "a/b");
    PinStandsIffMadeAndKept(env, policy, start, ops, name, version, "a/b");
  }

  // ---------------------------------------------------------------------------------------
  // A read that fails
  // ---------------------------------------------------------------------------------------

  /** Since a failed read is taken for an absent entry, registering through one forgets every
      other version the entry held. */
  lemma AFailedReadForgetsVersions(env: string, policy: PromotionPolicy, state: State, r: Registration, now: int, i: nat)
    requires !Blank(r.name) && !Blank(r.version) && EntryKey(r.name) in state.entries
    requires i < |state.entries[EntryKey(r.name)].versions|
    requires state.entries[EntryKey(r.name)].versions[i].version != r.version
    ensures var after := Perform(env, policy, state, Op.Register(r, false), now).entries;
            && EntryKey(r.name) in after && after[EntryKey(r.name)].versions == [Fresh(r, env, now)]
            && !Continues(state.entries[EntryKey(r.name)], after[EntryKey(r.name)])
  {
    var e, f := state.entries[EntryKey(r.name)], Entry(r.name, r.kind, r.title, r.owner, [Fresh(r, env, now)]);
    assert [] + [Fresh(r, env, now)] == [Fresh(r, env, now)];
    assert Registered(env, state.entries, r, false, now) == Ok(state.entries[EntryKey(r.name) := f]);
    NewContinuesIff(env, policy, e, r, now);
  }
}
