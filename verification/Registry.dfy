/**
 Versioned artifacts and their lifecycle (mantlekeep-control/registry/registry.go,
 lifecycle.go, resolve.go and dependents.go).

 Entries and pins live in one key-value store under keys made from slash-free names. The clock
 is a parameter; so is what the store fails to read where that does more than refuse: an entry
 about to be registered, and the pins about to be counted.
 */
module Registry {
  import opened Ordering
  import opened Paths

  datatype Status = Draft | InReview | Published | Deprecated | Demised

  datatype Version = Version(
    version: string, env: string, status: Status, ref: string, manifest: string, isDefault: bool,
    proposedBy: string, approvedBy: string, changeRef: string, testPassed: bool, testedAt: int, testRef: string,
    publishedAt: int, updatedAt: int)

  datatype Entry = Entry(name: string, kind: string, title: string, owner: string, versions: seq<Version>)

  datatype PromotionPolicy = PromotionPolicy(requiresApproval: bool, requireSoD: bool, requireTestBeforePromote: bool)

  const SEALED_PROD := PromotionPolicy(true, true, true)

  datatype Registration = Registration(
    name: string, kind: string, title: string, owner: string, version: string, ref: string, manifest: string)

  datatype Error =
    | NameAndVersionRequired | AlreadyExists | NotFound | NotADraft | NotTested | NotInReview | SoDViolated
    | NotPublished | StillUsed(dependents: seq<string>) | CannotDemise | NotAvailable | NoDefault

  datatype Result<T> = Ok(value: T) | Err(error: Error)

  type Entries = map<string, Entry>
  type Pins = map<string, string>

  // ---------------------------------------------------------------------------------------
  // Keys
  // ---------------------------------------------------------------------------------------

  /** A slash in a name may not reach across the keyspace. */
  function SafeName(name: string): (r: string)
    ensures |r| == |name| && NoSlash(r)
    ensures NoSlash(name) ==> r == name
  {
    seq(|name|, i requires 0 <= i < |name| => if name[i] == '/' then '_' else name[i])
  }

  function EntryKey(name: string): string {
    "registry/" + SafeName(name)
  }

  function PinPrefix(name: string, version: string): string {
    "registry-pin/" + SafeName(name) + "/" + SafeName(version) + "/"
  }

  function PinKey(name: string, version: string, consumer: string): string {
    PinPrefix(name, version) + SafeName(consumer)
  }

  // ---------------------------------------------------------------------------------------
  // One version
  // ---------------------------------------------------------------------------------------

  datatype Change =
    | LinkChange(changeRef: string)
    | RecordTest(passed: bool, testRef: string)
    | ProposePromote(proposedBy: string)
    | Approve(approver: string)
    | Reject
    | Deprecate
    | Demise

  function Changed(policy: PromotionPolicy, v: Version, change: Change, now: int): Result<Version> {
    match change
    case LinkChange(r) => Ok(v.(changeRef := r))
    case RecordTest(passed, r) =>
      if v.status != Draft then Err(NotADraft)
      else Ok(v.(testPassed := passed, testedAt := now, testRef := r))
    case ProposePromote(proposer) =>
      if v.status != Draft then Err(NotADraft)
      else if policy.requireTestBeforePromote && !v.testPassed then Err(NotTested)
      else if policy.requiresApproval then Ok(v.(proposedBy := proposer, status := InReview))
      else Ok(v.(proposedBy := proposer, status := Published, publishedAt := now))
    case Approve(approver) =>
      if v.status != InReview then Err(NotInReview)
      else if policy.requireSoD && approver == v.proposedBy then Err(SoDViolated)
      else Ok(v.(status := Published, approvedBy := approver, publishedAt := now))
    case Reject =>
      if v.status != InReview then Err(NotInReview) else Ok(v.(status := Draft, proposedBy := ""))
    case Deprecate =>
      if v.status != Published then Err(NotPublished) else Ok(v.(status := Deprecated))
    case Demise =>
      if v.status != Deprecated && v.status != Published then Err(CannotDemise)
      else Ok(v.(status := Demised, isDefault := false))
  }

  /** Where a version stands in the list; the length when it does not. */
  function IndexOf(versions: seq<Version>, version: string): (i: nat)
    ensures i <= |versions|
    ensures i < |versions| ==> versions[i].version == version
    ensures forall j | 0 <= j < i :: versions[j].version != version
  {
    if versions == [] || versions[0].version == version then 0 else 1 + IndexOf(versions[1..], version)
  }

  // ---------------------------------------------------------------------------------------
  // One operation on the store
  // ---------------------------------------------------------------------------------------

  datatype Op =
    | Register(registration: Registration, readable: bool)
    | Transition(name: string, version: string, change: Change)
    | DemiseUnlessUsed(name: string, version: string, unread: set<string>)
    | SetDefault(name: string, version: string)
    | Pin(name: string, version: string, consumer: string)
    | Unpin(name: string, version: string, consumer: string)

  datatype State = State(entries: Entries, pins: Pins)

  /** White space as Unicode has it. */
  predicate IsSpace(c: char) {
    || c in " \t\n\r\U{0B}\U{0C}\U{85}\U{A0}\U{1680}\U{2028}\U{2029}\U{202F}\U{205F}\U{3000}"
    || '\U{2000}' <= c <= '\U{200A}'
  }

  predicate Blank(s: string) {
    forall i | 0 <= i < |s| :: IsSpace(s[i])
  }

  function Fresh(r: Registration, env: string, now: int): Version {
    Version(r.version, env, Draft, r.ref, r.manifest, false, "", "", "", false, 0, "", 0, now)
  }

  function Saved(entries: Entries, e: Entry): Entries {
    entries[EntryKey(e.name) := e]
  }

  function SavedOr(entries: Entries, r: Result<Entry>): Result<Entries> {
    match r
    case Err(error) => Err(error)
    case Ok(e) => Ok(Saved(entries, e))
  }

  /** The entry a registration would save, from what it reads. */
  function Registering(env: string, entries: Entries, r: Registration, readable: bool, now: int): Result<Entry> {
    if Blank(r.name) || Blank(r.version) then Err(NameAndVersionRequired)
    else
      var key := EntryKey(r.name);
      var e := if readable && key in entries then entries[key] else Entry(r.name, r.kind, r.title, r.owner, []);
      if IndexOf(e.versions, r.version) < |e.versions| then Err(AlreadyExists)
      else Ok(e.(versions := e.versions + [Fresh(r, env, now)]))
  }

  function Registered(env: string, entries: Entries, r: Registration, readable: bool, now: int): Result<Entries> {
    SavedOr(entries, Registering(env, entries, r, readable, now))
  }

  function Transitioning(policy: PromotionPolicy, entries: Entries, name: string, version: string, change: Change,
                         now: int)
    : Result<Entry>
  {
    var key := EntryKey(name);
    if key !in entries then Err(NotFound)
    else
      var e := entries[key];
      var i := IndexOf(e.versions, version);
      if i == |e.versions| then Err(NotFound)
      else
        match Changed(policy, e.versions[i], change, now)
        case Err(error) => Err(error)
        case Ok(v) => Ok(e.(versions := e.versions[i := v.(updatedAt := now)]))
  }

  function Transitioned(policy: PromotionPolicy, entries: Entries, name: string, version: string, change: Change,
                        now: int)
    : Result<Entries>
  {
    SavedOr(entries, Transitioning(policy, entries, name, version, change, now))
  }

  function Cleared(versions: seq<Version>): (r: seq<Version>)
    ensures |r| == |versions| && forall i | 0 <= i < |r| :: r[i] == versions[i].(isDefault := false)
  {
    seq(|versions|, i requires 0 <= i < |versions| => versions[i].(isDefault := false))
  }

  function Defaulting(entries: Entries, name: string, version: string, now: int): Result<Entry> {
    var key := EntryKey(name);
    if key !in entries then Err(NotFound)
    else
      var e := entries[key];
      var i := IndexOf(e.versions, version);
      if i == |e.versions| then Err(NotFound)
      else if e.versions[i].status != Published then Err(NotPublished)
      else
        var versions := Cleared(e.versions);
        Ok(e.(versions := versions[i := versions[i].(isDefault := true, updatedAt := now)]))
  }

  function Defaulted(entries: Entries, name: string, version: string, now: int): Result<Entries> {
    SavedOr(entries, Defaulting(entries, name, version, now))
  }

  /** What a lifecycle step answers: the version as changed and stamped, or why not. */
  ghost predicate IsTransition(policy: PromotionPolicy, entries: Entries, name: string, version: string, change: Change,
                               now: int, result: Result<Version>)
  {
    match Transitioned(policy, entries, name, version, change, now)
    case Err(error) => result == Err(error)
    case Ok(_) =>
      var versions := entries[EntryKey(name)].versions;
      result == Ok(Changed(policy, versions[IndexOf(versions, version)], change, now).value.(updatedAt := now))
  }

  /** Somebody is seen to rely on the version: among the pins read, one not taken back. */
  ghost predicate Used(pins: Pins, name: string, version: string) {
    exists key :: key in pins && PinPrefix(name, version) <= key && pins[key] != ""
  }

  /** Exactly those who pinned the version and did not take it back, in text order. */
  ghost predicate ListsDependents(pins: Pins, name: string, version: string, out: seq<string>) {
    && InTextOrder(out)
    && forall c :: c in out <==> c != "" && exists key :: key in pins && PinPrefix(name, version) <= key && pins[key] == c
  }

  function Entered(state: State, r: Result<Entries>): State {
    if r.Ok? then state.(entries := r.value) else state
  }

  ghost function Perform(env: string, policy: PromotionPolicy, state: State, op: Op, now: int): State {
    match op
    case Register(r, readable) => Entered(state, Registered(env, state.entries, r, readable, now))
    case Transition(name, version, change) =>
      Entered(state, Transitioned(policy, state.entries, name, version, change, now))
    case DemiseUnlessUsed(name, version, unread) =>
      if Used(state.pins - unread, name, version) then state
      else Entered(state, Transitioned(policy, state.entries, name, version, Demise, now))
    case SetDefault(name, version) => Entered(state, Defaulted(state.entries, name, version, now))
    case Pin(name, version, consumer) => state.(pins := state.pins[PinKey(name, version, consumer) := consumer])
    case Unpin(name, version, consumer) => state.(pins := state.pins[PinKey(name, version, consumer) := ""])
  }

  datatype Timed = Timed(op: Op, now: int)

  ghost function Run(env: string, policy: PromotionPolicy, start: State, ops: seq<Timed>): State {
    if ops == [] then start
    else
      var last := ops[|ops| - 1];
      Perform(env, policy, Run(env, policy, start, ops[..|ops| - 1]), last.op, last.now)
  }

  // ---------------------------------------------------------------------------------------
  // Resolution
  // ---------------------------------------------------------------------------------------

  datatype Mode = StrictPin | DefaultFallback

  datatype Resolution = Resolution(name: string, requested: string, resolved: Version, substituted: bool)

  /** The first published default. */
  function DefaultVersion(versions: seq<Version>): (i: nat)
    ensures i <= |versions|
    ensures i < |versions| ==> versions[i].isDefault && versions[i].status == Published
    ensures forall j | 0 <= j < i :: !(versions[j].isDefault && versions[j].status == Published)
  {
    if versions == [] || (versions[0].isDefault && versions[0].status == Published) then 0
    else 1 + DefaultVersion(versions[1..])
  }

  function Resolved(entries: Entries, name: string, requested: string, mode: Mode): Result<Resolution> {
    var key := EntryKey(name);
    if key !in entries then Err(NotFound)
    else
      var versions := entries[key].versions;
      var i := IndexOf(versions, requested);
      if i < |versions| && (versions[i].status == Published || versions[i].status == Deprecated) then
        Ok(Resolution(name, requested, versions[i], false))
      else if mode == StrictPin then Err(NotAvailable)
      else
        var d := DefaultVersion(versions);
        if d == |versions| then Err(NoDefault) else Ok(Resolution(name, requested, versions[d], true))
  }

  // ---------------------------------------------------------------------------------------
  // The registry as an object
  // ---------------------------------------------------------------------------------------

  class Registry {
    const env: string
    const policy: PromotionPolicy
    var entries: Entries
    var pins: Pins

    constructor (env: string, policy: PromotionPolicy)
      ensures this.env == env && this.policy == policy && entries == map[] && pins == map[]
    {
      this.env, this.policy := env, policy;
      entries, pins := map[], map[];
    }

    function Now(): State
      reads this
    {
      State(entries, pins)
    }

    method Find(versions: seq<Version>, version: string) returns (i: nat)
      ensures i == IndexOf(versions, version)
    {
      i := 0;
      while i < |versions|
        invariant i <= |versions| && forall j | 0 <= j < i :: versions[j].version != version
      {
        if versions[i].version == version {
          break;
        }
        i := i + 1;
      }
      FirstIndex(versions, version, i);
    }

    method Register(r: Registration, readable: bool, now: int) returns (result: Result<Entry>)
      modifies this
      ensures Now() == Perform(env, policy, old(Now()), Op.Register(r, readable), now)
      ensures result.Ok? <==> Registered(env, old(entries), r, readable, now).Ok?
      ensures result.Err? ==> Registered(env, old(entries), r, readable, now) == Err(result.error)
      ensures result.Ok? ==> EntryKey(result.value.name) in entries && entries[EntryKey(result.value.name)] == result.value
    {
      if Blank(r.name) || Blank(r.version) {
        return Err(NameAndVersionRequired);
      }
      var key := EntryKey(r.name);
      var e := Entry(r.name, r.kind, r.title, r.owner, []);
      if readable && key in entries {
        e := entries[key];
      }
      var i := Find(e.versions, r.version);
      if i < |e.versions| {
        return Err(AlreadyExists);
      }
      e := e.(versions := e.versions + [Fresh(r, env, now)]);
      entries := entries[EntryKey(e.name) := e];
      result := Ok(e);
    }

    /** Every lifecycle step: the entry is read, one version edited, the entry saved. */
    method Transition(name: string, version: string, change: Change, now: int) returns (result: Result<Version>)
      modifies this
      ensures Now() == Perform(env, policy, old(Now()), Op.Transition(name, version, change), now)
      ensures IsTransition(policy, old(entries), name, version, change, now, result)
    {
      var key := EntryKey(name);
      if key !in entries {
        return Err(NotFound);
      }
      var e := entries[key];
      var i := Find(e.versions, version);
      if i == |e.versions| {
        return Err(NotFound);
      }
      var changed := Changed(policy, e.versions[i], change, now);
      if changed.Err? {
        return Err(changed.error);
      }
      e := e.(versions := e.versions[i := changed.value.(updatedAt := now)]);
      entries := entries[EntryKey(e.name) := e];
      result := Ok(e.versions[i]);
    }

    method SetDefault(name: string, version: string, now: int) returns (result: Result<()>)
      modifies this
      ensures Now() == Perform(env, policy, old(Now()), Op.SetDefault(name, version), now)
      ensures result.Ok? <==> Defaulted(old(entries), name, version, now).Ok?
      ensures result.Err? ==> Defaulted(old(entries), name, version, now) == Err(result.error)
    {
      var key := EntryKey(name);
      if key !in entries {
        return Err(NotFound);
      }
      var e := entries[key];
      var at := Find(e.versions, version);
      if at == |e.versions| {
        return Err(NotFound);
      }
      if e.versions[at].status != Published {
        return Err(NotPublished);
      }
      var versions := e.versions;
      for i := 0 to |versions|
        invariant |versions| == |e.versions|
        invariant forall j | 0 <= j < |versions| :: versions[j] == if j < i then e.versions[j].(isDefault := false) else e.versions[j]
      {
        versions := versions[i := versions[i].(isDefault := false)];
      }
      assert versions == Cleared(e.versions);
      versions := versions[at := versions[at].(isDefault := true)];
      versions := versions[at := versions[at].(updatedAt := now)];
      entries := entries[EntryKey(e.name) := e.(versions := versions)];
      assert versions == Cleared(e.versions)[at := Cleared(e.versions)[at].(isDefault := true, updatedAt := now)];
      result := Ok(());
    }

    method Pin(name: string, version: string, consumer: string)
      modifies this
      ensures Now() == Perform(env, policy, old(Now()), Op.Pin(name, version, consumer), 0)
    {
      pins := pins[PinKey(name, version, consumer) := consumer];
    }

    method Unpin(name: string, version: string, consumer: string)
      modifies this
      ensures Now() == Perform(env, policy, old(Now()), Op.Unpin(name, version, consumer), 0)
    {
      pins := pins[PinKey(name, version, consumer) := ""];
    }

    /** Whoever has pinned the version and not taken it back, as far as the pins can be read:
        one that cannot is passed over. */
    method Dependents(name: string, version: string, unread: set<string>) returns (out: seq<string>)
      ensures out == [] <==> !Used(pins - unread, name, version)
      ensures ListsDependents(pins - unread, name, version, out)
    {
      out := [];
      ghost var read := pins - unread;
      var rest := pins.Keys;
      while rest != {}
        invariant rest <= pins.Keys
        invariant forall c :: c in out <==>
                    c != "" && exists key :: key in read && key !in rest && PinPrefix(name, version) <= key && read[key] == c
      {
        var key :| key in rest;
        if PinPrefix(name, version) <= key && key !in unread && pins[key] != "" {
          out := out + [pins[key]];
          assert key in read && read[key] == pins[key];
        }
        rest := rest - {key};
      }
      ghost var found := out;
      out := SortedText(out);
      SortedTextIsInOrder(found);
      SortingKeepsMembers(found);
      if out != [] {
        assert out[0] in found;
      }
      if key :| key in read && PinPrefix(name, version) <= key && read[key] != "" {
        assert read[key] in out;
      }
    }

    /** Retires a version; unless forced, not while anybody is seen to rely on it. */
    method Demise(name: string, version: string, force: bool, unread: set<string>, now: int)
      returns (result: Result<Version>)
      modifies this
      ensures Now() == Perform(env, policy, old(Now()),
                                 if force then Op.Transition(name, version, Change.Demise)
                                 else DemiseUnlessUsed(name, version, unread), now)
      ensures if !force && Used(old(pins) - unread, name, version) then
                && result.Err? && result.error.StillUsed?
                && ListsDependents(pins - unread, name, version, result.error.dependents)
              else IsTransition(policy, old(entries), name, version, Change.Demise, now, result)
    {
      if !force {
        var dependents := Dependents(name, version, unread);
        if |dependents| > 0 {
          return Err(StillUsed(dependents));
        }
      }
      result := Transition(name, version, Change.Demise, now);
    }

    method Resolve(name: string, requested: string, mode: Mode) returns (result: Result<Resolution>)
      ensures result == Resolved(entries, name, requested, mode)
    {
      var key := EntryKey(name);
      if key !in entries {
        return Err(NotFound);
      }
      var versions := entries[key].versions;
      var i := Find(versions, requested);
      if i < |versions| && (versions[i].status == Published || versions[i].status == Deprecated) {
        return Ok(Resolution(name, requested, versions[i], false));
      }
      if mode == StrictPin {
        return Err(NotAvailable);
      }
      var d := 0;
      while d < |versions| && !(versions[d].isDefault && versions[d].status == Published)
        invariant d <= |versions|
        invariant forall j | 0 <= j < d :: !(versions[j].isDefault && versions[j].status == Published)
      {
        d := d + 1;
      }
      FirstDefault(versions, d);
      result := if d == |versions| then Err(NoDefault) else Ok(Resolution(name, requested, versions[d], true));
    }
  }

  lemma {:induction false} FirstIndex(versions: seq<Version>, version: string, i: nat)
    requires i <= |versions| && (i < |versions| ==> versions[i].version == version)
    requires forall j | 0 <= j < i :: versions[j].version != version
    ensures IndexOf(versions, version) == i
  {
  }

  lemma {:induction false} FirstDefault(versions: seq<Version>, d: nat)
    requires d <= |versions| && (d < |versions| ==> versions[d].isDefault && versions[d].status == Published)
    requires forall j | 0 <= j < d :: !(versions[j].isDefault && versions[j].status == Published)
    ensures DefaultVersion(versions) == d
  {
  }

  lemma {:induction false} SortingKeepsMembers(s: seq<string>)
    ensures forall x :: x in SortedText(s) <==> x in s
  {
    forall x ensures x in SortedText(s) <==> x in s {
      assert x in SortedText(s) <==> x in multiset(SortedText(s));
      assert x in s <==> x in multiset(s);
    }
  }
}
