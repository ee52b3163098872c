/**
 The manager's two approval calls (mantlekeep-estate/manager.go: ApproveCiting, Decline and
 the part of applyOne they reach) as methods over the shared world. Wherever the source can be
 interrupted, `Others` runs any number of steps of any other call.
 */
module Manager {
  import opened ApprovalGuarantees
  import opened ApprovalProtocol
  import opened Approvals
  import opened Floor
  import opened Options

  datatype Outcome =
    | Refused(error: Error)
    | Waiting(record: Approval)
    | NoAdapter(record: Approval)
    | Submitted(record: Approval, answer: DoorAnswer)

  datatype DeclineOutcome = DeclineRecorded | ReasonMissing | DeclineRefused(error: Error)

  class Manager {
    var world: World
    ghost const start: World
    ghost var history: seq<Action>

    ghost predicate Valid()
      reads this
    {
      Invariant(start) && Play(start, history) == Some(world) && Invariant(world)
    }

    constructor (atomicSigner: bool, now: Time, floor: Floor)
      ensures Valid() && world == Initial(atomicSigner, now, floor) == start && history == []
    {
      world := Initial(atomicSigner, now, floor);
      start := Initial(atomicSigner, now, floor);
      history := [];
    }

    /** Judged against the clock of some moment since and the floor of that moment or a later one. */
    ghost predicate CheckedSince(from: nat, v: World, approver: Subject, id: string, refusal: Option<Error>)
      reads this
    {
      exists i: nat, j: nat ::
        from <= i <= j <= |history|
        && CheckVerdict(v, WorldAfter(start, history, i), WorldAfter(start, history, j), approver, id) == refusal
    }

    /** Judged since, and then put to the store at that moment or a later one. */
    ghost predicate RuledSince(from: nat, v: World, approver: Subject, id: string, reference: string,
                               refusal: Option<Error>)
      reads this
    {
      exists i: nat, j: nat, k: nat ::
        from <= i <= j <= k <= |history|
        && Verdict(v, WorldAfter(start, history, i), WorldAfter(start, history, j), WorldAfter(start, history, k),
                   approver, id, reference) == refusal
    }

    ghost predicate DeclineRuledSince(from: nat, v: World, approver: Subject, id: string, reason: string,
                                      refusal: Option<Error>)
      reads this
    {
      exists j: nat :: from <= j <= |history|
                       && DeclineVerdict(v, WorldAfter(start, history, j), approver, id, reason) == refusal
    }

    /** One step of the machine. */
    method Perform(a: Action)
      requires Valid() && Enabled(world, a)
      modifies this
      ensures Valid() && history == old(history) + [a] && world == Apply(old(world), a)
    {
      InvariantKept(world, a);
      world := Apply(world, a);
      history := history + [a];
      assert history[..|history| - 1] == old(history);
    }

    /** What is known of a call's session across other calls' steps. */
    twostate predicate SessionUntouched(s: nat)
      reads this
    {
      && (s in world.sessions <==> s in old(world.sessions))
      && (s in world.sessions ==> world.sessions[s] == old(world.sessions)[s])
      && old(world.log) <= world.log && old(world.now) <= world.now && old(history) <= history
    }

    /** Any steps at all of any other calls, the clock and the floor included. */
    method Others(s: nat)
      requires Valid()
      modifies this
      ensures Valid() && SessionUntouched(s)
    {
      var steps: nat := *;
      while steps > 0
        invariant Valid() && SessionUntouched(s)
      {
        var a: Action := *;
        if Enabled(world, a) && !Moves(a, s) {
          LogGrows(world, a);
          TimeMovesOn(world, a);
          OthersLeaveItAlone(world, a, s);
          Perform(a);
        }
        steps := steps - 1;
      }
    }

    /** An approver signs. The record is read, judged against the floor in force, signed in one
        atomic step, and when that completed the set carried to the door. The call is refused
        exactly when the checks, or after them the store, refuse. */
    method ApproveCiting(s: nat, approver: Subject, id: string, reference: string, hasPort: bool)
      returns (outcome: Outcome)
      requires Valid() && s !in world.sessions
      modifies this
      ensures Valid() && old(history) <= history
      ensures s in world.sessions ==> world.sessions[s] == Closed
      ensures outcome.Waiting? ==> outcome.record.SignaturesOutstanding() > 0 && SignedBy(outcome.record, id, approver)
      ensures outcome.Submitted? ==> hasPort && ReachedDoorLast(outcome.record, id, approver)
      ensures outcome.NoAdapter? ==>
                !hasPort && outcome.record.state == Approved && id in world.store && world.store[id] == outcome.record
      ensures approver.isAI ==> outcome.Refused?
      ensures RuledSince(|old(history)|, old(world), approver, id, reference, RefusalIn(outcome))
    {
      ghost var v, from := world, |history|;
      var refusal := ReadAndCheck(s, approver, id, reference);
      ghost var checked, w := history, world;
      ghost var i: nat, j: nat :|
        from <= i <= j <= |history|
        && CheckVerdict(v, WorldAfter(start, history, i), WorldAfter(start, history, j), approver, id) == refusal;
      NowIsLast(start, history);
      if refusal.Some? {
        assert Verdict(v, WorldAfter(start, history, i), WorldAfter(start, history, j), WorldAfter(start, history, |history|),
                       approver, id, reference) == refusal;
        return Refused(refusal.value);
      }
      outcome := SignAndCarry(s, hasPort);
      WorldStays(start, checked, history, i);
      WorldStays(start, checked, history, j);
      WorldStays(start, checked, history, |checked|);
      assert Verdict(v, WorldAfter(start, history, i), WorldAfter(start, history, j), WorldAfter(start, history, |checked|),
                     approver, id, reference)
          == RefusalIn(outcome);
    }

    /** Past the checks: the signature, and the door when it completed the set. */
    method SignAndCarry(s: nat, hasPort: bool) returns (outcome: Outcome)
      requires Valid() && s in world.sessions && world.sessions[s].Checked?
      modifies this
      ensures Valid() && old(history) <= history && s in world.sessions && world.sessions[s] == Closed
      ensures var (approver, id) := (old(world.sessions)[s].approver, old(world.sessions)[s].read.id);
              && (outcome.Waiting? ==> outcome.record.SignaturesOutstanding() > 0 && SignedBy(outcome.record, id, approver))
              && (outcome.Submitted? ==> hasPort && ReachedDoorLast(outcome.record, id, approver))
              && (outcome.NoAdapter? ==>
                    !hasPort && outcome.record.state == Approved && id in world.store && world.store[id] == outcome.record)
      ensures var Checked(approver, reference, read, _, _) := old(world.sessions)[s];
              RefusalIn(outcome) == StoreVerdict(old(world), read, approver, reference)
    {
      var signed := CollectSignature(s);
      if signed.Err? {
        return Refused(signed.error);
      }
      if signed.value.SignaturesOutstanding() > 0 {
        return Waiting(signed.value);
      }
      outcome := Carry(s, hasPort);
    }

    /** The read and the checks that need no race to be involved. */
    method ReadAndCheck(s: nat, approver: Subject, id: string, reference: string) returns (refusal: Option<Error>)
      requires Valid() && s !in world.sessions
      modifies this
      ensures Valid() && old(history) <= history
      ensures refusal.Some? ==> s in world.sessions ==> world.sessions[s] == Closed
      ensures refusal.None? ==> s in world.sessions && world.sessions[s].Checked?
      ensures refusal.None? ==> world.sessions[s].approver == approver && world.sessions[s].read.id == id
      ensures refusal.None? ==> !approver.isAI
      ensures CheckedSince(|old(history)|, old(world), approver, id, refusal)
      ensures refusal.None? ==>
                && Fetched(old(world).store, id, old(world).now) == Ok(world.sessions[s].read)
                && world.sessions[s].reference == reference
    {
      ghost var v := world;
      var got := Fetched(world.store, id, world.now);
      if got.Err? {
        assert CheckVerdict(v, WorldAfter(start, history, |history|), WorldAfter(start, history, |history|), approver, id)
            == Some(got.error);
        return Some(got.error);
      }
      Read(s, approver, id, reference);
      var now := world.now;
      ghost var clocked := history;
      NowIsLast(start, history);
      Others(s);
      ghost var floored := history;
      NowIsLast(start, history);
      refusal := CheckRead(s, now);
      Others(s);
      WorldStays(start, clocked, history, |clocked|);
      WorldStays(start, floored, history, |floored|);
      assert CheckVerdict(v, WorldAfter(start, history, |clocked|), WorldAfter(start, history, |floored|), approver, id)
          == refusal;
    }

    method Read(s: nat, approver: Subject, id: string, reference: string)
      requires Valid() && s !in world.sessions && Fetched(world.store, id, world.now).Ok?
      modifies this
      ensures Valid() && old(history) <= history
      ensures s in world.sessions && world.sessions[s].Approving?
      ensures world.sessions[s].approver == approver && world.sessions[s].read.id == id
      ensures world.sessions[s].reference == reference
      ensures Fetched(old(world).store, id, old(world).now) == Ok(world.sessions[s].read)
    {
      FetchedIsNamed(world, id);
      Perform(BeginApprove(s, id, approver, reference));
      Others(s);
    }

    /** The clock was read a while ago; the floor is read now. */
    method CheckRead(s: nat, now: Time) returns (refusal: Option<Error>)
      requires Valid() && s in world.sessions && world.sessions[s].Approving? && now <= world.now
      modifies this
      ensures Valid() && old(history) <= history && s in world.sessions
      ensures var Approving(approver, reference, read, readAt) := old(world.sessions)[s];
              world.sessions[s] == if refusal.Some? then Closed
                                   else Checked(approver, reference, read, readAt, old(world.floor))
      ensures refusal == Judge(old(world.sessions)[s].read, old(world.sessions)[s].approver, now, old(world.floor))
    {
      refusal := Judge(world.sessions[s].read, world.sessions[s].approver, now, world.floor);
      CheckIsJudgement(world, s, now, refusal);
      Perform(Check(s, now));
    }

    /** One signature, through the atomic append or, for a change needing one, the
        compare-and-set. */
    method CollectSignature(s: nat) returns (signed: Result<Approval>)
      requires Valid() && s in world.sessions && world.sessions[s].Checked?
      modifies this
      ensures Valid() && old(history) <= history && s in world.sessions
      ensures var Checked(approver, _, read, _, floor) := old(world.sessions)[s];
              if signed.Err? then world.sessions[s] == Closed && world.store == old(world.store)
              else && SignedBy(signed.value, read.id, approver)
                   && read.id in world.store && world.store[read.id] == signed.value
                   && world.sessions[s] == if signed.value.SignaturesOutstanding() > 0 then Closed
                                           else Completed(approver, signed.value, floor)
      ensures var Checked(approver, reference, read, _, _) := old(world.sessions)[s];
              StoreVerdict(old(world), read, approver, reference) == if signed.Err? then Some(signed.error) else None
    {
      ghost var before := world;
      assert SessionOk(world, s);
      var read, signature := world.sessions[s].read, SignatureOf(world, s, world.now);
      var collected := Collected(world.store, world.atomicSigner, read, signature, world.now);
      Perform(Collect(s, world.now));
      if collected.Err? {
        return Err(collected.error);
      }
      CollectSigns(before, s, before.now);
      SignedCarriesSigner(before.store[read.id], signature);
      signed := Ok(collected.value.0);
    }

    ghost predicate ReachedDoorLast(record: Approval, id: string, approver: Subject)
      reads this
    {
      var n := |world.log| - 1;
      && n >= 0 && world.log[n] == ReachedDoor(record, approver, record.floorRevision)
      && ProperlySigned(world.log[..n], record, approver, record.floorRevision)
      && record.id == id && id in world.store && world.store[id] == record
    }

    /** From the completing signature to the door, with anything at all in between. */
    method Carry(s: nat, hasPort: bool) returns (outcome: Outcome)
      requires Valid() && s in world.sessions && world.sessions[s].Completed?
      modifies this
      ensures Valid() && old(history) <= history && s in world.sessions && world.sessions[s] == Closed
      ensures var Completed(approver, record, _) := old(world.sessions)[s];
              if hasPort then outcome.Submitted? && outcome.record == record && ReachedDoorLast(record, record.id, approver)
              else && outcome == NoAdapter(record) && record.state == Approved
                   && record.id in world.store && world.store[record.id] == record
    {
      Others(s);
      outcome := ApplyOne(s, hasPort);
    }

    /** The door is asked once, as the completing approver. */
    method ApplyOne(s: nat, hasPort: bool) returns (outcome: Outcome)
      requires Valid() && s in world.sessions && world.sessions[s].Completed?
      modifies this
      ensures Valid() && old(history) <= history && s in world.sessions && world.sessions[s] == Closed
      ensures var record := old(world.sessions)[s].record;
              && record.id in world.store && world.store[record.id] == record && record.state == Approved
              && (!hasPort ==> outcome == NoAdapter(record))
              && (hasPort ==>
                    && outcome.Submitted? && outcome.record == record
                    && ReachedDoorLast(record, record.id, old(world.sessions)[s].approver))
    {
      var record, approver := world.sessions[s].record, world.sessions[s].approver;
      assert SessionOk(world, s);
      CarriedIsProperlySigned(world.log, record, approver, record.floorRevision);
      var answer: DoorAnswer := *;
      SubmitKeepsStored(world, s, hasPort, answer, record.id);
      Perform(Submit(s, hasPort, answer));
      assert hasPort ==> world.log[..|world.log| - 1] == old(world.log);
      outcome := if hasPort then Submitted(record, answer) else NoAdapter(record);
    }

    /** A person refuses, with a reason; the record written back is the one that was read. */
    method Decline(s: nat, approver: Subject, id: string, reason: string) returns (outcome: DeclineOutcome)
      requires Valid() && s !in world.sessions
      modifies this
      ensures Valid() && old(history) <= history
      ensures outcome.ReasonMissing? <==> reason == ""
      ensures reason == "" ==> world == old(world)
      ensures outcome.DeclineRecorded? ==> DeclinedBy(id, approver, reason)
      ensures reason != "" ==>
                DeclineRuledSince(|old(history)|, old(world), approver, id, reason, DeclineRefusalIn(outcome))
    {
      if reason == "" {
        return ReasonMissing;
      }
      ghost var v := world;
      var got := Fetched(world.store, id, world.now);
      if got.Err? {
        assert DeclineVerdict(v, WorldAfter(start, history, |history|), approver, id, reason) == Some(got.error);
        return DeclineRefused(got.error);
      }
      ReadToDecline(s, approver, id, reason);
      ghost var read := history;
      NowIsLast(start, history);
      outcome := WriteDecline(s);
      WorldStays(start, read, history, |read|);
      assert DeclineVerdict(v, WorldAfter(start, history, |read|), approver, id, reason) == DeclineRefusalIn(outcome);
    }

    ghost predicate DeclinedBy(id: string, approver: Subject, reason: string)
      reads this
    {
      && id in world.store && world.store[id].state == Declined
      && world.store[id].declinedBy == approver.id && world.store[id].declinedReason == reason
    }

    method ReadToDecline(s: nat, approver: Subject, id: string, reason: string)
      requires Valid() && s !in world.sessions && reason != "" && Fetched(world.store, id, world.now).Ok?
      modifies this
      ensures Valid() && old(history) <= history
      ensures s in world.sessions && world.sessions[s].Declining? && world.sessions[s].approver == approver
      ensures world.sessions[s].reason == reason && world.sessions[s].read.id == id
      ensures Fetched(old(world).store, id, old(world).now) == Ok(world.sessions[s].read)
    {
      FetchedIsNamed(world, id);
      Perform(BeginDecline(s, id, approver, reason));
      Others(s);
    }

    method WriteDecline(s: nat) returns (outcome: DeclineOutcome)
      requires Valid() && s in world.sessions && world.sessions[s].Declining?
      modifies this
      ensures Valid() && old(history) <= history && !outcome.ReasonMissing?
      ensures var Declining(approver, reason, read, _) := old(world.sessions)[s];
              && (outcome.DeclineRecorded? ==> DeclinedBy(read.id, approver, reason))
              && DeclineRefusalIn(outcome) == WriteVerdict(old(world), read, approver, reason)
    {
      var Declining(approver, reason, read, _) := world.sessions[s];
      var pending := read.IsPending(world.now);
      var declined := read.(state := Declined, declinedBy := approver.id, declinedReason := reason, decidedAt := world.now);
      var decided := Decided(world.store, declined, world.now);
      Perform(Refuse(s, world.now));
      outcome := if !pending then DeclineRefused(NotPending)
                 else if decided.Err? then DeclineRefused(decided.error)
                 else DeclineRecorded;
    }
  }

  /** The checks an approver meets before the store is asked, in order. */
  function Judge(approval: Approval, approver: Subject, now: Time, floor: Floor): Option<Error> {
    if !approval.IsPending(now) then Some(NotPending)
    else if approver.isAI then Some(AIApproval)
    else if approval.requester == approver.id then Some(SelfApproval)
    else if approval.HasSignatureFrom(approver.id) then Some(DuplicateSignature)
    else if floor.revision != approval.floorRevision then Some(FloorMoved)
    else None
  }

  /** What the checks say of a record read in one world, by the clock of a second and the floor
      of a third. */
  function CheckVerdict(v: World, c: World, u: World, approver: Subject, id: string): Option<Error> {
    match Fetched(v.store, id, v.now)
    case Err(e) => Some(e)
    case Ok(read) => Judge(read, approver, c.now, u.floor)
  }

  /** What the store says of a signature. */
  function StoreVerdict(w: World, read: Approval, approver: Subject, reference: string): Option<Error> {
    match Collected(w.store, w.atomicSigner, read, Signature(approver.id, w.now, reference), w.now)
    case Err(e) => Some(e)
    case Ok(_) => None
  }

  function Verdict(v: World, c: World, u: World, w: World, approver: Subject, id: string,
                   reference: string): Option<Error> {
    match CheckVerdict(v, c, u, approver, id)
    case Some(e) => Some(e)
    case None => StoreVerdict(w, Fetched(v.store, id, v.now).value, approver, reference)
  }

  function WriteVerdict(w: World, read: Approval, approver: Subject, reason: string): Option<Error> {
    if !read.IsPending(w.now) then Some(NotPending)
    else
      var declined := read.(state := Declined, declinedBy := approver.id, declinedReason := reason, decidedAt := w.now);
      match Decided(w.store, declined, w.now)
      case Err(e) => Some(e)
      case Ok(_) => None
  }

  function DeclineVerdict(v: World, w: World, approver: Subject, id: string, reason: string): Option<Error> {
    match Fetched(v.store, id, v.now)
    case Err(e) => Some(e)
    case Ok(read) => WriteVerdict(w, read, approver, reason)
  }

  function RefusalIn(outcome: Outcome): Option<Error> {
    if outcome.Refused? then Some(outcome.error) else None
  }

  function DeclineRefusalIn(outcome: DeclineOutcome): Option<Error> {
    if outcome.DeclineRefused? then Some(outcome.error) else None
  }

  /** The world after the first `k` actions of a history. */
  ghost function WorldAfter(start: World, history: seq<Action>, k: nat): World
    requires k <= |history|
  {
    match Play(start, history[..k])
    case Some(w) => w
    case None => start
  }

  lemma WorldStays(start: World, history: seq<Action>, longer: seq<Action>, k: nat)
    requires history <= longer && k <= |history|
    ensures WorldAfter(start, longer, k) == WorldAfter(start, history, k)
  {
    assert longer[..k] == history[..k];
  }

  lemma {:induction false} NowIsLast(start: World, history: seq<Action>)
    requires Play(start, history).Some?
    ensures WorldAfter(start, history, |history|) == Play(start, history).value
  {
    assert history[..|history|] == history;
  }

  predicate SignedBy(record: Approval, id: string, approver: Subject) {
    record.id == id && record.HasSignatureFrom(approver.id) && !approver.isAI && approver.id != record.requester
  }

  lemma FetchedIsNamed(w: World, id: string)
    requires Invariant(w) && Fetched(w.store, id, w.now).Ok?
    ensures Fetched(w.store, id, w.now).value.id == id
  {
  }

  lemma CheckIsJudgement(w: World, s: nat, now: Time, refusal: Option<Error>)
    requires s in w.sessions && w.sessions[s].Approving?
    requires refusal == Judge(w.sessions[s].read, w.sessions[s].approver, now, w.floor)
    ensures var Approving(approver, reference, read, readAt) := w.sessions[s];
            AfterCheck(w, w.sessions[s], now) ==
              if refusal.Some? then Closed else Checked(approver, reference, read, readAt, w.floor)
  {
  }

  lemma OthersLeaveItAlone(w: World, a: Action, s: nat)
    requires Enabled(w, a) && !Moves(a, s)
    ensures s in Apply(w, a).sessions <==> s in w.sessions
    ensures s in w.sessions ==> Apply(w, a).sessions[s] == w.sessions[s]
  {
  }

  lemma SignedCarriesSigner(r: Approval, signature: Signature)
    ensures WithSignature(r, signature).HasSignatureFrom(signature.signer)
    ensures WithSignature(r, signature).requester == r.requester && WithSignature(r, signature).id == r.id
  {
    var after := WithSignature(r, signature);
    assert after.CollectedSignatures()[|r.signatures|] == signature;
  }
}
