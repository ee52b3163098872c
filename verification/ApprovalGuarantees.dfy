/**
 What the approval protocol promises over every schedule: any number of requests, approvals
 and declines, interleaved at the points where the manager really can be interrupted.
 */
module ApprovalGuarantees {
  import opened ApprovalProtocol
  import opened Approvals
  import opened Estate
  import opened Floor
  import opened Options

  /** The signers of a list of signatures. */
  function Signers(signatures: seq<Signature>): set<string> {
    set i | 0 <= i < |signatures| :: signatures[i].signer
  }

  lemma {:induction false} DistinctSignersCount(signatures: seq<Signature>)
    requires DistinctSigners(signatures)
    ensures |Signers(signatures)| == |signatures|
  {
    if signatures != [] {
      var n := |signatures| - 1;
      DistinctSignersCount(signatures[..n]);
      assert Signers(signatures) == Signers(signatures[..n]) + {signatures[n].signer};
    }
  }

  /** Everything the approval path owes the door about the record it carries there. */
  ghost predicate ProperlySigned(before: seq<Entry>, record: Approval, approver: Subject, floorRevision: string) {
    && |Signers(record.signatures)| == |record.signatures| == record.SignaturesRequired()
    && record.requester !in Signers(record.signatures)
    && (forall i | 0 <= i < |record.signatures| ::
          SignatureTaken(record.id, Subject(record.signatures[i].signer, false), record.signatures[i],
                         record.floorRevision) in before)
    && record.state == Approved && record.approvedBy == approver.id && !approver.isAI
    && record.signatures[|record.signatures| - 1].signer == approver.id
    && floorRevision == record.floorRevision
  }

  ghost predicate DoorEntry(w: World, k: int) {
    0 <= k < |w.log| && w.log[k].ReachedDoor?
  }

  /** Each approval reaches the door at most once; when it does, exactly the required number
      of distinct people have signed it, none of them the requester or an AI, every one under
      the floor revision on the record, and the record stands unchanged ever after. */
  lemma EachApprovalReachesTheDoorAtMostOnce(atomicSigner: bool, now: Time, floor: Floor, schedule: seq<Action>,
                                             w: World)
    requires Reaches(atomicSigner, now, floor, schedule, w)
    ensures forall j, k | DoorEntry(w, j) && DoorEntry(w, k) && w.log[j].record.id == w.log[k].record.id :: j == k
    ensures forall k | DoorEntry(w, k) ::
              && ProperlySigned(w.log[..k], w.log[k].record, w.log[k].approver, w.log[k].floorRevision)
              && w.log[k].record.id in w.store && w.store[w.log[k].record.id] == w.log[k].record
  {
    ReachableIsSound(atomicSigner, now, floor, schedule, w);
    forall j, k | DoorEntry(w, j) && DoorEntry(w, k) && w.log[j].record.id == w.log[k].record.id
      ensures j == k
    {
      assert EntryOk(w, j) && EntryOk(w, k);
    }
    forall k | DoorEntry(w, k)
      ensures && ProperlySigned(w.log[..k], w.log[k].record, w.log[k].approver, w.log[k].floorRevision)
              && w.log[k].record.id in w.store && w.store[w.log[k].record.id] == w.log[k].record
    {
      assert EntryOk(w, k);
      CarriedIsProperlySigned(w.log[..k], w.log[k].record, w.log[k].approver, w.log[k].floorRevision);
    }
  }

  lemma CarriedIsProperlySigned(before: seq<Entry>, record: Approval, approver: Subject, floorRevision: string)
    requires CarriedOk(before, record, approver, floorRevision)
    ensures ProperlySigned(before, record, approver, floorRevision)
  {
    DistinctSignersCount(record.signatures);
    forall i | 0 <= i < |record.signatures|
      ensures SignatureTaken(record.id, Subject(record.signatures[i].signer, false), record.signatures[i],
                             record.floorRevision) in before
    {
      assert Witnessed(before, record, record.signatures[i]);
    }
  }

  /** Pending means fewer signatures than required; approved means exactly that many, the
      last of them the one named as approver; nothing stored is ever "expired". */
  lemma EveryReachableRecordAddsUp(atomicSigner: bool, now: Time, floor: Floor, schedule: seq<Action>, w: World,
                                   id: string)
    requires Reaches(atomicSigner, now, floor, schedule, w) && id in w.store
    ensures var r := w.store[id];
            && r.id == id && r.state != Expired
            && |Signers(r.signatures)| == |r.signatures| && r.requester !in Signers(r.signatures)
            && (r.state == Approved <==> |r.signatures| == r.SignaturesRequired())
            && (r.state != Approved <==> |r.signatures| < r.SignaturesRequired())
            && (r.state == Approved ==> r.approvedBy == r.signatures[|r.signatures| - 1].signer)
  {
    ReachableIsSound(atomicSigner, now, floor, schedule, w);
    assert RecordOk(w.log, w.store[id]);
    DistinctSignersCount(w.store[id].signatures);
  }

  /** A record decided or past its expiry never changes again, whatever is done next. */
  lemma {:induction false} SettledRecordsNeverChange(w: World, schedule: seq<Action>, id: string)
    requires Invariant(w) && Play(w, schedule).Some?
    requires id in w.store && !w.store[id].IsPending(w.now)
    ensures var t := Play(w, schedule).value;
            Invariant(t) && id in t.store && t.store[id] == w.store[id] && !t.store[id].IsPending(t.now)
  {
    if schedule != [] {
      var n := |schedule| - 1;
      SettledRecordsNeverChange(w, schedule[..n], id);
      var t := Play(w, schedule[..n]).value;
      InvariantKept(t, schedule[n]);
      DecidedStays(t, schedule[n], Apply(t, schedule[n]), id);
    }
  }

  /** Leaving declines aside, signatures only ever grow, and only by what was signed. */
  lemma {:induction false} SignaturesOnlyGrow(w: World, a: Action, id: string)
    requires Invariant(w) && Enabled(w, a) && id in w.store && !a.Refuse?
    ensures var t := Apply(w, a);
            id in t.store && w.log <= t.log
            && t.store[id].signatures == w.store[id].signatures + Taken(t.log[|w.log|..], id)
  {
    var t := Apply(w, a);
    match a
    case Collect(s, at) => CollectGrows(w, s, at, t, id);
    case Submit(s, hasPort, answer) => SubmitTakesNothing(w, s, hasPort, answer, t, id);
    case _ =>
      QuietStep(w, a, t, id);
      TakenOfNothing(w.log, id);
  }

  lemma {:induction false} SubmitTakesNothing(w: World, s: nat, hasPort: bool, answer: DoorAnswer, t: World, id: string)
    requires s in w.sessions && w.sessions[s].Completed? && id in w.store && t == AfterSubmit(w, s, hasPort, answer)
    ensures id in t.store && t.store[id] == w.store[id] && w.log <= t.log && Taken(t.log[|w.log|..], id) == []
  {
    SubmitKeepsStored(w, s, hasPort, answer, id);
    NothingTaken(w, t, id);
  }

  lemma QuietStep(w: World, a: Action, t: World, id: string)
    requires Enabled(w, a) && id in w.store && !a.Refuse? && !a.Collect? && !a.Submit? && t == Apply(w, a)
    ensures id in t.store && t.store[id] == w.store[id] && t.log == w.log
  {
  }

  lemma {:induction false} NothingTaken(w: World, t: World, id: string)
    requires w.log == t.log || (|t.log| == |w.log| + 1 && w.log <= t.log && t.log[|w.log|].ReachedDoor?)
    ensures Taken(t.log[|w.log|..], id) == []
  {
    TakenOfNothing(w.log, id);
    if t.log != w.log {
      TakenOfOne(w.log, t.log[|w.log|], id);
      assert t.log == w.log + [t.log[|w.log|]];
    }
  }

  lemma {:induction false} CollectGrows(w: World, s: nat, at: Time, t: World, id: string)
    requires Invariant(w) && s in w.sessions && w.sessions[s].Checked? && id in w.store && t == AfterCollect(w, s, at)
    ensures id in t.store && w.log <= t.log
    ensures t.store[id].signatures == w.store[id].signatures + Taken(t.log[|w.log|..], id)
  {
    CollectShape(w, s, at, t);
    if t.log == w.log {
      TakenOfNothing(w.log, id);
    } else {
      SignedGrows(w, t, t.log[|w.log|], SignatureOf(w, s, at), id);
    }
  }

  lemma {:induction false} SignedGrows(w: World, t: World, e: Entry, signature: Signature, id: string)
    requires id in w.store && t.log == w.log + [e] && e.SignatureTaken? && e.signature == signature && e.id in w.store
    requires t.store == w.store[e.id := WithSignature(w.store[e.id], signature)]
    ensures t.store[id].signatures == w.store[id].signatures + Taken(t.log[|w.log|..], id)
  {
    TakenOfOne(w.log, e, id);
  }

  /** What was asked, by whom, under which floor and for how many signatures, is fixed when the
      record is opened. */
  lemma {:induction false} WhatWasAskedNeverChanges(w: World, schedule: seq<Action>, id: string)
    requires Invariant(w) && Play(w, schedule).Some? && id in w.store
    ensures var t := Play(w, schedule).value;
            Invariant(t) && id in t.store && RequestOf(t.store[id]) == RequestOf(w.store[id])
  {
    if schedule != [] {
      var n := |schedule| - 1;
      WhatWasAskedNeverChanges(w, schedule[..n], id);
      var t := Play(w, schedule[..n]).value;
      InvariantKept(t, schedule[n]);
      StepEvolves(t, schedule[n], id);
    }
  }

  /** In every reachable world, a change needing one signature is collected alike by a store
      with an atomic append and by one with only the compare-and-set. */
  lemma StoresCollectOneSignatureAlike(
    atomicSigner: bool, now: Time, floor: Floor, schedule: seq<Action>, w: World, s: nat, at: Time)
    requires Reaches(atomicSigner, now, floor, schedule, w)
    requires s in w.sessions && w.sessions[s].Checked? && w.sessions[s].read.SignaturesRequired() == 1
    ensures Collected(w.store, true, w.sessions[s].read, SignatureOf(w, s, at), w.now)
         == Collected(w.store, false, w.sessions[s].read, SignatureOf(w, s, at), w.now)
  {
    ReachableIsSound(atomicSigner, now, floor, schedule, w);
    EitherStoreCollectsAlike(w, s, at);
  }

  // ---------------------------------------------------------------------------------------
  // Declining writes back the record it read
  // ---------------------------------------------------------------------------------------

  /** Whether a decline about to be written will be accepted by the store. */
  predicate DeclineLands(w: World, s: nat) {
    && s in w.sessions && w.sessions[s].Declining?
    && var read := w.sessions[s].read;
       read.IsPending(w.now) && read.id in w.store && w.store[read.id].IsPending(w.now)
  }

  /** A decline that lands keeps every signature exactly when nobody signed between its read
      and its write; the ones taken in between are lost from the record. */
  lemma DeclineKeepsSignaturesIffNobodySignedMeanwhile(w: World, s: nat, at: Time)
    requires Invariant(w) && DeclineLands(w, s)
    ensures var Declining(approver, reason, read, readAt) := w.sessions[s];
            var after := AfterRefuse(w, s, at).store;
            && readAt <= |w.log| && read.id in after && after[read.id].state == Declined
            && after[read.id].declinedBy == approver.id && after[read.id].declinedReason == reason
            && w.store[read.id].signatures == after[read.id].signatures + Taken(w.log[readAt..], read.id)
            && (after[read.id].signatures == w.store[read.id].signatures <==> Taken(w.log[readAt..], read.id) == [])
  {
    assert SessionOk(w, s);
    var read := w.sessions[s].read;
    var lost := Taken(w.log[w.sessions[s].readAt..], read.id);
    assert |read.signatures + lost| == |read.signatures| + |lost|;
  }

  const TWO_SIGNERS := Floor(map[], map[], map[], map[], FleetFloor(map[], []), map[], map[],
                             map[OwningTeam := 2], map[], "rev-1")
  const SOME_CHANGE := DesiredItem("kafka", "principal", "orders", "team-a", Shared, OwningTeam, "", Slot("", "", ""),
                                   NoLimits, [], "", "", "", None, map[], map[])

  const DEE := Subject("dee", false)
  const BOB := Subject("bob", false)
  const ASKED := NewApproval("ap-1", "team-a", SOME_CHANGE, "ana", [], "", TWO_SIGNERS, 0)
  const BOB_SIGNED := Signature("bob", 0, "")

  /** A request needing two signatures; a decline that reads; an approval that signs; the
      decline written. */
  const LOST_SIGNATURE := [
    Request("ap-1", "team-a", SOME_CHANGE, "ana", [], "", TWO_SIGNERS, 0),
    BeginDecline(0, "ap-1", DEE, "no"),
    BeginApprove(1, "ap-1", BOB, ""),
    Check(1, 0),
    Collect(1, 0),
    Refuse(0, 0)]

  /** The world after each of those steps. */
  function After(k: nat): World {
    var w := Initial(true, 0, TWO_SIGNERS);
    var asked := w.(store := map["ap-1" := ASKED]);
    var declining := Declining(DEE, "no", ASKED, 0);
    var signed := asked.(store := map["ap-1" := ASKED.(signatures := [BOB_SIGNED])],
                         log := [SignatureTaken("ap-1", BOB, BOB_SIGNED, "rev-1")]);
    match k
    case 0 => w
    case 1 => asked
    case 2 => asked.(sessions := map[0 := declining])
    case 3 => asked.(sessions := map[0 := declining, 1 := Approving(BOB, "", ASKED, 0)])
    case 4 => asked.(sessions := map[0 := declining, 1 := Checked(BOB, "", ASKED, 0, TWO_SIGNERS)])
    case 5 => signed.(sessions := map[0 := declining, 1 := Closed])
    case _ => signed.(sessions := map[0 := Closed, 1 := Closed],
                      store := map["ap-1" := ASKED.(state := Declined, declinedBy := "dee", declinedReason := "no")])
  }

  lemma AskedAndRead()
    ensures Enabled(After(0), LOST_SIGNATURE[0]) && Apply(After(0), LOST_SIGNATURE[0]) == After(1)
    ensures Enabled(After(1), LOST_SIGNATURE[1]) && Apply(After(1), LOST_SIGNATURE[1]) == After(2)
    ensures Enabled(After(2), LOST_SIGNATURE[2]) && Apply(After(2), LOST_SIGNATURE[2]) == After(3)
  {
    assert TWO_SIGNERS.SignaturesFor(OwningTeam) == 2;
  }

  lemma CheckedByBob()
    ensures Enabled(After(3), LOST_SIGNATURE[3]) && Apply(After(3), LOST_SIGNATURE[3]) == After(4)
  {
    assert !ASKED.HasSignatureFrom("bob");
  }

  lemma SignedByBob()
    ensures Enabled(After(4), LOST_SIGNATURE[4]) && Apply(After(4), LOST_SIGNATURE[4]) == After(5)
  {
    var store: Records := map["ap-1" := ASKED];
    assert ASKED.IsPending(0) && ASKED.requester == "ana" && !ASKED.HasSignatureFrom("bob");
    assert WithSignature(ASKED, BOB_SIGNED) == ASKED.(signatures := [BOB_SIGNED]);
    assert Signed(store, "ap-1", BOB_SIGNED, 0) == Ok(ASKED.(signatures := [BOB_SIGNED]));
    assert store["ap-1" := ASKED.(signatures := [BOB_SIGNED])] == map["ap-1" := ASKED.(signatures := [BOB_SIGNED])];
  }

  lemma DeclinedByDee()
    ensures Enabled(After(5), LOST_SIGNATURE[5]) && Apply(After(5), LOST_SIGNATURE[5]) == After(6)
  {
  }

  lemma PlayedTo(k: nat)
    requires k <= 6
    ensures Play(After(0), LOST_SIGNATURE[..k]) == Some(After(k))
  {
    if k > 0 {
      PlayedTo(k - 1);
      StepOf(k - 1);
      PlayOne(After(0), LOST_SIGNATURE, k - 1, After(k - 1));
    }
  }

  lemma StepOf(k: nat)
    requires k < 6
    ensures Enabled(After(k), LOST_SIGNATURE[k])
    ensures Apply(After(k), LOST_SIGNATURE[k]) == After(k + 1)
  {
    match k
    case 3 => CheckedByBob();
    case 4 => SignedByBob();
    case 5 => DeclinedByDee();
    case _ => AskedAndRead();
  }

  /** Concretely: the declined record shows no signature, although one had been taken. */
  lemma ADeclineCanLoseASignature()
    ensures exists w :: Reaches(true, 0, TWO_SIGNERS, LOST_SIGNATURE, w)
              && "ap-1" in w.store && w.store["ap-1"].state == Declined && w.store["ap-1"].signatures == []
              && Taken(w.log, "ap-1") == [BOB_SIGNED]
  {
    PlayedTo(6);
    assert LOST_SIGNATURE[..6] == LOST_SIGNATURE;
    assert Reaches(true, 0, TWO_SIGNERS, LOST_SIGNATURE, After(6));
    BobIsOnTheLog();
  }

  lemma BobIsOnTheLog()
    ensures Taken(After(6).log, "ap-1") == [BOB_SIGNED]
  {
    var e := SignatureTaken("ap-1", BOB, BOB_SIGNED, "rev-1");
    assert [e][..0] == [];
    assert After(6).log == [e];
  }

  lemma {:induction false} PlayOne(start: World, schedule: seq<Action>, k: nat, w: World)
    requires k < |schedule| && Play(start, schedule[..k]) == Some(w) && Enabled(w, schedule[k])
    ensures Play(start, schedule[..k + 1]) == Some(Apply(w, schedule[k]))
  {
    assert schedule[..k + 1][..k] == schedule[..k];
  }
}
