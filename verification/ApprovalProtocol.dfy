/**
 The approval protocol of the manager (mantlekeep-estate/manager.go: openApproval,
 ApproveCiting, Decline, applyOne) as a transition system.

 An approver's call is a read, then checks against the floor in force, then one atomic store
 step, then the door; a decline is a read, then a compare-and-set. Any number of calls
 interleave between those points, holding reads that may be stale, while the floor is
 reloaded and the clock advances. The door's answer is arbitrary.
 */
module ApprovalProtocol {
  import opened Approvals
  import opened Estate
  import opened Floor
  import opened Options

  datatype Subject = Subject(id: string, isAI: bool)

  /** Where one call has got to. `readAt` is the length of the log when it read the record. */
  datatype Session =
    | Approving(approver: Subject, reference: string, read: Approval, readAt: nat)
    | Checked(approver: Subject, reference: string, read: Approval, readAt: nat, floor: Floor)
    | Completed(approver: Subject, record: Approval, floor: Floor)
    | Declining(approver: Subject, reason: string, read: Approval, readAt: nat)
    | Closed

  /** What is observed: a signature entering a record, a change reaching the door as approved. */
  datatype Entry =
    | SignatureTaken(id: string, subject: Subject, signature: Signature, floorRevision: string)
    | ReachedDoor(record: Approval, approver: Subject, floorRevision: string)

  /** Who carries a completed record to the door. */
  datatype Release = HeldBy(session: nat) | AtDoor(entry: nat) | NotCarried

  /** `log` and `released` record what happened and are never read by a step. */
  datatype World = World(
    store: Records, atomicSigner: bool, now: Time, floor: Floor, sessions: map<nat, Session>,
    log: seq<Entry>, released: map<string, Release>)

  datatype DoorAnswer =
    | Allowed
    | Denied
    | NeedsApproval(roles: seq<string>, reason: string, newId: string, created: Time)

  datatype Action =
    | Tick(later: Time)
    | Reload(floor: Floor)
    | Request(id: string, team: string, change: DesiredItem, requester: string, roles: seq<string>,
              reason: string, under: Floor, created: Time)
    | BeginApprove(session: nat, id: string, approver: Subject, reference: string)
    | Check(session: nat, at: Time)
    | Collect(session: nat, at: Time)
    | Submit(session: nat, hasPort: bool, answer: DoorAnswer)
    | BeginDecline(session: nat, id: string, approver: Subject, reason: string)
    | Refuse(session: nat, at: Time)

  const WINDOW := 7 * 24 * 3600 * 1_000_000_000

  // ---------------------------------------------------------------------------------------
  // The steps
  // ---------------------------------------------------------------------------------------

  /** The record a gated change waits in: the count of signatures and the revision both come
      from the floor the request was resolved under. */
  function NewApproval(id: string, team: string, change: DesiredItem, requester: string,
                       roles: seq<string>, reason: string, under: Floor, created: Time): Approval
  {
    Approval(id, team, change, requester, roles, under.SignaturesFor(change.gate), under.revision, reason,
             Pending, "", [], "", "", created, 0, created + WINDOW)
  }

  function OpenedOrNot(store: Records, approval: Approval): Records {
    match Opened(store, approval)
    case Ok(after) => after
    case Err(_) => store
  }

  predicate Enabled(w: World, a: Action) {
    match a
    case Tick(later) => w.now <= later
    case Reload(_) => true
    case Request(_, _, _, _, _, _, _, _) => true
    case BeginApprove(s, _, _, _) => s !in w.sessions
    case Check(s, at) => s in w.sessions && w.sessions[s].Approving? && at <= w.now
    case Collect(s, at) => s in w.sessions && w.sessions[s].Checked? && at <= w.now
    case Submit(s, _, _) => s in w.sessions && w.sessions[s].Completed?
    case BeginDecline(s, _, _, _) => s !in w.sessions
    case Refuse(s, at) => s in w.sessions && w.sessions[s].Declining? && at <= w.now
  }

  function Apply(w: World, a: Action): World
    requires Enabled(w, a)
  {
    match a
    case Tick(later) => w.(now := later)
    case Reload(floor) => w.(floor := floor)
    case Request(id, team, change, requester, roles, reason, under, created) =>
      w.(store := OpenedOrNot(w.store, NewApproval(id, team, change, requester, roles, reason, under, created)))
    case BeginApprove(s, id, approver, reference) =>
      (match Fetched(w.store, id, w.now)
       case Err(_) => w
       case Ok(read) => w.(sessions := w.sessions[s := Approving(approver, reference, read, |w.log|)]))
    case Check(s, at) => w.(sessions := w.sessions[s := AfterCheck(w, w.sessions[s], at)])
    case Collect(s, at) => AfterCollect(w, s, at)
    case Submit(s, hasPort, answer) => AfterSubmit(w, s, hasPort, answer)
    case BeginDecline(s, id, approver, reason) =>
      if reason == "" then w
      else
        (match Fetched(w.store, id, w.now)
         case Err(_) => w
         case Ok(read) => w.(sessions := w.sessions[s := Declining(approver, reason, read, |w.log|)]))
    case Refuse(s, at) => AfterRefuse(w, s, at)
  }

  /** The clock is read first, the floor only when everything else is in order. */
  function AfterCheck(w: World, session: Session, at: Time): Session
    requires session.Approving?
  {
    var Approving(approver, reference, read, readAt) := session;
    if !read.IsPending(at) then Closed
    else if approver.isAI then Closed
    else if read.requester == approver.id then Closed
    else if read.HasSignatureFrom(approver.id) then Closed
    else if w.floor.revision != read.floorRevision then Closed
    else Checked(approver, reference, read, readAt, w.floor)
  }

  function AfterCollect(w: World, s: nat, at: Time): World
    requires s in w.sessions && w.sessions[s].Checked?
  {
    var Checked(approver, reference, read, _, floor) := w.sessions[s];
    var signature := Signature(approver.id, at, reference);
    match Collected(w.store, w.atomicSigner, read, signature, w.now)
    case Err(_) => w.(sessions := w.sessions[s := Closed])
    case Ok((record, store)) =>
      var log := w.log + [SignatureTaken(read.id, approver, signature, floor.revision)];
      if record.SignaturesOutstanding() > 0 then
        w.(store := store, log := log, sessions := w.sessions[s := Closed])
      else
        w.(store := store, log := log, sessions := w.sessions[s := Completed(approver, record, floor)],
           released := w.released[record.id := HeldBy(s)])
  }

  function AfterSubmit(w: World, s: nat, hasPort: bool, answer: DoorAnswer): World
    requires s in w.sessions && w.sessions[s].Completed?
  {
    var Completed(approver, record, floor) := w.sessions[s];
    var done := w.sessions[s := Closed];
    if !hasPort then w.(sessions := done, released := w.released[record.id := NotCarried])
    else
      var store := match answer {
        case NeedsApproval(roles, reason, newId, created) =>
          OpenedOrNot(w.store, NewApproval(newId, record.team, record.change, approver.id, roles, reason, floor, created))
        case _ => w.store
      };
      w.(store := store, sessions := done, log := w.log + [ReachedDoor(record, approver, floor.revision)],
         released := w.released[record.id := AtDoor(|w.log|)])
  }

  /** The declined record is the one that was READ, signatures included. */
  function AfterRefuse(w: World, s: nat, at: Time): World
    requires s in w.sessions && w.sessions[s].Declining?
  {
    var Declining(approver, reason, read, _) := w.sessions[s];
    var done := w.sessions[s := Closed];
    if !read.IsPending(w.now) then w.(sessions := done)
    else
      var refused := read.(state := Declined, declinedBy := approver.id, declinedReason := reason, decidedAt := at);
      match Decided(w.store, refused, w.now)
      case Err(_) => w.(sessions := done)
      case Ok(store) => w.(store := store, sessions := done)
  }

  function Initial(atomicSigner: bool, now: Time, floor: Floor): World {
    World(map[], atomicSigner, now, floor, map[], [], map[])
  }

  function Play(start: World, schedule: seq<Action>): Option<World> {
    if schedule == [] then Some(start)
    else
      var n := |schedule| - 1;
      match Play(start, schedule[..n])
      case None => None
      case Some(w) => if Enabled(w, schedule[n]) then Some(Apply(w, schedule[n])) else None
  }

  ghost predicate Reaches(atomicSigner: bool, now: Time, floor: Floor, schedule: seq<Action>, w: World) {
    Play(Initial(atomicSigner, now, floor), schedule) == Some(w)
  }

  // ---------------------------------------------------------------------------------------
  // Invariants
  // ---------------------------------------------------------------------------------------

  /** The request part of a record, which no decision touches. */
  function RequestOf(r: Approval): Approval {
    r.(state := Pending, approvedBy := "", signatures := [], declinedBy := "", declinedReason := "", decidedAt := 0)
  }

  predicate DistinctSigners(signatures: seq<Signature>) {
    forall i, j | 0 <= i < j < |signatures| :: signatures[i].signer != signatures[j].signer
  }

  /** A person, not an AI, gave this signature under the floor revision the record stores. */
  ghost predicate Witnessed(log: seq<Entry>, r: Approval, signature: Signature) {
    SignatureTaken(r.id, Subject(signature.signer, false), signature, r.floorRevision) in log
  }

  ghost predicate SignaturesOk(log: seq<Entry>, r: Approval) {
    && DistinctSigners(r.signatures)
    && (forall i | 0 <= i < |r.signatures| ::
          r.signatures[i].signer != r.requester && Witnessed(log, r, r.signatures[i]))
  }

  ghost predicate StateOk(r: Approval) {
    match r.state
    case Pending => |r.signatures| < r.SignaturesRequired() && r == RequestOf(r).(signatures := r.signatures)
    case Declined => |r.signatures| < r.SignaturesRequired() && r.approvedBy == ""
    case Approved =>
      && |r.signatures| == r.SignaturesRequired()
      && r.approvedBy == r.signatures[|r.signatures| - 1].signer
      && r.decidedAt == r.signatures[|r.signatures| - 1].at
    case Expired => false
  }

  ghost predicate RecordOk(log: seq<Entry>, r: Approval) {
    SignaturesOk(log, r) && StateOk(r)
  }

  ghost predicate StoreOk(w: World) {
    forall id | id in w.store :: w.store[id].id == id && RecordOk(w.log, w.store[id])
  }

  /** The signatures a stretch of the log added to one record, in order. */
  function Taken(log: seq<Entry>, id: string): seq<Signature> {
    if log == [] then []
    else
      var n := |log| - 1;
      Taken(log[..n], id) +
      if log[n].SignatureTaken? && log[n].id == id then [log[n].signature] else []
  }

  /** While the record still waits, it is the read plus what was signed since. */
  ghost predicate ReadOk(w: World, read: Approval, readAt: nat) {
    && readAt <= |w.log| && read.id in w.store
    && RequestOf(read) == RequestOf(w.store[read.id])
    && (read.state == Pending ==>
          && RecordOk(w.log, read)
          && (w.store[read.id].state == Pending ==>
                w.store[read.id].signatures == read.signatures + Taken(w.log[readAt..], read.id)))
  }

  ghost predicate CarriedOk(log: seq<Entry>, record: Approval, approver: Subject, floorRevision: string) {
    && record.state == Approved && RecordOk(log, record)
    && approver.id == record.approvedBy && !approver.isAI && floorRevision == record.floorRevision
  }

  ghost predicate SessionOk(w: World, s: nat)
    requires s in w.sessions
  {
    match w.sessions[s]
    case Approving(_, _, read, readAt) => ReadOk(w, read, readAt)
    case Declining(_, _, read, readAt) => ReadOk(w, read, readAt)
    case Checked(approver, _, read, readAt, floor) =>
      && ReadOk(w, read, readAt) && read.state == Pending
      && !approver.isAI && approver.id != read.requester && !read.HasSignatureFrom(approver.id)
      && floor.revision == read.floorRevision
    case Completed(approver, record, floor) =>
      && record.id in w.store && w.store[record.id] == record
      && CarriedOk(w.log, record, approver, floor.revision)
      && record.id in w.released && w.released[record.id] == HeldBy(s)
    case Closed => true
  }

  ghost predicate EntryOk(w: World, k: nat)
    requires k < |w.log|
  {
    match w.log[k]
    case SignatureTaken(_, _, _, _) => true
    case ReachedDoor(record, approver, floorRevision) =>
      && record.id in w.store && w.store[record.id] == record
      && CarriedOk(w.log[..k], record, approver, floorRevision)
      && record.id in w.released && w.released[record.id] == AtDoor(k)
  }

  ghost predicate ReleasedOk(w: World) {
    forall id | id in w.released :: id in w.store && w.store[id].state == Approved
  }

  ghost predicate Invariant(w: World) {
    && StoreOk(w)
    && (forall s | s in w.sessions :: SessionOk(w, s))
    && (forall k | 0 <= k < |w.log| :: EntryOk(w, k))
    && ReleasedOk(w)
  }

  // ---------------------------------------------------------------------------------------
  // Collecting a signature
  // ---------------------------------------------------------------------------------------

  function SignatureOf(w: World, s: nat, at: Time): Signature
    requires s in w.sessions && w.sessions[s].Checked?
  {
    Signature(w.sessions[s].approver.id, at, w.sessions[s].reference)
  }

  /** A record needing one signature that is pending still stands as it was read. */
  lemma StillAsRead(w: World, s: nat)
    requires Invariant(w) && s in w.sessions && w.sessions[s].Checked?
    requires var read := w.sessions[s].read;
             read.SignaturesRequired() == 1 && read.id in w.store && w.store[read.id].IsPending(w.now)
    ensures w.store[w.sessions[s].read.id] == w.sessions[s].read && w.sessions[s].read.signatures == []
  {
    var read := w.sessions[s].read;
    assert SessionOk(w, s);
    assert RecordOk(w.log, w.store[read.id]);
    assert w.store[read.id].signatures == [] == read.signatures;
  }

  /** For a change needing one signature the two kinds of store give the same answer, the same
      record and the same store, whatever happened since the record was read. */
  lemma EitherStoreCollectsAlike(w: World, s: nat, at: Time)
    requires Invariant(w) && s in w.sessions && w.sessions[s].Checked?
    requires w.sessions[s].read.SignaturesRequired() == 1
    ensures Collected(w.store, true, w.sessions[s].read, SignatureOf(w, s, at), w.now)
         == Collected(w.store, false, w.sessions[s].read, SignatureOf(w, s, at), w.now)
  {
    var read := w.sessions[s].read;
    assert SessionOk(w, s);
    if w.store[read.id].IsPending(w.now) {
      StillAsRead(w, s);
      assert WithSignature(read, SignatureOf(w, s, at)) == CompletedBy(read, SignatureOf(w, s, at)) by {
        assert read.signatures + [SignatureOf(w, s, at)] == [SignatureOf(w, s, at)];
      }
    }
  }

  /** A signature taken goes onto the record as it stands, pending, from somebody new to it. */
  lemma CollectSigns(w: World, s: nat, at: Time)
    requires Invariant(w) && s in w.sessions && w.sessions[s].Checked?
    requires Collected(w.store, w.atomicSigner, w.sessions[s].read, SignatureOf(w, s, at), w.now).Ok?
    ensures var id := w.sessions[s].read.id;
            var signature := SignatureOf(w, s, at);
            && id in w.store && w.store[id].IsPending(w.now)
            && signature.signer != w.store[id].requester && !w.store[id].HasSignatureFrom(signature.signer)
            && Collected(w.store, w.atomicSigner, w.sessions[s].read, signature, w.now)
               == Ok((WithSignature(w.store[id], signature), w.store[id := WithSignature(w.store[id], signature)]))
  {
    if !w.atomicSigner {
      EitherStoreCollectsAlike(w, s, at);
    }
  }

  lemma WitnessedLater(log: seq<Entry>, more: seq<Entry>, r: Approval)
    requires SignaturesOk(log, r)
    ensures SignaturesOk(log + more, r)
  {
    forall i | 0 <= i < |r.signatures|
      ensures Witnessed(log + more, r, r.signatures[i])
    {
      assert Witnessed(log, r, r.signatures[i]);
    }
  }

  /** Signing keeps a record well formed, and decides it exactly when the set is complete. */
  lemma SigningKeepsRecord(log: seq<Entry>, r: Approval, subject: Subject, signature: Signature)
    requires RecordOk(log, r) && r.state == Pending
    requires subject == Subject(signature.signer, false)
    requires signature.signer != r.requester && !r.HasSignatureFrom(signature.signer)
    ensures var after := WithSignature(r, signature);
            && RecordOk(log + [SignatureTaken(r.id, subject, signature, r.floorRevision)], after)
            && after.signatures == r.signatures + [signature]
            && RequestOf(after) == RequestOf(r)
            && (after.state == Approved <==> after.SignaturesOutstanding() == 0)
            && (after.state == Approved ==> after.approvedBy == signature.signer)
            && (after.state == Pending || after.state == Approved)
  {
    var entry := SignatureTaken(r.id, subject, signature, r.floorRevision);
    var after := WithSignature(r, signature);
    WitnessedLater(log, [entry], r);
    forall i | 0 <= i < |after.signatures|
      ensures after.signatures[i].signer != after.requester && Witnessed(log + [entry], after, after.signatures[i])
    {
      if i < |r.signatures| {
        assert Witnessed(log + [entry], r, r.signatures[i]);
      } else {
        assert entry in log + [entry];
      }
    }
    forall i | 0 <= i < |r.signatures|
      ensures r.signatures[i].signer != signature.signer
    {
      assert r.CollectedSignatures()[i] == r.signatures[i];
    }
  }

  // ---------------------------------------------------------------------------------------
  // What one step may do to one record
  // ---------------------------------------------------------------------------------------

  /** A record is left alone, decided, or signed once more; only a waiting one changes. */
  ghost predicate Evolves(w: World, t: World, id: string)
    requires id in w.store
  {
    && id in t.store && w.log <= t.log
    && RequestOf(t.store[id]) == RequestOf(w.store[id])
    && (|| (t.store[id] == w.store[id] && Taken(t.log[|w.log|..], id) == [])
        || (w.store[id].IsPending(w.now) && t.store[id].state != Pending)
        || (w.store[id].IsPending(w.now) &&
            t.store[id].signatures == w.store[id].signatures + Taken(t.log[|w.log|..], id)))
  }

  lemma {:induction false} TakenOfNothing(log: seq<Entry>, id: string)
    ensures Taken(log[|log|..], id) == []
  {
  }

  lemma {:induction false} TakenOfOne(log: seq<Entry>, e: Entry, id: string)
    ensures Taken((log + [e])[|log|..], id) == if e.SignatureTaken? && e.id == id then [e.signature] else []
  {
    assert (log + [e])[|log|..] == [e];
    assert [e][..0] == [];
  }

  lemma LeftAlone(w: World, t: World, id: string)
    requires id in w.store && id in t.store && t.store[id] == w.store[id]
    requires t.log == w.log || (|t.log| == |w.log| + 1 && w.log <= t.log && t.log[|w.log|].ReachedDoor?)
    ensures Evolves(w, t, id)
  {
    TakenOfNothing(w.log, id);
    if t.log != w.log {
      TakenOfOne(w.log, t.log[|w.log|], id);
      assert t.log == w.log + [t.log[|w.log|]];
    }
  }

  ghost predicate StoredOk(w: World, id: string)
    requires id in w.store
  {
    w.store[id].id == id && RecordOk(w.log, w.store[id])
  }

  /** All of a successful collection: one more signature on one waiting record, on the log,
      and the call holding the record when that completed it. */
  lemma CollectShape(w: World, s: nat, at: Time, t: World)
    requires Invariant(w) && s in w.sessions && w.sessions[s].Checked? && t == AfterCollect(w, s, at)
    ensures var Checked(approver, _, read, _, floor) := w.sessions[s];
            || (t.store == w.store && t.log == w.log && t.released == w.released && t.sessions == w.sessions[s := Closed])
            || (&& read.id in w.store && w.store[read.id].IsPending(w.now)
                && Signs(w, s, at)
                && t.store == w.store[read.id := WithSignature(w.store[read.id], SignatureOf(w, s, at))]
                && t.log == w.log + [SignatureTaken(read.id, approver, SignatureOf(w, s, at), floor.revision)]
                && (t.released == w.released || t.released == w.released[read.id := HeldBy(s)]))
  {
    var Checked(approver, reference, read, _, floor) := w.sessions[s];
    var collected := Collected(w.store, w.atomicSigner, read, SignatureOf(w, s, at), w.now);
    if collected.Ok? {
      CollectSigns(w, s, at);
      CheckedSigns(w, s, at);
      AfterCollected(w, s, at, t, collected.value.0, collected.value.1);
    }
  }

  lemma CheckedSigns(w: World, s: nat, at: Time)
    requires Invariant(w) && s in w.sessions && w.sessions[s].Checked?
    requires Collected(w.store, w.atomicSigner, w.sessions[s].read, SignatureOf(w, s, at), w.now).Ok?
    ensures Signs(w, s, at)
  {
    assert SessionOk(w, s);
    CollectSigns(w, s, at);
  }

  lemma AfterCollected(w: World, s: nat, at: Time, t: World, record: Approval, store: Records)
    requires s in w.sessions && w.sessions[s].Checked? && t == AfterCollect(w, s, at)
    requires Collected(w.store, w.atomicSigner, w.sessions[s].read, SignatureOf(w, s, at), w.now) == Ok((record, store))
    ensures var Checked(approver, _, read, _, floor) := w.sessions[s];
            && t.store == store
            && t.log == w.log + [SignatureTaken(read.id, approver, SignatureOf(w, s, at), floor.revision)]
            && (t.released == w.released || t.released == w.released[record.id := HeldBy(s)])
  {
  }

  /** The facts under which a checked call's signature is taken. */
  ghost predicate Signs(w: World, s: nat, at: Time)
    requires s in w.sessions && w.sessions[s].Checked?
  {
    var Checked(approver, _, read, _, floor) := w.sessions[s];
    && read.id in w.store && StoredOk(w, read.id) && w.store[read.id].state == Pending
    && approver == Subject(SignatureOf(w, s, at).signer, false)
    && SignatureOf(w, s, at).signer != w.store[read.id].requester
    && !w.store[read.id].HasSignatureFrom(SignatureOf(w, s, at).signer)
    && floor.revision == w.store[read.id].floorRevision
  }

  lemma SubmitEvolves(w: World, s: nat, hasPort: bool, answer: DoorAnswer, t: World, id: string)
    requires s in w.sessions && w.sessions[s].Completed? && id in w.store && t == AfterSubmit(w, s, hasPort, answer)
    ensures Evolves(w, t, id)
  {
    LeftAlone(w, t, id);
  }

  lemma StepEvolves(w: World, a: Action, id: string)
    requires Invariant(w) && Enabled(w, a) && id in w.store
    ensures Evolves(w, Apply(w, a), id)
  {
    match a
    case Collect(s, at) => CollectEvolves(w, s, at, Apply(w, a), id);
    case Refuse(s, at) => RefuseEvolves(w, s, at, Apply(w, a), id);
    case Submit(s, hasPort, answer) => SubmitEvolves(w, s, hasPort, answer, Apply(w, a), id);
    case _ => OthersEvolve(w, a, Apply(w, a), id);
  }

  lemma OthersEvolve(w: World, a: Action, t: World, id: string)
    requires Enabled(w, a) && !a.Collect? && !a.Refuse? && !a.Submit? && id in w.store && t == Apply(w, a)
    ensures Evolves(w, t, id)
  {
    LeftAlone(w, t, id);
  }

  lemma RefuseEvolves(w: World, s: nat, at: Time, t: World, id: string)
    requires Invariant(w) && s in w.sessions && w.sessions[s].Declining? && id in w.store && t == AfterRefuse(w, s, at)
    ensures Evolves(w, t, id)
  {
    TakenOfNothing(w.log, id);
    assert SessionOk(w, s);
    assert t.log == w.log;
    if t.store[id] != w.store[id] {
      assert id == w.sessions[s].read.id;
    }
  }

  lemma OneEntryEvolves(w: World, t: World, e: Entry, id: string)
    requires id in w.store && id in t.store && t.log == w.log + [e]
    requires RequestOf(t.store[id]) == RequestOf(w.store[id])
    requires if e.SignatureTaken? && e.id == id
             then w.store[id].IsPending(w.now) && t.store[id].signatures == w.store[id].signatures + [e.signature]
             else t.store[id] == w.store[id]
    ensures Evolves(w, t, id)
  {
    TakenOfOne(w.log, e, id);
  }

  lemma CollectEvolves(w: World, s: nat, at: Time, t: World, id: string)
    requires Invariant(w) && s in w.sessions && w.sessions[s].Checked? && id in w.store && t == AfterCollect(w, s, at)
    ensures Evolves(w, t, id)
  {
    CollectShape(w, s, at, t);
    if t.log == w.log {
      TakenOfNothing(w.log, id);
    } else {
      OneEntryEvolves(w, t, t.log[|w.log|], id);
    }
  }

  lemma {:induction false} TakenSplits(one: seq<Entry>, two: seq<Entry>, id: string)
    ensures Taken(one + two, id) == Taken(one, id) + Taken(two, id)
  {
    if two == [] {
      assert one + two == one;
    } else {
      var n := |two| - 1;
      TakenSplits(one, two[..n], id);
      assert (one + two)[..|one| + n] == one + two[..n];
    }
  }

  /** A read taken earlier stays a true account of its record. */
  lemma ReadKept(w: World, t: World, read: Approval, readAt: nat)
    requires ReadOk(w, read, readAt) && Evolves(w, t, read.id)
    ensures ReadOk(t, read, readAt)
  {
    assert t.log == w.log + t.log[|w.log|..];
    assert t.log[readAt..] == w.log[readAt..] + t.log[|w.log|..];
    TakenSplits(w.log[readAt..], t.log[|w.log|..], read.id);
    if read.state == Pending {
      WitnessedLater(w.log, t.log[|w.log|..], read);
    }
  }

  // ---------------------------------------------------------------------------------------
  // The invariant is kept
  // ---------------------------------------------------------------------------------------

  lemma NewRecordOk(log: seq<Entry>, r: Approval)
    requires r.state == Pending && r.signatures == [] && r == RequestOf(r)
    ensures RecordOk(log, r)
  {
  }

  lemma RecordLater(w: World, t: World, r: Approval)
    requires RecordOk(w.log, r) && w.log <= t.log
    ensures RecordOk(t.log, r)
  {
    assert t.log == w.log + t.log[|w.log|..];
    WitnessedLater(w.log, t.log[|w.log|..], r);
  }

  lemma UntouchedKept(w: World, t: World, id: string)
    requires StoreOk(w) && w.log <= t.log
    requires id in w.store && id in t.store && t.store[id] == w.store[id]
    ensures StoredOk(t, id)
  {
    RecordLater(w, t, w.store[id]);
  }

  lemma OpeningKept(w: World, t: World, r: Approval, id: string)
    requires StoreOk(w) && w.log <= t.log && t.store == OpenedOrNot(w.store, r)
    requires r.state == Pending && r.signatures == [] && r == RequestOf(r)
    requires id in t.store
    ensures StoredOk(t, id)
  {
    if id in w.store {
      UntouchedKept(w, t, id);
    } else {
      NewRecordOk(t.log, r);
    }
  }

  lemma SubmitStoreKept(w: World, s: nat, hasPort: bool, answer: DoorAnswer, id: string)
    requires Invariant(w) && s in w.sessions && w.sessions[s].Completed?
    requires id in AfterSubmit(w, s, hasPort, answer).store
    ensures StoredOk(AfterSubmit(w, s, hasPort, answer), id)
  {
    var t := AfterSubmit(w, s, hasPort, answer);
    var Completed(approver, record, floor) := w.sessions[s];
    if hasPort && answer.NeedsApproval? {
      var r := NewApproval(answer.newId, record.team, record.change, approver.id, answer.roles, answer.reason,
                           floor, answer.created);
      OpeningKept(w, t, r, id);
    } else {
      UntouchedKept(w, t, id);
    }
  }

  lemma RefuseStoreKept(w: World, s: nat, at: Time, id: string)
    requires Invariant(w) && s in w.sessions && w.sessions[s].Declining?
    requires id in AfterRefuse(w, s, at).store
    ensures StoredOk(AfterRefuse(w, s, at), id)
  {
    assert SessionOk(w, s);
    var t := AfterRefuse(w, s, at);
    if t.store[id] == w.store[id] {
      UntouchedKept(w, t, id);
    }
  }

  lemma StoreKept(w: World, a: Action, id: string)
    requires Invariant(w) && Enabled(w, a) && id in Apply(w, a).store
    ensures StoredOk(Apply(w, a), id)
  {
    match a
    case Request(newId, team, change, requester, roles, reason, under, created) =>
      OpeningKept(w, Apply(w, a), NewApproval(newId, team, change, requester, roles, reason, under, created), id);
    case Collect(s, at) => CollectStoreKept(w, s, at, Apply(w, a), id);
    case Submit(s, hasPort, answer) => SubmitStoreKept(w, s, hasPort, answer, id);
    case Refuse(s, at) => RefuseStoreKept(w, s, at, id);
    case _ => UntouchedKept(w, Apply(w, a), id);
  }

  lemma SignedStoreKept(w: World, t: World, s: nat, at: Time, id: string)
    requires StoreOk(w) && s in w.sessions && w.sessions[s].Checked? && Signs(w, s, at)
    requires w.sessions[s].read.id == id
    requires t.store == w.store[id := WithSignature(w.store[id], SignatureOf(w, s, at))]
    requires t.log == w.log + [SignatureTaken(id, w.sessions[s].approver, SignatureOf(w, s, at), w.sessions[s].floor.revision)]
    ensures StoredOk(t, id)
  {
    SigningKeepsRecord(w.log, w.store[id], w.sessions[s].approver, SignatureOf(w, s, at));
  }

  lemma CollectStoreKept(w: World, s: nat, at: Time, t: World, id: string)
    requires Invariant(w) && s in w.sessions && w.sessions[s].Checked? && t == AfterCollect(w, s, at)
    requires id in t.store
    ensures StoredOk(t, id)
  {
    CollectShape(w, s, at, t);
    if t.log == w.log || id != w.sessions[s].read.id {
      UntouchedKept(w, t, id);
    } else {
      SignedStoreKept(w, t, s, at, id);
    }
  }

  lemma CarriedLater(log: seq<Entry>, more: seq<Entry>, record: Approval, approver: Subject, revision: string)
    requires CarriedOk(log, record, approver, revision)
    ensures CarriedOk(log + more, record, approver, revision)
  {
    WitnessedLater(log, more, record);
  }

  lemma TimeMovesOn(w: World, a: Action)
    requires Enabled(w, a)
    ensures w.now <= Apply(w, a).now
  {
  }

  lemma DecidedUnchanged(w: World, t: World, id: string)
    requires id in w.store && !w.store[id].IsPending(w.now) && Evolves(w, t, id) && w.now <= t.now
    ensures id in t.store && t.store[id] == w.store[id] && !t.store[id].IsPending(t.now)
  {
  }

  /** A record no longer waiting stays as it is. */
  lemma DecidedStays(w: World, a: Action, t: World, id: string)
    requires Invariant(w) && Enabled(w, a) && t == Apply(w, a) && id in w.store && !w.store[id].IsPending(w.now)
    ensures id in t.store && t.store[id] == w.store[id] && !t.store[id].IsPending(t.now)
  {
    StepEvolves(w, a, id);
    TimeMovesOn(w, a);
    DecidedUnchanged(w, t, id);
  }

  lemma HeldReadKept(w: World, a: Action, read: Approval, readAt: nat)
    requires Invariant(w) && Enabled(w, a) && ReadOk(w, read, readAt)
    ensures ReadOk(Apply(w, a), read, readAt)
  {
    StepEvolves(w, a, read.id);
    ReadKept(w, Apply(w, a), read, readAt);
  }

  lemma LogGrows(w: World, a: Action)
    requires Enabled(w, a)
    ensures w.log <= Apply(w, a).log
  {
  }

  lemma CompletionKept(w: World, a: Action, t: World, s: nat, approver: Subject, record: Approval, floor: Floor)
    requires Invariant(w) && Enabled(w, a) && t == Apply(w, a)
    requires s in w.sessions && w.sessions[s] == Completed(approver, record, floor)
    requires s in t.sessions && t.sessions[s] == w.sessions[s]
    ensures SessionOk(t, s)
  {
    assert SessionOk(w, s);
    assert !(a.Submit? && a.session == s);
    DecidedStays(w, a, t, record.id);
    ReleasedElsewhere(w, a, record.id, s);
    LogGrows(w, a);
    CompletionLater(w, t, s);
  }

  lemma CompletionLater(w: World, t: World, s: nat)
    requires s in w.sessions && w.sessions[s].Completed? && SessionOk(w, s)
    requires s in t.sessions && t.sessions[s] == w.sessions[s] && w.log <= t.log
    requires var id := w.sessions[s].record.id;
             && id in t.store && t.store[id] == w.store[id]
             && id in t.released && t.released[id] == w.released[id]
    ensures SessionOk(t, s)
  {
    assert t.log == w.log + t.log[|w.log|..];
    CarriedLater(w.log, t.log[|w.log|..], w.sessions[s].record, w.sessions[s].approver, w.sessions[s].floor.revision);
  }

  /** A call that does not move keeps what it relies on. */
  lemma OtherSessionKept(w: World, a: Action, t: World, s: nat)
    requires Invariant(w) && Enabled(w, a) && t == Apply(w, a)
    requires s in w.sessions && s in t.sessions && t.sessions[s] == w.sessions[s]
    ensures SessionOk(t, s)
  {
    assert SessionOk(w, s);
    match w.sessions[s]
    case Approving(_, _, read, readAt) => HeldReadKept(w, a, read, readAt);
    case Declining(_, _, read, readAt) => HeldReadKept(w, a, read, readAt);
    case Checked(_, _, read, readAt, _) => HeldReadKept(w, a, read, readAt);
    case Completed(approver, record, floor) => CompletionKept(w, a, t, s, approver, record, floor);
    case Closed =>
  }

  /** A record held by one call is not released by another's step. */
  lemma ReleasedElsewhere(w: World, a: Action, id: string, s: nat)
    requires Invariant(w) && Enabled(w, a)
    requires id in w.released && (w.released[id].HeldBy? ==> w.released[id] == HeldBy(s) && !(a.Submit? && a.session == s))
    ensures id in Apply(w, a).released && Apply(w, a).released[id] == w.released[id]
  {
    match a
    case Collect(o, at) => CollectReleases(w, o, at, Apply(w, a), id);
    case Submit(o, hasPort, answer) => SubmitReleases(w, o, hasPort, answer, id);
    case Refuse(o, at) => RefuseReleases(w, o, at);
    case _ =>
  }

  lemma CollectReleases(w: World, o: nat, at: Time, t: World, id: string)
    requires Invariant(w) && o in w.sessions && w.sessions[o].Checked? && t == AfterCollect(w, o, at)
    requires id in w.released
    ensures id in t.released && t.released[id] == w.released[id]
  {
    CollectShape(w, o, at, t);
    assert w.store[id].state == Approved;
  }

  lemma SubmitReleases(w: World, o: nat, hasPort: bool, answer: DoorAnswer, id: string)
    requires Invariant(w) && o in w.sessions && w.sessions[o].Completed?
    requires id in w.released && w.released[id] != HeldBy(o)
    ensures var t := AfterSubmit(w, o, hasPort, answer);
            id in t.released && t.released[id] == w.released[id]
  {
    assert SessionOk(w, o);
  }

  lemma RefuseReleases(w: World, o: nat, at: Time)
    requires o in w.sessions && w.sessions[o].Declining?
    ensures AfterRefuse(w, o, at).released == w.released
  {
  }

  lemma FreshReadOk(w: World, read: Approval, id: string)
    requires StoreOk(w) && Fetched(w.store, id, w.now) == Ok(read)
    ensures ReadOk(w, read, |w.log|)
  {
    TakenOfNothing(w.log, read.id);
  }

  lemma BeginOk(w: World, id: string)
    requires StoreOk(w) && Fetched(w.store, id, w.now).Ok?
    ensures ReadOk(w, Fetched(w.store, id, w.now).value, |w.log|)
  {
    FreshReadOk(w, Fetched(w.store, id, w.now).value, id);
  }

  lemma ReadOkAlike(w: World, t: World, read: Approval, readAt: nat)
    requires ReadOk(w, read, readAt) && t.store == w.store && t.log == w.log
    ensures ReadOk(t, read, readAt)
  {
  }

  lemma CheckOk(w: World, s: nat, at: Time)
    requires Invariant(w) && s in w.sessions && w.sessions[s].Approving?
    ensures SessionOk(w.(sessions := w.sessions[s := AfterCheck(w, w.sessions[s], at)]), s)
  {
    assert SessionOk(w, s);
    var t := w.(sessions := w.sessions[s := AfterCheck(w, w.sessions[s], at)]);
    ReadOkAlike(w, t, w.sessions[s].read, w.sessions[s].readAt);
  }

  lemma BegunOk(w: World, t: World, s: nat, id: string)
    requires StoreOk(w) && Fetched(w.store, id, w.now).Ok? && t.store == w.store && t.log == w.log && s in t.sessions
    requires var session := t.sessions[s];
             && (session.Approving? || session.Declining?) && session.readAt == |w.log|
             && session.read == Fetched(w.store, id, w.now).value
    ensures SessionOk(t, s)
  {
    BeginOk(w, id);
    ReadOkAlike(w, t, Fetched(w.store, id, w.now).value, |w.log|);
  }

  lemma ClosedByStep(w: World, a: Action, s: nat)
    requires Enabled(w, a) && (a.Submit? || a.Refuse?) && a.session == s
    ensures s in Apply(w, a).sessions && Apply(w, a).sessions[s] == Closed
  {
  }

  lemma BeginApproveOk(w: World, s: nat, id: string, approver: Subject, reference: string)
    requires Invariant(w) && s !in w.sessions && Fetched(w.store, id, w.now).Ok?
    ensures SessionOk(Apply(w, BeginApprove(s, id, approver, reference)), s)
  {
    BegunOk(w, Apply(w, BeginApprove(s, id, approver, reference)), s, id);
  }

  lemma BeginDeclineOk(w: World, s: nat, id: string, approver: Subject, reason: string)
    requires Invariant(w) && s !in w.sessions && Fetched(w.store, id, w.now).Ok? && reason != ""
    ensures SessionOk(Apply(w, BeginDecline(s, id, approver, reason)), s)
  {
    BegunOk(w, Apply(w, BeginDecline(s, id, approver, reason)), s, id);
  }

  /** The call an action belongs to, if it belongs to one. */
  predicate Moves(a: Action, s: nat) {
    match a
    case Tick(_) => false
    case Reload(_) => false
    case Request(_, _, _, _, _, _, _, _) => false
    case _ => a.session == s
  }

  lemma OnlyTheMoverMoves(w: World, a: Action, s: nat)
    requires Enabled(w, a) && s in Apply(w, a).sessions
    requires s !in w.sessions || Apply(w, a).sessions[s] != w.sessions[s]
    ensures Moves(a, s)
  {
  }

  lemma ActingSessionKept(w: World, a: Action, s: nat)
    requires Invariant(w) && Enabled(w, a) && s in Apply(w, a).sessions
    requires Moves(a, s)
    ensures SessionOk(Apply(w, a), s)
  {
    match a
    case BeginApprove(_, id, approver, reference) => BeginApproveOk(w, s, id, approver, reference);
    case BeginDecline(_, id, approver, reason) => BeginDeclineOk(w, s, id, approver, reason);
    case Check(_, at) => CheckOk(w, s, at);
    case Collect(_, at) => CompletionOk(w, s, at, Apply(w, a));
    case _ => ClosedByStep(w, a, s);
  }

  lemma CompletionOk(w: World, s: nat, at: Time, t: World)
    requires Invariant(w) && s in w.sessions && w.sessions[s].Checked? && t == AfterCollect(w, s, at)
    ensures s in t.sessions && SessionOk(t, s)
  {
    assert SessionOk(w, s);
    if Collected(w.store, w.atomicSigner, w.sessions[s].read, SignatureOf(w, s, at), w.now).Ok? {
      CollectSigns(w, s, at);
      SigningKeepsRecord(w.log, w.store[w.sessions[s].read.id], w.sessions[s].approver, SignatureOf(w, s, at));
    }
  }

  lemma OldEntryKept(w: World, a: Action, t: World, k: nat)
    requires Invariant(w) && Enabled(w, a) && t == Apply(w, a) && k < |w.log| && w.log <= t.log
    ensures EntryOk(t, k)
  {
    assert EntryOk(w, k);
    assert t.log[k] == w.log[k] && t.log[..k] == w.log[..k];
    if w.log[k].ReachedDoor? {
      DecidedStays(w, a, t, w.log[k].record.id);
      ReleasedElsewhere(w, a, w.log[k].record.id, 0);
    }
  }

  lemma SubmittedEntryOk(w: World, s: nat, hasPort: bool, answer: DoorAnswer, t: World, k: nat)
    requires Invariant(w) && s in w.sessions && w.sessions[s].Completed? && t == AfterSubmit(w, s, hasPort, answer)
    requires |w.log| <= k < |t.log|
    ensures EntryOk(t, k)
  {
    assert hasPort && k == |w.log|;
    var Completed(approver, record, floor) := w.sessions[s];
    assert SessionOk(w, s);
    assert t.log[..|w.log|] == w.log;
    SubmitKeepsStored(w, s, hasPort, answer, record.id);
    assert t.released[record.id] == AtDoor(|w.log|);
  }

  lemma SubmitKeepsStored(w: World, s: nat, hasPort: bool, answer: DoorAnswer, id: string)
    requires s in w.sessions && w.sessions[s].Completed? && id in w.store
    ensures id in AfterSubmit(w, s, hasPort, answer).store && AfterSubmit(w, s, hasPort, answer).store[id] == w.store[id]
  {
  }

  lemma EntryKept(w: World, a: Action, k: nat)
    requires Invariant(w) && Enabled(w, a) && k < |Apply(w, a).log|
    ensures EntryOk(Apply(w, a), k)
  {
    LogGrows(w, a);
    if k < |w.log| {
      OldEntryKept(w, a, Apply(w, a), k);
    } else {
      NewEntryOk(w, a, Apply(w, a), k);
    }
  }

  lemma NewEntryOk(w: World, a: Action, t: World, k: nat)
    requires Invariant(w) && Enabled(w, a) && t == Apply(w, a) && |w.log| <= k < |t.log|
    ensures EntryOk(t, k)
  {
    match a
    case Submit(s, hasPort, answer) => SubmittedEntryOk(w, s, hasPort, answer, t, k);
    case Collect(s, at) => CollectLogsSignatures(w, s, at, t, k);
    case _ => OthersLogNothing(w, a, t);
  }

  lemma CollectLogsSignatures(w: World, s: nat, at: Time, t: World, k: nat)
    requires s in w.sessions && w.sessions[s].Checked? && t == AfterCollect(w, s, at) && |w.log| <= k < |t.log|
    ensures EntryOk(t, k)
  {
  }

  lemma OthersLogNothing(w: World, a: Action, t: World)
    requires Enabled(w, a) && !a.Collect? && !a.Submit? && t == Apply(w, a)
    ensures t.log == w.log
  {
  }

  lemma ReleasedKept(w: World, a: Action, t: World, id: string)
    requires Invariant(w) && Enabled(w, a) && t == Apply(w, a) && id in t.released
    ensures id in t.store && t.store[id].state == Approved
  {
    if id in w.released {
      DecidedStays(w, a, t, id);
    } else {
      NewlyReleased(w, a, t, id);
    }
  }

  lemma HeldIsReleased(w: World, s: nat)
    requires Invariant(w) && s in w.sessions && w.sessions[s].Completed?
    ensures w.sessions[s].record.id in w.released
  {
    assert SessionOk(w, s);
  }

  lemma NewlyReleased(w: World, a: Action, t: World, id: string)
    requires Invariant(w) && Enabled(w, a) && t == Apply(w, a) && id in t.released && id !in w.released
    ensures id in t.store && t.store[id].state == Approved
  {
    match a
    case Collect(s, at) => CollectReleasesApproved(w, s, at, t, id);
    case Submit(s, hasPort, answer) => SubmitReleasesHeld(w, s, hasPort, answer, t, id);
    case _ => OthersReleaseNothing(w, a, t);
  }

  lemma CollectReleasesCompleted(w: World, s: nat, at: Time, t: World, id: string)
    requires s in w.sessions && w.sessions[s].Checked? && t == AfterCollect(w, s, at)
    requires id in t.released && id !in w.released
    ensures s in t.sessions && t.sessions[s].Completed? && t.sessions[s].record.id == id
  {
  }

  lemma CollectReleasesApproved(w: World, s: nat, at: Time, t: World, id: string)
    requires Invariant(w) && s in w.sessions && w.sessions[s].Checked? && t == AfterCollect(w, s, at)
    requires id in t.released && id !in w.released
    ensures id in t.store && t.store[id].state == Approved
  {
    CompletionOk(w, s, at, t);
    CollectReleasesCompleted(w, s, at, t, id);
  }

  lemma SubmitReleasesHeld(w: World, s: nat, hasPort: bool, answer: DoorAnswer, t: World, id: string)
    requires Invariant(w) && s in w.sessions && w.sessions[s].Completed? && t == AfterSubmit(w, s, hasPort, answer)
    ensures id in t.released ==> id in w.released
  {
    HeldIsReleased(w, s);
  }

  lemma OthersReleaseNothing(w: World, a: Action, t: World)
    requires Enabled(w, a) && !a.Collect? && !a.Submit? && t == Apply(w, a)
    ensures t.released == w.released
  {
  }

  lemma InvariantKept(w: World, a: Action)
    requires Invariant(w) && Enabled(w, a)
    ensures Invariant(Apply(w, a))
  {
    var t := Apply(w, a);
    forall id | id in t.store
      ensures t.store[id].id == id && RecordOk(t.log, t.store[id])
    {
      StoreKept(w, a, id);
      assert StoredOk(t, id);
    }
    forall s | s in t.sessions
      ensures SessionOk(t, s)
    {
      if s in w.sessions && t.sessions[s] == w.sessions[s] {
        OtherSessionKept(w, a, t, s);
      } else {
        OnlyTheMoverMoves(w, a, s);
        ActingSessionKept(w, a, s);
      }
    }
    forall k | 0 <= k < |t.log|
      ensures EntryOk(t, k)
    {
      EntryKept(w, a, k);
    }
    forall id | id in t.released
      ensures id in t.store && t.store[id].state == Approved
    {
      ReleasedKept(w, a, t, id);
    }
  }

  lemma {:induction false} EveryRunKeepsInvariant(start: World, schedule: seq<Action>)
    requires Invariant(start) && Play(start, schedule).Some?
    ensures Invariant(Play(start, schedule).value)
  {
    if schedule != [] {
      var n := |schedule| - 1;
      EveryRunKeepsInvariant(start, schedule[..n]);
      InvariantKept(Play(start, schedule[..n]).value, schedule[n]);
    }
  }

  lemma ReachableIsSound(atomicSigner: bool, now: Time, floor: Floor, schedule: seq<Action>, w: World)
    requires Reaches(atomicSigner, now, floor, schedule, w)
    ensures Invariant(w)
  {
    assert Invariant(Initial(atomicSigner, now, floor));
    EveryRunKeepsInvariant(Initial(atomicSigner, now, floor), schedule);
  }
}
