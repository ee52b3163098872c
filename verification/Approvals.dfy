/**
 Approval records and the in-memory store (mantlekeep-estate/approval.go, signature.go,
 approvals_memory.go and approvals_collect.go).

 The store's operations are given as functions on the map it holds; the class performs them.
 The clock is a parameter.
 */
module Approvals {
  import opened Estate

  type Time = int

  datatype Signature = Signature(signer: string, at: Time, reference: string)

  datatype ApprovalState = Pending | Approved | Declined | Expired

  datatype Approval = Approval(
    id: string, team: string, change: DesiredItem, requester: string, requiredRoles: seq<string>,
    requiredSignatures: int, floorRevision: string, reason: string,
    state: ApprovalState, approvedBy: string, signatures: seq<Signature>,
    declinedBy: string, declinedReason: string, createdAt: Time, decidedAt: Time, expiresAt: Time)
  {
    predicate IsPending(now: Time) {
      state == Pending && now < expiresAt
    }

    /** Zero reads as one: a record from before the count existed meant one person. */
    function SignaturesRequired(): (n: nat)
      ensures n >= 1
    {
      if requiredSignatures < 1 then 1 else requiredSignatures
    }

    /** A record from before the list existed carries its one signer in `approvedBy`. */
    function CollectedSignatures(): seq<Signature> {
      if |signatures| > 0 then signatures
      else if approvedBy != "" then [Signature(approvedBy, decidedAt, "")]
      else []
    }

    function SignaturesOutstanding(): nat {
      var collected := |CollectedSignatures()|;
      if collected >= SignaturesRequired() then 0 else SignaturesRequired() - collected
    }

    predicate HasSignatureFrom(approver: string) {
      exists i | 0 <= i < |CollectedSignatures()| :: CollectedSignatures()[i].signer == approver
    }
  }

  datatype Error =
    | NotFound | NotPending | AlreadyExists
    | SelfApproval | DuplicateSignature | AIApproval | FloorMoved
    | SignaturesStillOutstanding | StoreCannotCollect

  datatype Result<T> = Ok(value: T) | Err(error: Error)

  type Records = map<string, Approval>

  // ---------------------------------------------------------------------------------------
  // The store's operations
  // ---------------------------------------------------------------------------------------

  function Opened(records: Records, approval: Approval): Result<Records> {
    if approval.id in records then Err(AlreadyExists) else Ok(records[approval.id := approval])
  }

  /** Expiry is judged on reading; what is stored does not change. */
  function Fetched(records: Records, id: string, now: Time): Result<Approval> {
    if id !in records then Err(NotFound)
    else if records[id].state == Pending && !(now < records[id].expiresAt) then Ok(records[id].(state := Expired))
    else Ok(records[id])
  }

  function Decided(records: Records, approval: Approval, now: Time): Result<Records> {
    if approval.id !in records then Err(NotFound)
    else if !records[approval.id].IsPending(now) then Err(NotPending)
    else if approval.state == Approved && approval.SignaturesOutstanding() > 0 then Err(SignaturesStillOutstanding)
    else Ok(records[approval.id := approval])
  }

  /** The record with one more signature, decided when that completes the set. */
  function WithSignature(approval: Approval, signature: Signature): Approval {
    var signed := approval.(signatures := approval.signatures + [signature]);
    if signed.SignaturesOutstanding() == 0 then
      signed.(state := Approved, approvedBy := signature.signer, decidedAt := signature.at)
    else signed
  }

  function Signed(records: Records, id: string, signature: Signature, now: Time): Result<Approval> {
    if id !in records then Err(NotFound)
    else if !records[id].IsPending(now) then Err(NotPending)
    else if signature.signer == records[id].requester then Err(SelfApproval)
    else if records[id].HasSignatureFrom(signature.signer) then Err(DuplicateSignature)
    else Ok(WithSignature(records[id], signature))
  }

  /** The record a store without an atomic append is asked to decide: the approval as it was
      read, completed by this one signature. */
  function CompletedBy(read: Approval, signature: Signature): Approval {
    read.(signatures := [signature], state := Approved, approvedBy := signature.signer, decidedAt := signature.at)
  }

  /** Collecting a signature against either kind of store. */
  function Collected(records: Records, atomicSigner: bool, read: Approval, signature: Signature, now: Time)
    : Result<(Approval, Records)>
  {
    if atomicSigner then
      match Signed(records, read.id, signature, now) {
        case Err(e) => Err(e)
        case Ok(a) => Ok((a, records[read.id := a]))
      }
    else if read.SignaturesRequired() > 1 then Err(StoreCannotCollect)
    else
      match Decided(records, CompletedBy(read, signature), now) {
        case Err(e) => Err(e)
        case Ok(after) => Ok((CompletedBy(read, signature), after))
      }
  }

  // ---------------------------------------------------------------------------------------
  // The store as an object
  // ---------------------------------------------------------------------------------------

  class MemoryApprovals {
    var records: Records

    constructor ()
      ensures records == map[]
    {
      records := map[];
    }

    method Open(approval: Approval) returns (r: Result<()>)
      modifies this
      ensures r.Err? ==> records == old(records) && r == Err(AlreadyExists) && approval.id in records
      ensures r.Ok? ==> Opened(old(records), approval) == Ok(records)
    {
      if approval.id in records {
        return Err(AlreadyExists);
      }
      records := records[approval.id := approval];
      r := Ok(());
    }

    method Get(id: string, now: Time) returns (r: Result<Approval>)
      ensures r == Fetched(records, id, now)
    {
      if id !in records {
        return Err(NotFound);
      }
      var approval := records[id];
      if approval.state == Pending && now >= approval.expiresAt {
        approval := approval.(state := Expired);
      }
      r := Ok(approval);
    }

    method Decide(approval: Approval, now: Time) returns (r: Result<()>)
      modifies this
      ensures r.Err? ==> records == old(records) && Decided(records, approval, now) == Err(r.error)
      ensures r.Ok? ==> Decided(old(records), approval, now) == Ok(records)
    {
      if approval.id !in records {
        return Err(NotFound);
      }
      if !records[approval.id].IsPending(now) {
        return Err(NotPending);
      }
      if approval.state == Approved && approval.SignaturesOutstanding() > 0 {
        return Err(SignaturesStillOutstanding);
      }
      records := records[approval.id := approval];
      r := Ok(());
    }

    method Sign(id: string, signature: Signature, now: Time) returns (r: Result<Approval>)
      modifies this
      ensures r == Signed(old(records), id, signature, now)
      ensures records == if r.Ok? then old(records)[id := r.value] else old(records)
    {
      if id !in records {
        return Err(NotFound);
      }
      var approval := records[id];
      if !approval.IsPending(now) {
        return Err(NotPending);
      }
      if signature.signer == approval.requester {
        return Err(SelfApproval);
      }
      var signed := HasSigned(approval, signature.signer);
      if signed {
        return Err(DuplicateSignature);
      }
      approval := approval.(signatures := approval.signatures + [signature]);
      if approval.SignaturesOutstanding() == 0 {
        approval := approval.(state := Approved, approvedBy := signature.signer, decidedAt := signature.at);
      }
      records := records[id := approval];
      r := Ok(approval);
    }

    /** The search behind the distinctness rule. */
    method HasSigned(approval: Approval, approver: string) returns (found: bool)
      ensures found == approval.HasSignatureFrom(approver)
    {
      var collected := approval.CollectedSignatures();
      for i := 0 to |collected|
        invariant forall j | 0 <= j < i :: collected[j].signer != approver
      {
        if collected[i].signer == approver {
          return true;
        }
      }
      found := false;
    }
  }

  /** Collecting a signature: the atomic append where the store has one, else the record
      completed here and decided by compare-and-set. */
  method CollectSignature(store: MemoryApprovals, atomicSigner: bool, read: Approval, signature: Signature, now: Time)
    returns (r: Result<Approval>)
    modifies store
    ensures match Collected(old(store.records), atomicSigner, read, signature, now)
            case Err(e) => r == Err(e) && store.records == old(store.records)
            case Ok((record, records)) => r == Ok(record) && store.records == records
  {
    if atomicSigner {
      r := store.Sign(read.id, signature, now);
      return;
    }
    if read.SignaturesRequired() > 1 {
      return Err(StoreCannotCollect);
    }
    var approval := read.(signatures := [signature]);
    approval := approval.(state := Approved);
    approval := approval.(approvedBy := signature.signer);
    approval := approval.(decidedAt := signature.at);
    var decided := store.Decide(approval, now);
    if decided.Err? {
      return Err(decided.error);
    }
    r := Ok(approval);
  }
}
