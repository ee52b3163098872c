/**
 Stored policy (mantlekeep-policy-postgres/document.go): two documents as bytes, the values
 they stand for, and the revision they carry. JSON is a parameter with one law: what was
 rendered parses back.
 */
module PolicyDocument {
  import opened PolicyChange
  import opened Revision

  datatype FloorRule = FloorRule(
    kind: string, param: string, values: seq<string>, caps: map<string, string>, whenParam: string,
    whenIn: seq<string>, whenValue: string, pattern: string, role: string, message: string)

  type Floors = map<string, seq<FloorRule>>

  datatype Parsed<T> = Parsed(value: T) | Unreadable

  datatype Json = Json(
    renderGrants: Grants -> Bytes, parseGrants: Bytes -> Parsed<Grants>,
    renderFloors: Floors -> Bytes, parseFloors: Bytes -> Parsed<Floors>,
    digest: Digest)

  ghost predicate Lawful(json: Json) {
    && (forall g :: json.parseGrants(json.renderGrants(g)) == Parsed(g))
    && (forall f :: json.parseFloors(json.renderFloors(f)) == Parsed(f))
    && CollisionFree(json.digest)
  }

  datatype Documents = Documents(grants: Grants, floors: Floors)

  datatype Snapshot = Snapshot(grantsDoc: Bytes, floorsDoc: Bytes, storedRevision: string)

  /** The documents in force; a document that does not parse is an error, never empty policy. */
  function Decode(json: Json, s: Snapshot): Parsed<Documents> {
    match (json.parseGrants(s.grantsDoc), json.parseFloors(s.floorsDoc))
    case (Parsed(g), Parsed(f)) => Parsed(Documents(g, f))
    case _ => Unreadable
  }

  function Encode(json: Json, d: Documents): Snapshot {
    var g, f := json.renderGrants(d.grants), json.renderFloors(d.floors);
    Snapshot(g, f, RevisionOf(json.digest, [g, f]))
  }

  /** A snapshot whose stored revision is the revision of what it says. */
  ghost predicate Honest(json: Json, s: Snapshot) {
    Decode(json, s).Parsed? && s.storedRevision == Encode(json, Decode(json, s).value).storedRevision
  }

  /** What is stored reads back as it was, and carries its own revision. */
  lemma EncodingReadsBack(json: Json, d: Documents)
    requires Lawful(json)
    ensures Decode(json, Encode(json, d)) == Parsed(d) && Honest(json, Encode(json, d))
  {
    assert json.parseGrants(json.renderGrants(d.grants)) == Parsed(d.grants);
    assert json.parseFloors(json.renderFloors(d.floors)) == Parsed(d.floors);
  }

  /** Equal revisions are equal policy: grants and floors, order within lists included. */
  lemma RevisionNamesThePolicy(json: Json, d: Documents, e: Documents)
    requires Lawful(json)
    ensures Encode(json, d).storedRevision == Encode(json, e).storedRevision <==> d == e
  {
    EncodingReadsBack(json, d);
    EncodingReadsBack(json, e);
    var one := [json.renderGrants(d.grants), json.renderFloors(d.floors)];
    var two := [json.renderGrants(e.grants), json.renderFloors(e.floors)];
    RevisionNamesTheDocuments(json.digest, one, two);
    assert one == two ==> one[0] == two[0] && one[1] == two[1];
  }

  /** A grant, any changes not naming its pair, and its revoke bring the policy back to the
      revision those changes alone would reach; unless the role was listed with no actions and
      nothing in between granted it any. */
  lemma {:induction false} RoundTripRestoresRevision(json: Json, d: Documents, changes: seq<Change>, role: string,
                                                     action: string,
                                  why: string, whyNot: string)
    requires Lawful(json) && !Holds(d.grants, role, action)
    requires forall c | c in changes :: !Names(c, role, action)
    ensures var alone := AppliedAll(d.grants, changes);
            var around := Applied(AppliedAll(Applied(d.grants, Change(role, action, true, why)), changes),
                                  Change(role, action, false, whyNot));
            Encode(json, d.(grants := around)).storedRevision == Encode(json, d.(grants := alone)).storedRevision
            <==> !(Emptied(d.grants, role) && forall c | c in changes :: !GrantsTo(c, role))
  {
    var alone := AppliedAll(d.grants, changes);
    var around := Applied(AppliedAll(Applied(d.grants, Change(role, action, true, why)), changes),
                          Change(role, action, false, whyNot));
    GrantThenRevokeLeavesNoTrace(d.grants, changes, role, action, why, whyNot);
    RevisionNamesThePolicy(json, d.(grants := around), d.(grants := alone));
  }
}
