/**
 Concurrent writers of one policy (mantlekeep-policy-postgres/writer.go, the store contract in
 store.go and the row-locking store in sqlstore/store.go) as a transition system.

 A store either holds the head for the whole read-modify-write, so that an update is one step,
 or it cannot, and an update is a read followed by a commit that verifies the stored revision.
 */
module PolicyWriter {
  import opened PolicyChange
  import opened PolicyDocument

  datatype Entry = Entry(snapshot: Snapshot, change: Change, parentRevision: string)

  datatype Error = NoPolicy | CorruptDocument | RevisionConflict | StoreFailed

  datatype Rendered = Ok(entry: Entry) | Err(error: Error)

  datatype Writer =
    | Ready(change: Change, attempts: nat)
    | Reading(change: Change, attempts: nat, head: Snapshot, entry: Entry)
    | Done(change: Change, revision: string)
    | Failed(change: Change, error: Error)

  datatype Head = NoHead | Head(snapshot: Snapshot)

  /** `owners` says which writer appended each row of the history; no step reads it. */
  datatype World = World(
    locking: bool, head: Head, history: seq<Entry>, owners: seq<nat>, writers: map<nat, Writer>)

  datatype Action =
    | Begin(writer: nat, change: Change)
    | Update(writer: nat)
    | Read(writer: nat)
    | Commit(writer: nat)
    | Break(writer: nat)

  const MAX_WRITE_ATTEMPTS := 5

  // ---------------------------------------------------------------------------------------
  // The steps
  // ---------------------------------------------------------------------------------------

  /** The approved change, rendered against a head. */
  function Render(json: Json, head: Snapshot, change: Change): Rendered {
    match Decode(json, head)
    case Unreadable => Err(CorruptDocument)
    case Parsed(d) =>
      Ok(Entry(Encode(json, d.(grants := Applied(d.grants, change))), change, head.storedRevision))
  }

  predicate Enabled(w: World, a: Action) {
    match a
    case Begin(i, _) => i !in w.writers
    case Update(i) => w.locking && i in w.writers && w.writers[i].Ready?
    case Read(i) => !w.locking && i in w.writers && w.writers[i].Ready?
    case Commit(i) => !w.locking && i in w.writers && w.writers[i].Reading?
    case Break(i) => i in w.writers && (w.writers[i].Ready? || w.writers[i].Reading?)
  }

  function Apply(json: Json, w: World, a: Action): World
    requires Enabled(w, a)
  {
    match a
    case Begin(i, change) => w.(writers := w.writers[i := Ready(change, 0)])
    case Update(i) => AfterUpdate(json, w, i)
    case Read(i) => AfterRead(json, w, i)
    case Commit(i) => AfterCommit(w, i)
    case Break(i) => Fails(w, i, StoreFailed)
  }

  function Fails(w: World, i: nat, error: Error): World
    requires i in w.writers
  {
    w.(writers := w.writers[i := Failed(w.writers[i].change, error)])
  }

  /** The new head and its history row land together. */
  function Lands(w: World, i: nat, entry: Entry): World
    requires i in w.writers
  {
    w.(head := Head(entry.snapshot), history := w.history + [entry], owners := w.owners + [i],
       writers := w.writers[i := Done(w.writers[i].change, entry.snapshot.storedRevision)])
  }

  function AfterUpdate(json: Json, w: World, i: nat): World
    requires i in w.writers
  {
    match w.head
    case NoHead => Fails(w, i, NoPolicy)
    case Head(head) =>
      match Render(json, head, w.writers[i].change)
      case Err(e) => Fails(w, i, e)
      case Ok(entry) => Lands(w, i, entry)
  }

  function AfterRead(json: Json, w: World, i: nat): World
    requires i in w.writers && w.writers[i].Ready?
  {
    match w.head
    case NoHead => Fails(w, i, NoPolicy)
    case Head(head) =>
      match Render(json, head, w.writers[i].change)
      case Err(e) => Fails(w, i, e)
      case Ok(entry) =>
        w.(writers := w.writers[i := Reading(w.writers[i].change, w.writers[i].attempts, head, entry)])
  }

  function AfterCommit(w: World, i: nat): World
    requires i in w.writers && w.writers[i].Reading?
  {
    var Reading(change, attempts, head, entry) := w.writers[i];
    if w.head.Head? && w.head.snapshot.storedRevision == head.storedRevision then Lands(w, i, entry)
    else w.(writers := w.writers[i := Retried(change, attempts + 1)])
  }

  /** A conflict wrote nothing, so reading again is safe; a bounded number of times. */
  function Retried(change: Change, attempts: nat): Writer {
    if attempts < MAX_WRITE_ATTEMPTS then Ready(change, attempts) else Failed(change, RevisionConflict)
  }

  function Initial(locking: bool, head: Head): World {
    World(locking, head, [], [], map[])
  }

  datatype Played = Reached(world: World) | Stuck

  function Play(json: Json, start: World, schedule: seq<Action>): Played {
    if schedule == [] then Reached(start)
    else
      var n := |schedule| - 1;
      match Play(json, start, schedule[..n])
      case Stuck => Stuck
      case Reached(w) => if Enabled(w, schedule[n]) then Reached(Apply(json, w, schedule[n])) else Stuck
  }

  // ---------------------------------------------------------------------------------------
  // The books: rows, parents and owners, whatever the seed
  // ---------------------------------------------------------------------------------------

  /** The head before row `k`: the one the store began with, or what the previous row stored. */
  function HeadAt(first: Head, history: seq<Entry>, k: nat): Head
    requires k <= |history|
  {
    if k == 0 then first else Head(history[k - 1].snapshot)
  }

  ghost predicate Linked(json: Json, first: Head, history: seq<Entry>, k: nat)
    requires k < |history|
  {
    && HeadAt(first, history, k).Head?
    && history[k].parentRevision == HeadAt(first, history, k).snapshot.storedRevision
    && Honest(json, history[k].snapshot)
  }

  predicate Owns(w: World, i: nat, k: nat) {
    k < |w.owners| && w.owners[k] == i
  }

  predicate OwnsNone(w: World, i: nat) {
    i !in w.owners
  }

  /** Exactly one row of the history is this writer's, with its change and its revision. */
  ghost predicate OwnsOne(w: World, i: nat, change: Change, revision: string) {
    && |w.history| == |w.owners|
    && (exists k: nat :: Owns(w, i, k) && w.history[k].change == change && w.history[k].snapshot.storedRevision == revision)
    && (forall j: nat, k: nat | Owns(w, i, j) && Owns(w, i, k) :: j == k)
  }

  ghost predicate WriterOk(json: Json, w: World, i: nat)
    requires i in w.writers
  {
    match w.writers[i]
    case Ready(_, attempts) => attempts < MAX_WRITE_ATTEMPTS && OwnsNone(w, i)
    case Reading(change, attempts, head, entry) =>
      attempts < MAX_WRITE_ATTEMPTS && !w.locking && Render(json, head, change) == Ok(entry) && OwnsNone(w, i)
    case Failed(_, _) => OwnsNone(w, i)
    case Done(change, revision) => OwnsOne(w, i, change, revision)
  }

  ghost predicate Books(json: Json, first: Head, w: World) {
    && |w.owners| == |w.history|
    && w.head == HeadAt(first, w.history, |w.history|)
    && (forall k | 0 <= k < |w.history| :: Linked(json, first, w.history, k))
    && (forall i | i in w.writers :: WriterOk(json, w, i))
    && (forall k: nat | k < |w.owners| :: w.owners[k] in w.writers && w.writers[w.owners[k]].Done?)
  }

  lemma LandingKeepsWriters(json: Json, w: World, i: nat, entry: Entry, j: nat)
    requires |w.owners| == |w.history| && i in w.writers && !w.writers[i].Done? && WriterOk(json, w, i)
    requires entry.change == w.writers[i].change
    requires j in w.writers && WriterOk(json, w, j)
    ensures WriterOk(json, Lands(w, i, entry), j)
  {
    var t := Lands(w, i, entry);
    if j == i {
      assert Owns(t, i, |w.owners|);
    } else if w.writers[j].Done? {
      var k: nat :| Owns(w, j, k) && w.history[k].change == w.writers[j].change
                    && w.history[k].snapshot.storedRevision == w.writers[j].revision;
      assert Owns(t, j, k) && t.history[k] == w.history[k];
      forall a: nat, b: nat | Owns(t, j, a) && Owns(t, j, b) ensures a == b {
        assert Owns(w, j, a) && Owns(w, j, b);
      }
    }
  }

  /** A row written on top of the head it names as its parent. */
  lemma LandingKeepsBooks(json: Json, first: Head, w: World, i: nat, entry: Entry)
    requires Books(json, first, w) && i in w.writers && (w.writers[i].Ready? || w.writers[i].Reading?)
    requires entry.change == w.writers[i].change && Honest(json, entry.snapshot)
    requires w.head.Head? && entry.parentRevision == w.head.snapshot.storedRevision
    ensures Books(json, first, Lands(w, i, entry))
  {
    var t := Lands(w, i, entry);
    forall k | 0 <= k < |t.history|
      ensures Linked(json, first, t.history, k)
    {
      if k < |w.history| {
        assert Linked(json, first, w.history, k);
      }
    }
    forall j | j in t.writers
      ensures WriterOk(json, t, j)
    {
      assert WriterOk(json, w, i) && WriterOk(json, w, j);
      LandingKeepsWriters(json, w, i, entry, j);
    }
    forall k: nat | k < |t.owners|
      ensures t.owners[k] in t.writers && t.writers[t.owners[k]].Done?
    {
      assert k < |w.owners| ==> t.owners[k] == w.owners[k];
    }
  }

  /** A step that only moves a writer who owns nothing keeps everything. */
  lemma MovingKeepsBooks(json: Json, first: Head, w: World, i: nat, state: Writer)
    requires Books(json, first, w) && !state.Done?
    requires i in w.writers ==> !w.writers[i].Done?
    requires state.Ready? ==> state.attempts < MAX_WRITE_ATTEMPTS
    requires state.Reading? ==>
               state.attempts < MAX_WRITE_ATTEMPTS && !w.locking && Render(json, state.head, state.change) == Ok(state.entry)
    ensures Books(json, first, w.(writers := w.writers[i := state]))
  {
    var t := w.(writers := w.writers[i := state]);
    assert OwnsNone(w, i) by {
      assert i in w.writers ==> WriterOk(json, w, i);
    }
    forall j | j in t.writers
      ensures WriterOk(json, t, j)
    {
      if j != i {
        assert WriterOk(json, w, j);
        OwnershipStays(w, t, j);
      }
    }
    forall k: nat | k < |t.owners|
      ensures t.owners[k] in t.writers && t.writers[t.owners[k]].Done?
    {
      assert w.owners[k] != i;
    }
  }

  lemma OwnershipStays(w: World, t: World, i: nat)
    requires w.owners == t.owners
    ensures forall k: nat :: Owns(t, i, k) == Owns(w, i, k)
  {
  }

  lemma RenderedIsHonest(json: Json, head: Snapshot, change: Change)
    requires Lawful(json) && Render(json, head, change).Ok?
    ensures Honest(json, Render(json, head, change).entry.snapshot)
  {
    var d := Decode(json, head).value;
    EncodingReadsBack(json, d.(grants := Applied(d.grants, change)));
  }

  lemma CommitKeepsBooks(json: Json, first: Head, w: World, i: nat)
    requires Lawful(json) && Books(json, first, w) && Enabled(w, Commit(i))
    ensures Books(json, first, AfterCommit(w, i))
  {
    assert WriterOk(json, w, i);
    var Reading(change, attempts, head, entry) := w.writers[i];
    if w.head.Head? && w.head.snapshot.storedRevision == head.storedRevision {
      RenderedIsHonest(json, head, change);
      LandingKeepsBooks(json, first, w, i, entry);
    } else {
      MovingKeepsBooks(json, first, w, i, Retried(change, attempts + 1));
    }
  }

  lemma UpdateKeepsBooks(json: Json, first: Head, w: World, i: nat)
    requires Lawful(json) && Books(json, first, w) && Enabled(w, Update(i))
    ensures Books(json, first, AfterUpdate(json, w, i))
  {
    if w.head.Head? && Render(json, w.head.snapshot, w.writers[i].change).Ok? {
      RenderedIsHonest(json, w.head.snapshot, w.writers[i].change);
      LandingKeepsBooks(json, first, w, i, Render(json, w.head.snapshot, w.writers[i].change).entry);
    } else {
      MovingKeepsBooks(json, first, w, i, AfterUpdate(json, w, i).writers[i]);
    }
  }

  lemma StepKeepsBooks(json: Json, first: Head, w: World, a: Action)
    requires Lawful(json) && Books(json, first, w) && Enabled(w, a)
    ensures Books(json, first, Apply(json, w, a))
  {
    match a
    case Begin(i, change) => MovingKeepsBooks(json, first, w, i, Ready(change, 0));
    case Update(i) => UpdateKeepsBooks(json, first, w, i);
    case Read(i) => {
      assert WriterOk(json, w, i);
      MovingKeepsBooks(json, first, w, i, AfterRead(json, w, i).writers[i]);
    }
    case Commit(i) => CommitKeepsBooks(json, first, w, i);
    case Break(i) => MovingKeepsBooks(json, first, w, i, Failed(w.writers[i].change, StoreFailed));
  }

  lemma {:induction false} EveryRunKeepsBooks(json: Json, locking: bool, first: Head, schedule: seq<Action>, w: World)
    requires Lawful(json) && Play(json, Initial(locking, first), schedule) == Reached(w)
    ensures Books(json, first, w) && w.locking == locking
  {
    if schedule != [] {
      var n := |schedule| - 1;
      var before := Play(json, Initial(locking, first), schedule[..n]).world;
      EveryRunKeepsBooks(json, locking, first, schedule[..n], before);
      StepKeepsBooks(json, first, before, schedule[n]);
    }
  }

  // ---------------------------------------------------------------------------------------
  // The fold: what the policy in force says
  // ---------------------------------------------------------------------------------------

  /** What the policy says once changes are applied to it, in order; floors as they were. */
  function After(d: Documents, changes: seq<Change>): Documents {
    d.(grants := AppliedAll(d.grants, changes))
  }

  function Changes(history: seq<Entry>): (r: seq<Change>)
    ensures |r| == |history| && forall i | 0 <= i < |r| :: r[i] == history[i].change
  {
    seq(|history|, i requires 0 <= i < |history| => history[i].change)
  }

  /** The seed's stored revision is that of its own content, or of nothing that changes could
      make of it. */
  ghost predicate Safe(json: Json, seed: Snapshot) {
    && Decode(json, seed).Parsed?
    && (|| Honest(json, seed)
        || forall changes :: Encode(json, After(Decode(json, seed).value, changes)).storedRevision != seed.storedRevision)
  }

  /** The seed itself, or something honest that changes made of it. */
  ghost predicate Known(json: Json, seed: Snapshot, s: Snapshot)
    requires Decode(json, seed).Parsed?
  {
    || s == seed
    || (Honest(json, s) && exists changes :: Decode(json, s) == Parsed(After(Decode(json, seed).value, changes)))
  }

  /** Between honest snapshots a matching revision means the write computed is the write the
      head would get now. */
  lemma MatchingRevisionMeansSameWrite(json: Json, read: Snapshot, head: Snapshot, change: Change)
    requires Lawful(json) && Honest(json, read) && Honest(json, head)
    ensures read.storedRevision == head.storedRevision <==> Decode(json, read) == Decode(json, head)
    ensures read.storedRevision == head.storedRevision ==> Render(json, read, change) == Render(json, head, change)
  {
    RevisionNamesThePolicy(json, Decode(json, read).value, Decode(json, head).value);
  }

  /** So it does between a safe seed and whatever changes made of it. */
  lemma KnownSnapshotsWriteAlike(json: Json, seed: Snapshot, read: Snapshot, head: Snapshot, change: Change)
    requires Lawful(json) && Safe(json, seed) && Known(json, seed, read) && Known(json, seed, head)
    requires read.storedRevision == head.storedRevision
    ensures Render(json, read, change) == Render(json, head, change)
  {
    if read != seed {
      SafeSeedIsHonestOnceReached(json, seed, read, head);
      MatchingRevisionMeansSameWrite(json, read, head, change);
    } else if head != seed {
      SafeSeedIsHonestOnceReached(json, seed, head, read);
      MatchingRevisionMeansSameWrite(json, read, head, change);
    }
  }

  lemma SafeSeedIsHonestOnceReached(json: Json, seed: Snapshot, made: Snapshot, other: Snapshot)
    requires Lawful(json) && Safe(json, seed) && Known(json, seed, made) && Known(json, seed, other) && made != seed
    requires made.storedRevision == other.storedRevision
    ensures Honest(json, other)
  {
    var changes :| Decode(json, made) == Parsed(After(Decode(json, seed).value, changes));
    assert Encode(json, After(Decode(json, seed).value, changes)).storedRevision == made.storedRevision;
  }

  ghost predicate Folded(json: Json, seed: Documents, history: seq<Entry>, k: nat)
    requires k < |history|
  {
    history[k].snapshot == Encode(json, After(seed, Changes(history[..k + 1])))
  }

  /** The policy in force is the seed with every change of the history applied in order. */
  ghost predicate IsTheFold(json: Json, seed: Snapshot, w: World)
    requires Decode(json, seed).Parsed?
  {
    w.head.Head? && Decode(json, w.head.snapshot) == Parsed(After(Decode(json, seed).value, Changes(w.history)))
  }

  /** A store that cannot hold the head needs a safe seed; one that holds it does not. */
  ghost predicate Folds(json: Json, seed: Snapshot, w: World) {
    && Decode(json, seed).Parsed? && (w.locking || Safe(json, seed))
    && IsTheFold(json, seed, w)
    && (forall k | 0 <= k < |w.history| :: Folded(json, Decode(json, seed).value, w.history, k))
    && (forall i | i in w.writers && w.writers[i].Reading? :: Known(json, seed, w.writers[i].head))
  }

  lemma ChangesOneMore(history: seq<Entry>, entry: Entry)
    ensures Changes(history + [entry]) == Changes(history) + [entry.change]
  {
  }

  lemma AfterOneMore(d: Documents, changes: seq<Change>, change: Change)
    ensures After(d, changes + [change]) == After(d, changes).(grants := Applied(After(d, changes).grants, change))
  {
    assert (changes + [change])[..|changes|] == changes;
  }

  lemma HeadIsKnown(json: Json, seed: Snapshot, w: World)
    requires Books(json, Head(seed), w) && Folds(json, seed, w)
    ensures Known(json, seed, w.head.snapshot)
  {
    if w.history != [] {
      assert Linked(json, Head(seed), w.history, |w.history| - 1);
    }
  }

  lemma LandingKeepsFold(json: Json, seed: Snapshot, w: World, i: nat, entry: Entry)
    requires Lawful(json) && Folds(json, seed, w) && i in w.writers
    requires Render(json, w.head.snapshot, w.writers[i].change) == Ok(entry)
    ensures Folds(json, seed, Lands(w, i, entry))
  {
    var t, d := Lands(w, i, entry), Decode(json, seed).value;
    ChangesOneMore(w.history, entry);
    AfterOneMore(d, Changes(w.history), entry.change);
    EncodingReadsBack(json, After(d, Changes(t.history)));
    forall k | 0 <= k < |t.history|
      ensures Folded(json, d, t.history, k)
    {
      if k < |w.history| {
        assert Folded(json, d, w.history, k);
        assert t.history[..k + 1] == w.history[..k + 1];
      } else {
        assert t.history[..k + 1] == t.history;
      }
    }
  }

  lemma StepKeepsFold(json: Json, seed: Snapshot, w: World, a: Action)
    requires Lawful(json) && Books(json, Head(seed), w) && Folds(json, seed, w) && Enabled(w, a)
    ensures Folds(json, seed, Apply(json, w, a))
  {
    match a
    case Begin(_, _) =>
    case Update(i) => {
      var rendered := Render(json, w.head.snapshot, w.writers[i].change);
      LandingKeepsFold(json, seed, w, i, rendered.entry);
    }
    case Read(_) => HeadIsKnown(json, seed, w);
    case Commit(i) => {
      var Reading(change, _, head, entry) := w.writers[i];
      if w.head.snapshot.storedRevision == head.storedRevision {
        assert WriterOk(json, w, i);
        HeadIsKnown(json, seed, w);
        KnownSnapshotsWriteAlike(json, seed, head, w.head.snapshot, change);
        LandingKeepsFold(json, seed, w, i, entry);
      }
    }
    case Break(_) =>
  }

  lemma {:induction false} EveryRunKeepsFold(json: Json, locking: bool, seed: Snapshot, schedule: seq<Action>, w: World)
    requires Lawful(json) && Decode(json, seed).Parsed? && (locking || Safe(json, seed))
    requires Play(json, Initial(locking, Head(seed)), schedule) == Reached(w)
    ensures Folds(json, seed, w)
  {
    if schedule != [] {
      var n := |schedule| - 1;
      var before := Play(json, Initial(locking, Head(seed)), schedule[..n]).world;
      EveryRunKeepsFold(json, locking, seed, schedule[..n], before);
      EveryRunKeepsBooks(json, locking, Head(seed), schedule[..n], before);
      StepKeepsFold(json, seed, before, schedule[n]);
    } else {
      assert Changes([]) == [];
    }
  }

  // ---------------------------------------------------------------------------------------
  // The guarantees
  // ---------------------------------------------------------------------------------------

  /** However writers interleave, the policy in force is the seed with every change of the
      history applied in order, the floors as they were; no change is lost or applied twice.
      So for every store that holds the head, and for every safe seed. */
  lemma {:induction false} HeadIsTheFoldOfItsHistory(json: Json, locking: bool, seed: Snapshot, schedule: seq<Action>,
                                                     w: World)
    requires Lawful(json) && Decode(json, seed).Parsed? && (locking || Safe(json, seed))
    requires Play(json, Initial(locking, Head(seed)), schedule) == Reached(w)
    ensures w.head == HeadAt(Head(seed), w.history, |w.history|)
    ensures var d := Decode(json, seed).value;
            Decode(json, w.head.snapshot) == Parsed(Documents(AppliedAll(d.grants, Changes(w.history)), d.floors))
    ensures forall k | 0 <= k < |w.history| ::
              w.history[k].snapshot == Encode(json, After(Decode(json, seed).value, Changes(w.history[..k + 1])))
  {
    EveryRunKeepsFold(json, locking, seed, schedule, w);
    EveryRunKeepsBooks(json, locking, Head(seed), schedule, w);
    forall k | 0 <= k < |w.history|
      ensures w.history[k].snapshot == Encode(json, After(Decode(json, seed).value, Changes(w.history[..k + 1])))
    {
      assert Folded(json, Decode(json, seed).value, w.history, k);
    }
  }

  /** Each row names the revision before it as its parent, and stores its own content's
      revision: the history has no gap, whatever the store began with. */
  lemma {:induction false} HistoryIsAChain(json: Json, locking: bool, first: Head, schedule: seq<Action>, w: World,
                                           k: nat)
    requires Lawful(json) && Play(json, Initial(locking, first), schedule) == Reached(w) && k < |w.history|
    ensures HeadAt(first, w.history, k).Head?
    ensures w.history[k].parentRevision == HeadAt(first, w.history, k).snapshot.storedRevision
    ensures Honest(json, w.history[k].snapshot)
  {
    EveryRunKeepsBooks(json, locking, first, schedule, w);
    assert Linked(json, first, w.history, k);
  }

  /** A write that succeeded owns exactly one row, holding its change and the revision it
      returned; one that failed or is still under way owns none; every row has its writer. */
  lemma {:induction false} EachWriteOwnsItsRow(json: Json, locking: bool, first: Head, schedule: seq<Action>, w: World)
    requires Lawful(json) && Play(json, Initial(locking, first), schedule) == Reached(w)
    ensures |w.owners| == |w.history|
    ensures forall i | i in w.writers && w.writers[i].Done? :: OwnsOne(w, i, w.writers[i].change, w.writers[i].revision)
    ensures forall i | i in w.writers && !w.writers[i].Done? :: OwnsNone(w, i)
    ensures forall k | 0 <= k < |w.owners| :: w.owners[k] in w.writers && w.writers[w.owners[k]].Done?
  {
    EveryRunKeepsBooks(json, locking, first, schedule, w);
    forall i | i in w.writers
      ensures if w.writers[i].Done? then OwnsOne(w, i, w.writers[i].change, w.writers[i].revision) else OwnsNone(w, i)
    {
      assert WriterOk(json, w, i);
    }
  }

  /** With the head held, nobody ever loses a race. */
  lemma {:induction false} LockingNeverConflicts(json: Json, head: Head, schedule: seq<Action>, w: World)
    requires Play(json, Initial(true, head), schedule) == Reached(w)
    ensures w.locking
    ensures forall i | i in w.writers :: !w.writers[i].Reading?
    ensures forall i | i in w.writers :: w.writers[i] != Failed(w.writers[i].change, RevisionConflict)
  {
    if schedule != [] {
      var n := |schedule| - 1;
      LockingNeverConflicts(json, head, schedule[..n], Play(json, Initial(true, head), schedule[..n]).world);
    }
  }

  /** Policy that is missing or cannot be read is never written over. */
  lemma {:induction false} UnreadablePolicyIsNeverReplaced(json: Json, locking: bool, head: Head,
                                                           schedule: seq<Action>, w: World)
    requires head.Head? ==> Decode(json, head.snapshot).Unreadable?
    requires Play(json, Initial(locking, head), schedule) == Reached(w)
    ensures w.head == head && w.history == []
    ensures forall i | i in w.writers :: w.writers[i].Ready? || w.writers[i].Failed?
  {
    if schedule != [] {
      var n := |schedule| - 1;
      UnreadablePolicyIsNeverReplaced(json, locking, head, schedule[..n],
                                      Play(json, Initial(locking, head), schedule[..n]).world);
    }
  }

  /** A policy is missing only when it was from the first, and unreadable likewise. */
  ghost predicate HasCause(json: Json, first: Head, error: Error) {
    && (error == NoPolicy ==> first.NoHead?)
    && (error == CorruptDocument ==> first.Head? && Decode(json, first.snapshot).Unreadable?)
  }

  lemma HeadStaysReadable(json: Json, first: Head, w: World)
    requires Books(json, first, w)
    ensures w.head.NoHead? ==> first.NoHead?
    ensures w.head.Head? && Decode(json, w.head.snapshot).Unreadable? ==>
              first.Head? && Decode(json, first.snapshot).Unreadable?
  {
    if w.history != [] {
      assert Linked(json, first, w.history, |w.history| - 1);
    }
  }

  lemma StepHasCause(json: Json, first: Head, w: World, a: Action, i: nat)
    requires Books(json, first, w) && Enabled(w, a) && i in Apply(json, w, a).writers
    requires i in w.writers && w.writers[i].Failed? ==> HasCause(json, first, w.writers[i].error)
    ensures var t := Apply(json, w, a); t.writers[i].Failed? ==> HasCause(json, first, t.writers[i].error)
  {
    HeadStaysReadable(json, first, w);
    if a.writer != i {
      OthersLeaveItAlone(json, w, a, i);
    }
  }

  /** No write fails for a missing or unreadable policy unless the store began with one. */
  lemma {:induction false} FailuresHaveCauses(json: Json, locking: bool, first: Head, schedule: seq<Action>, w: World,
                                              i: nat)
    requires Lawful(json) && Play(json, Initial(locking, first), schedule) == Reached(w)
    requires i in w.writers && w.writers[i].Failed?
    ensures HasCause(json, first, w.writers[i].error)
  {
    var n := |schedule| - 1;
    var before := Play(json, Initial(locking, first), schedule[..n]).world;
    EveryRunKeepsBooks(json, locking, first, schedule[..n], before);
    if i in before.writers && before.writers[i].Failed? {
      FailuresHaveCauses(json, locking, first, schedule[..n], before, i);
    }
    StepHasCause(json, first, before, schedule[n], i);
  }

  // ---------------------------------------------------------------------------------------
  // Conflicts
  // ---------------------------------------------------------------------------------------

  /** How many rows there were when the writer began. */
  function BeganAt(json: Json, start: World, schedule: seq<Action>, i: nat): nat {
    if schedule == [] then |start.history|
    else
      var n := |schedule| - 1;
      var before := Play(json, start, schedule[..n]);
      if schedule[n].Begin? && schedule[n].writer == i && before.Reached? then |before.world.history|
      else BeganAt(json, start, schedule[..n], i)
  }

  /** Every attempt used up is a row that landed since. */
  ghost predicate Paced(first: Head, w: World, i: nat, began: nat)
    requires i in w.writers
  {
    match w.writers[i]
    case Ready(_, attempts) => began + attempts <= |w.history|
    case Reading(_, attempts, head, _) =>
      exists k: nat :: began + attempts <= k <= |w.history| && HeadAt(first, w.history, k) == Head(head)
    case Failed(_, error) => error == RevisionConflict ==> began + MAX_WRITE_ATTEMPTS <= |w.history|
    case Done(_, _) => true
  }

  lemma CommitIsPaced(first: Head, w: World, i: nat, began: nat)
    requires w.head == HeadAt(first, w.history, |w.history|)
    requires Enabled(w, Commit(i)) && w.writers[i].attempts < MAX_WRITE_ATTEMPTS && Paced(first, w, i, began)
    ensures Paced(first, AfterCommit(w, i), i, began)
  {
  }

  /** The history only grows, and what was before stays. */
  lemma PaceIsKept(first: Head, w: World, t: World, i: nat, began: nat)
    requires i in w.writers && i in t.writers && t.writers[i] == w.writers[i] && w.history <= t.history
    requires Paced(first, w, i, began)
    ensures Paced(first, t, i, began)
  {
    if w.writers[i].Reading? {
      var k: nat :| began + w.writers[i].attempts <= k <= |w.history| && HeadAt(first, w.history, k) == Head(w.writers[i].head);
      assert HeadAt(first, t.history, k) == Head(w.writers[i].head);
    }
  }

  lemma HistoryGrows(json: Json, w: World, a: Action)
    requires Enabled(w, a)
    ensures w.history <= Apply(json, w, a).history
  {
  }

  lemma StepIsPaced(json: Json, first: Head, w: World, a: Action, i: nat, began: nat)
    requires Books(json, first, w) && Enabled(w, a) && i in Apply(json, w, a).writers
    requires if a.Begin? && a.writer == i then began == |w.history| else i in w.writers && Paced(first, w, i, began)
    ensures Paced(first, Apply(json, w, a), i, began)
  {
    var t := Apply(json, w, a);
    if a.writer != i {
      HistoryGrows(json, w, a);
      OthersLeaveItAlone(json, w, a, i);
      PaceIsKept(first, w, t, i, began);
    } else if a.Read? && t.writers[i].Reading? {
      assert HeadAt(first, t.history, |t.history|) == Head(t.writers[i].head);
    } else if a.Commit? {
      assert WriterOk(json, w, i);
      CommitIsPaced(first, w, i, began);
    }
  }

  lemma {:induction false} RunsArePaced(json: Json, locking: bool, first: Head, schedule: seq<Action>, w: World, i: nat)
    requires Lawful(json) && Play(json, Initial(locking, first), schedule) == Reached(w) && i in w.writers
    ensures Paced(first, w, i, BeganAt(json, Initial(locking, first), schedule, i))
  {
    var n := |schedule| - 1;
    var before := Play(json, Initial(locking, first), schedule[..n]).world;
    EveryRunKeepsBooks(json, locking, first, schedule[..n], before);
    if !(schedule[n].Begin? && schedule[n].writer == i) {
      RunsArePaced(json, locking, first, schedule[..n], before, i);
    }
    StepIsPaced(json, first, before, schedule[n], i, BeganAt(json, Initial(locking, first), schedule, i));
  }

  /** A write fails for conflict only when as many rows landed while it was under way as it has
      attempts, every one of them another writer's. */
  lemma {:induction false} AConflictIsFiveLostRaces(json: Json, locking: bool, first: Head, schedule: seq<Action>,
                                                    w: World, i: nat)
    requires Lawful(json) && Play(json, Initial(locking, first), schedule) == Reached(w)
    requires i in w.writers && w.writers[i].Failed? && w.writers[i].error == RevisionConflict
    ensures BeganAt(json, Initial(locking, first), schedule, i) + MAX_WRITE_ATTEMPTS <= |w.history| == |w.owners|
    ensures OwnsNone(w, i)
  {
    RunsArePaced(json, locking, first, schedule, w, i);
    EachWriteOwnsItsRow(json, locking, first, schedule, w);
  }

  // ---------------------------------------------------------------------------------------
  // A stored revision that is not the content's
  // ---------------------------------------------------------------------------------------

  lemma {:induction false} OneMoreStep(json: Json, start: World, schedule: seq<Action>, w: World, a: Action)
    requires Play(json, start, schedule) == Reached(w) && Enabled(w, a)
    ensures Play(json, start, schedule + [a]) == Reached(Apply(json, w, a))
  {
    assert (schedule + [a])[..|schedule|] == schedule;
  }

  /** A writer that comes alone: it begins, reads and commits. */
  lemma {:induction false} WritesAlone(json: Json, start: World, schedule: seq<Action>, w: World, i: nat, change: Change)
    returns (longer: seq<Action>, t: World)
    requires Lawful(json) && Play(json, start, schedule) == Reached(w) && !w.locking && i !in w.writers
    requires w.head.Head? && Decode(json, w.head.snapshot).Parsed?
    ensures Play(json, start, longer) == Reached(t) && !t.locking
    ensures (forall j :: j in t.writers <==> j in w.writers || j == i) && t.writers[i].Done?
    ensures forall j | j in w.writers :: t.writers[j] == w.writers[j]
    ensures var d := Decode(json, w.head.snapshot).value;
            t.head == Head(Encode(json, d.(grants := Applied(d.grants, change))))
    ensures Changes(t.history) == Changes(w.history) + [change]
  {
    var began := Apply(json, w, Begin(i, change));
    OneMoreStep(json, start, schedule, w, Begin(i, change));
    var read := Apply(json, began, Read(i));
    OneMoreStep(json, start, schedule + [Begin(i, change)], began, Read(i));
    t := Apply(json, read, Commit(i));
    longer := schedule + [Begin(i, change)] + [Read(i)] + [Commit(i)];
    OneMoreStep(json, start, schedule + [Begin(i, change)] + [Read(i)], read, Commit(i));
  }

  /** The first writer, still holding what it read of the seed. */
  ghost predicate HoldsTheSeed(json: Json, seed: Snapshot, one: Change, w: World) {
    && !w.locking && 0 in w.writers && w.writers[0].Reading?
    && w.writers[0].change == one && w.writers[0].head == seed && Render(json, seed, one) == Ok(w.writers[0].entry)
  }

  /** Writers 1 to `k` came and went while the first one held what it had read. */
  ghost predicate Overtaken(json: Json, seed: Snapshot, one: Change, changes: seq<Change>, w: World) {
    && HoldsTheSeed(json, seed, one, w)
    && (forall i: nat :: i in w.writers <==> i <= |changes|) && (forall i | i in w.writers && i > 0 :: w.writers[i].Done?)
    && Changes(w.history) == changes
    && Decode(json, seed).Parsed?
    && w.head == if changes == [] then Head(seed) else Head(Encode(json, After(Decode(json, seed).value, changes)))
  }

  lemma FirstReads(json: Json, seed: Snapshot, one: Change) returns (schedule: seq<Action>, w: World)
    requires Decode(json, seed).Parsed?
    ensures Play(json, Initial(false, Head(seed)), schedule) == Reached(w) && Overtaken(json, seed, one, [], w)
  {
    var start := Initial(false, Head(seed));
    OneMoreStep(json, start, [], start, Begin(0, one));
    var began := Apply(json, start, Begin(0, one));
    OneMoreStep(json, start, [Begin(0, one)], began, Read(0));
    schedule, w := [Begin(0, one)] + [Read(0)], Apply(json, began, Read(0));
    assert [] + [Begin(0, one)] == [Begin(0, one)];
  }

  lemma {:induction false} OthersOvertake(json: Json, seed: Snapshot, one: Change, changes: seq<Change>)
    returns (schedule: seq<Action>, w: World)
    requires Lawful(json) && Decode(json, seed).Parsed?
    ensures Play(json, Initial(false, Head(seed)), schedule) == Reached(w) && Overtaken(json, seed, one, changes, w)
    decreases |changes|
  {
    if changes == [] {
      schedule, w := FirstReads(json, seed, one);
    } else {
      var n := |changes| - 1;
      var d := Decode(json, seed).value;
      var shorter, before := OthersOvertake(json, seed, one, changes[..n]);
      EncodingReadsBack(json, After(d, changes[..n]));
      AfterOneMore(d, changes[..n], changes[n]);
      assert changes == changes[..n] + [changes[n]];
      schedule, w := WritesAlone(json, Initial(false, Head(seed)), shorter, before, n + 1, changes[n]);
    }
  }

  /** The overtaken writer commits: the revision it read is the one it finds. */
  lemma {:induction false} CommitsOverAll(json: Json, seed: Snapshot, changes: seq<Change>, one: Change,
                                          before: World, w: World)
    requires Lawful(json) && Decode(json, seed).Parsed? && Overtaken(json, seed, one, changes, before)
    requires Encode(json, After(Decode(json, seed).value, changes)).storedRevision == seed.storedRevision
    requires Enabled(before, Commit(0)) && w == Apply(json, before, Commit(0))
    ensures (forall i: nat :: i in w.writers <==> i <= |changes|) && (forall i | i in w.writers :: w.writers[i].Done?)
    ensures Changes(w.history) == changes + [one]
    ensures w.head == Head(Encode(json, After(Decode(json, seed).value, [one])))
  {
    ChangesOneMore(before.history, before.writers[0].entry);
    AfterOneMore(Decode(json, seed).value, [], one);
    assert [] + [one] == [one];
  }

  /** When the seed's stored revision is what some changes will reach, a writer that read the
      seed commits over all of them: every one is told it succeeded, and the head says only what
      the first one asked for. */
  lemma {:induction false} AnUnsafeSeedLosesChanges(json: Json, seed: Snapshot, changes: seq<Change>, one: Change)
    returns (schedule: seq<Action>, w: World)
    requires Lawful(json) && Decode(json, seed).Parsed?
    requires Encode(json, After(Decode(json, seed).value, changes)).storedRevision == seed.storedRevision
    ensures Play(json, Initial(false, Head(seed)), schedule) == Reached(w)
    ensures (forall i: nat :: i in w.writers <==> i <= |changes|) && (forall i | i in w.writers :: w.writers[i].Done?)
    ensures Changes(w.history) == changes + [one]
    ensures w.head == Head(Encode(json, After(Decode(json, seed).value, [one])))
  {
    var front, before := OthersOvertake(json, seed, one, changes);
    OneMoreStep(json, Initial(false, Head(seed)), front, before, Commit(0));
    schedule, w := front + [Commit(0)], Apply(json, before, Commit(0));
    CommitsOverAll(json, seed, changes, one, before, w);
  }

  /** A role neither document lists. */
  lemma {:induction false} UnlistedRole(roles: set<string>) returns (role: string)
    ensures role !in roles && forall r | r in roles :: |r| < |role|
  {
    if roles == {} {
      role := "role";
    } else {
      var r :| r in roles;
      var longer := UnlistedRole(roles - {r});
      role := longer + r + ".";
    }
  }

  /** A revoke of what neither document holds changes neither. */
  lemma NoChangeToEither(g: Grants, h: Grants) returns (change: Change)
    ensures Applied(g, change) == g && Applied(h, change) == h
  {
    var role := UnlistedRole(g.roleActions.Keys + h.roleActions.Keys);
    change := Change(role, "", false, "");
  }

  /** In every run of the schedule the head is the fold; a schedule that cannot run has none. */
  ghost predicate FoldsAfter(json: Json, seed: Snapshot, schedule: seq<Action>)
    requires Decode(json, seed).Parsed?
  {
    match Play(json, Initial(false, Head(seed)), schedule)
    case Stuck => true
    case Reached(w) => IsTheFold(json, seed, w)
  }

  lemma {:induction false} AnUnsafeSeedBreaksTheFold(json: Json, seed: Snapshot) returns (schedule: seq<Action>)
    requires Lawful(json) && Decode(json, seed).Parsed? && !Safe(json, seed)
    ensures !FoldsAfter(json, seed, schedule)
  {
    var d := Decode(json, seed).value;
    var changes :| Encode(json, After(d, changes)).storedRevision == seed.storedRevision;
    var one := NoChangeToEither(d.grants, After(d, changes).grants);
    var w;
    schedule, w := AnUnsafeSeedLosesChanges(json, seed, changes, one);
    AfterOneMore(d, changes, one);
    AfterOneMore(d, [], one);
    assert [] + [one] == [one];
    EncodingReadsBack(json, d);
    assert After(d, changes) != d;
  }

  /** On a store that cannot hold the head: the head is the fold of its history after every
      schedule exactly when the seed is safe. */
  lemma {:induction false} HeadIsTheFoldIffTheSeedIsSafe(json: Json, seed: Snapshot)
    requires Lawful(json) && Decode(json, seed).Parsed?
    ensures (forall schedule :: FoldsAfter(json, seed, schedule)) <==> Safe(json, seed)
  {
    if Safe(json, seed) {
      forall schedule
        ensures FoldsAfter(json, seed, schedule)
      {
        var played := Play(json, Initial(false, Head(seed)), schedule);
        if played.Reached? {
          EveryRunKeepsFold(json, false, seed, schedule, played.world);
        }
      }
    } else {
      var schedule := AnUnsafeSeedBreaksTheFold(json, seed);
    }
  }

  // ---------------------------------------------------------------------------------------
  // One call of Write
  // ---------------------------------------------------------------------------------------

  datatype WriteResult = Written(revision: string) | NotWritten(error: Error)

  /** What a writer who is through tells its caller. */
  function Answer(state: Writer): WriteResult
    requires state.Done? || state.Failed?
  {
    match state
    case Done(_, revision) => Written(revision)
    case Failed(_, error) => NotWritten(error)
  }

  /** What one attempt makes of a writer: it is through, or it conflicted and may try again. */
  predicate Attempted(before: Writer, after: Writer, fails: bool)
    requires before.Ready?
  {
    && after.change == before.change
    && (|| (after.Done? && !fails) || (after.Failed? && after.error != RevisionConflict && (after.error == StoreFailed ==> fails))
        || (after == Retried(before.change, before.attempts + 1) && !fails))
  }

  /** The attempts of one writer: each is an update, or a read with or without its commit. */
  function Attempts(schedule: seq<Action>, i: nat): nat {
    if schedule == [] then 0
    else
      var n := |schedule| - 1;
      Attempts(schedule[..n], i) + if schedule[n] == Update(i) || schedule[n] == Action.Read(i) then 1 else 0
  }

  lemma {:induction false} AttemptsOneMore(schedule: seq<Action>, a: Action, i: nat)
    ensures Attempts(schedule + [a], i) ==
            Attempts(schedule, i) + if a == Update(i) || a == Action.Read(i) then 1 else 0
  {
    assert (schedule + [a])[..|schedule|] == schedule;
  }

  /** The policy writer over a store other writers share; `Others` runs any of their steps. */
  class Policy {
    const json: Json
    const first: Head
    const locking: bool
    var world: World
    ghost var schedule: seq<Action>

    ghost predicate Valid()
      reads this
    {
      && Lawful(json) && world.locking == locking
      && Play(json, Initial(locking, first), schedule) == Reached(world)
    }

    constructor (json: Json, first: Head, locking: bool)
      requires Lawful(json)
      ensures Valid() && world == Initial(locking, first) && fresh(this)
      ensures this.json == json && this.first == first && this.locking == locking
    {
      this.json, this.first, this.locking := json, first, locking;
      world := Initial(locking, first);
      schedule := [];
    }

    method Perform(a: Action)
      requires Valid() && Enabled(world, a)
      modifies this
      ensures Valid() && world == Apply(json, old(world), a) && schedule == old(schedule) + [a]
    {
      LockIsFixed(json, world, a);
      world := Apply(json, world, a);
      schedule := schedule + [a];
      assert schedule[..|schedule| - 1] == old(schedule);
    }

    method Others(i: nat)
      requires Valid()
      modifies this
      ensures Valid() && old(schedule) <= schedule
      ensures Attempts(schedule, i) == Attempts(old(schedule), i)
      ensures i in world.writers <==> i in old(world.writers)
      ensures i in world.writers ==> world.writers[i] == old(world.writers)[i]
    {
      var steps: nat := *;
      while steps > 0
        invariant Valid() && old(schedule) <= schedule
        invariant Attempts(schedule, i) == Attempts(old(schedule), i)
        invariant i in world.writers <==> i in old(world.writers)
        invariant i in world.writers ==> world.writers[i] == old(world.writers)[i]
      {
        var a: Action := *;
        if Enabled(world, a) && a.writer != i {
          OthersLeaveItAlone(json, world, a, i);
          AttemptsOneMore(schedule, a, i);
          Perform(a);
        }
        steps := steps - 1;
      }
    }

    /** A store that cannot hold the head reads it, and commits if nothing landed since; it may
        fail at either. */
    method ReadThenCommit(i: nat, fails: bool)
      requires Valid() && !locking && i in world.writers && world.writers[i].Ready?
      modifies this
      ensures Valid() && old(schedule) <= schedule && i in world.writers
      ensures Attempts(schedule, i) == Attempts(old(schedule), i) + 1
      ensures Attempted(old(world.writers)[i], world.writers[i], fails)
    {
      AttemptsOneMore(schedule, Action.Read(i), i);
      Perform(Action.Read(i));
      Others(i);
      if !world.writers[i].Reading? {
        return;
      }
      if fails {
        AttemptsOneMore(schedule, Break(i), i);
        Perform(Break(i));
      } else {
        AttemptsOneMore(schedule, Commit(i), i);
        Perform(Commit(i));
      }
    }

    /** One attempt: a step of the store when it holds the head, a read and a commit when not. */
    method WriteOnce(i: nat, fails: bool)
      requires Valid() && i in world.writers && world.writers[i].Ready?
      modifies this
      ensures Valid() && old(schedule) <= schedule && i in world.writers
      ensures Attempts(schedule, i) <= Attempts(old(schedule), i) + 1
      ensures !fails ==> Attempts(schedule, i) == Attempts(old(schedule), i) + 1
      ensures Attempted(old(world.writers)[i], world.writers[i], fails)
      ensures fails ==> world.writers[i].Failed? && world.writers[i].error != RevisionConflict
    {
      Others(i);
      var late: bool := *;
      if fails && (locking || !late) {
        AttemptsOneMore(schedule, Break(i), i);
        Perform(Break(i));
      } else if locking {
        AttemptsOneMore(schedule, Update(i), i);
        Perform(Update(i));
      } else {
        ReadThenCommit(i, fails);
      }
    }

    /** Attempts until one settles the write, or all of them conflicted. */
    method TryRepeatedly(i: nat, fails: nat -> bool)
      requires Valid() && i in world.writers && world.writers[i].Ready? && world.writers[i].attempts == 0
      modifies this
      ensures Valid() && old(schedule) <= schedule && i in world.writers
      ensures world.writers[i].change == old(world.writers)[i].change
      ensures world.writers[i].Done? || world.writers[i].Failed?
      ensures Attempts(schedule, i) <= Attempts(old(schedule), i) + MAX_WRITE_ATTEMPTS
      ensures world.writers[i].Failed? && world.writers[i].error == RevisionConflict ==>
                Attempts(schedule, i) == Attempts(old(schedule), i) + MAX_WRITE_ATTEMPTS
      ensures world.writers[i].Failed? && world.writers[i].error == StoreFailed ==>
                exists k: nat :: k < MAX_WRITE_ATTEMPTS && fails(k)
      ensures fails(0) ==> world.writers[i].Failed? && world.writers[i].error != RevisionConflict
    {
      ghost var base, change := Attempts(schedule, i), world.writers[i].change;
      for attempt: nat := 0 to MAX_WRITE_ATTEMPTS
        invariant Valid() && old(schedule) <= schedule
        invariant Attempts(schedule, i) == base + attempt
        invariant i in world.writers && world.writers[i] == Retried(change, attempt)
        invariant attempt > 0 ==> !fails(0)
      {
        WriteOnce(i, fails(attempt));
        if world.writers[i].Done? || (world.writers[i].Failed? && world.writers[i].error != RevisionConflict) {
          return;
        }
      }
    }

    /** The approved change, applied to whatever the head turns out to hold, in at most five
        attempts; all five only for a conflict, which a store that holds the head never has and
        any other only once five rows of other writers landed since the call. Success names the
        one row that is this write's; failure leaves none, and comes of a store that failed at
        some attempt, or of a policy missing or unreadable from the first. */
    method Write(i: nat, change: Change, fails: nat -> bool) returns (r: WriteResult)
      requires Valid() && i !in world.writers
      modifies this
      ensures Valid() && old(schedule) <= schedule && i in world.writers && world.writers[i].change == change
      ensures (world.writers[i].Done? || world.writers[i].Failed?) && r == Answer(world.writers[i])
      ensures r.Written? ==> OwnsOne(world, i, change, r.revision)
      ensures r.NotWritten? ==> OwnsNone(world, i) && HasCause(json, first, r.error)
      ensures r == NotWritten(StoreFailed) ==> exists k: nat :: k < MAX_WRITE_ATTEMPTS && fails(k)
      ensures fails(0) ==> r.NotWritten? && r.error != RevisionConflict
      ensures Attempts(schedule, i) <= Attempts(old(schedule), i) + MAX_WRITE_ATTEMPTS
      ensures r == NotWritten(RevisionConflict) ==>
                && !locking && Attempts(schedule, i) == Attempts(old(schedule), i) + MAX_WRITE_ATTEMPTS
                && |old(world.history)| + MAX_WRITE_ATTEMPTS <= |world.history|
    {
      AttemptsOneMore(schedule, Begin(i, change), i);
      Perform(Begin(i, change));
      ghost var begun := schedule;
      TryRepeatedly(i, fails);
      Settles(json, locking, first, begun, schedule, world, i, |old(world.history)|);
      r := Answer(world.writers[i]);
    }
  }

  /** What a writer that is through leaves, and what its failure means. */
  lemma {:induction false} Settles(json: Json, locking: bool, first: Head, begun: seq<Action>, schedule: seq<Action>,
                                   w: World,
                                   i: nat, began: nat)
    requires Lawful(json) && Play(json, Initial(locking, first), schedule) == Reached(w) && begun <= schedule
    requires Play(json, Initial(locking, first), begun).Reached?
    requires i in Play(json, Initial(locking, first), begun).world.writers
    requires BeganAt(json, Initial(locking, first), begun, i) == began
    requires i in w.writers && (w.writers[i].Done? || w.writers[i].Failed?)
    ensures w.writers[i].Done? ==> OwnsOne(w, i, w.writers[i].change, w.writers[i].revision)
    ensures w.writers[i].Failed? ==> OwnsNone(w, i) && HasCause(json, first, w.writers[i].error)
    ensures w.writers[i].Failed? && w.writers[i].error == RevisionConflict ==>
              !locking && began + MAX_WRITE_ATTEMPTS <= |w.history|
  {
    EachWriteOwnsItsRow(json, locking, first, schedule, w);
    if w.writers[i].Failed? {
      FailuresHaveCauses(json, locking, first, schedule, w, i);
      if w.writers[i].error == RevisionConflict {
        if locking {
          LockingNeverConflicts(json, first, schedule, w);
        }
        AConflictIsFiveLostRaces(json, locking, first, schedule, w, i);
        BeganOnce(json, Initial(locking, first), begun, schedule, i, began);
      }
    }
  }

  /** A writer begins once: what followed did not move its beginning. */
  lemma {:induction false} BeganOnce(json: Json, start: World, begun: seq<Action>, schedule: seq<Action>, i: nat,
                                     began: nat)
    requires begun <= schedule && Play(json, start, schedule).Reached? && Play(json, start, begun).Reached?
    requires i in Play(json, start, begun).world.writers && BeganAt(json, start, begun, i) == began
    ensures BeganAt(json, start, schedule, i) == began && i in Play(json, start, schedule).world.writers
  {
    if |schedule| > |begun| {
      BeganOnce(json, start, begun, schedule[..|schedule| - 1], i, began);
    } else {
      assert schedule == begun;
    }
  }

  lemma LockIsFixed(json: Json, w: World, a: Action)
    requires Enabled(w, a)
    ensures Apply(json, w, a).locking == w.locking
  {
  }

  lemma OthersLeaveItAlone(json: Json, w: World, a: Action, i: nat)
    requires Enabled(w, a) && a.writer != i
    ensures i in Apply(json, w, a).writers <==> i in w.writers
    ensures i in w.writers ==> Apply(json, w, a).writers[i] == w.writers[i]
  {
  }
}
