/**
 Registry operations that race (mantlekeep-control/registry/registry.go: Register, get, save;
 lifecycle.go: transition, SetDefault, Demise; dependents.go). No lock is taken: an operation
 reads an entry, edits its copy and saves it whole, and an unforced demise counts pins before
 that; anything may land in between.
 */
module RegistryRaces {
  import opened Options
  import opened Registry
  import opened RegistryHistory

  /** Where an operation has got to: past the pins, or holding what it will save. */
  datatype Session =
    | Counted(name: string, version: string)
    | Holding(op: Op, now: int, read: Option<Entry>, edited: Entry)
    | Over

  /** `done` says in what order edits were saved and pins written; no step reads it. */
  datatype World = World(entries: Entries, pins: Pins, sessions: map<nat, Session>, done: seq<Timed>)

  datatype Action =
    | Count(session: nat, name: string, version: string, unread: set<string>)
    | Read(session: nat, op: Op, now: int)
    | ReadToDemise(session: nat, now: int)
    | Save(session: nat)
    | WritePin(op: Op)

  // ---------------------------------------------------------------------------------------
  // The steps
  // ---------------------------------------------------------------------------------------

  predicate IsEdit(op: Op) {
    op.Register? || op.Transition? || op.SetDefault?
  }

  function NameOf(op: Op): string
    requires IsEdit(op)
  {
    if op.Register? then op.registration.name else op.name
  }

  function Editing(env: string, policy: PromotionPolicy, entries: Entries, op: Op, now: int): Result<Entry>
    requires IsEdit(op)
  {
    match op
    case Register(r, readable) => Registering(env, entries, r, readable, now)
    case Transition(name, version, change) => Transitioning(policy, entries, name, version, change, now)
    case SetDefault(name, version) => Defaulting(entries, name, version, now)
  }

  function At(entries: Entries, key: string): Option<Entry> {
    if key in entries then Some(entries[key]) else None
  }

  ghost predicate Enabled(w: World, a: Action) {
    match a
    case Count(s, _, _, _) => s !in w.sessions
    case Read(s, op, _) => s !in w.sessions && IsEdit(op)
    case ReadToDemise(s, _) => s in w.sessions && w.sessions[s].Counted?
    case Save(s) => s in w.sessions && w.sessions[s].Holding?
    case WritePin(op) => op.Pin? || op.Unpin?
  }

  ghost function Apply(env: string, policy: PromotionPolicy, w: World, a: Action): World
    requires Enabled(w, a)
  {
    match a
    case Count(s, name, version, unread) =>
      w.(sessions := w.sessions[s := if Used(w.pins - unread, name, version) then Over else Counted(name, version)])
    case Read(s, op, now) => AfterRead(env, policy, w, s, op, now)
    case ReadToDemise(s, now) =>
      AfterRead(env, policy, w, s, Op.Transition(w.sessions[s].name, w.sessions[s].version, Change.Demise), now)
    case Save(s) => AfterSave(w, s)
    case WritePin(op) =>
      w.(pins := Perform(env, policy, State(w.entries, w.pins), op, 0).pins, done := w.done + [Timed(op, 0)])
  }

  function AfterRead(env: string, policy: PromotionPolicy, w: World, s: nat, op: Op, now: int): World
    requires IsEdit(op)
  {
    match Editing(env, policy, w.entries, op, now)
    case Err(_) => w.(sessions := w.sessions[s := Over])
    case Ok(e) => w.(sessions := w.sessions[s := Holding(op, now, At(w.entries, EntryKey(e.name)), e)])
  }

  function AfterSave(w: World, s: nat): World
    requires s in w.sessions && w.sessions[s].Holding?
  {
    var Holding(op, now, _, edited) := w.sessions[s];
    w.(entries := Saved(w.entries, edited), sessions := w.sessions[s := Over], done := w.done + [Timed(op, now)])
  }

  ghost function Play(env: string, policy: PromotionPolicy, start: World, schedule: seq<Action>): Option<World> {
    if schedule == [] then Some(start)
    else
      var n := |schedule| - 1;
      match Play(env, policy, start, schedule[..n])
      case None => None
      case Some(w) => if Enabled(w, schedule[n]) then Some(Apply(env, policy, w, schedule[n])) else None
  }

  function Initial(state: State): World {
    World(state.entries, state.pins, map[], [])
  }

  // ---------------------------------------------------------------------------------------
  // What every interleaving keeps
  // ---------------------------------------------------------------------------------------

  /** The entry an edit reads, alone. */
  function Only(key: string, read: Option<Entry>): Entries {
    match read
    case None => map[]
    case Some(e) => map[key := e]
  }

  ghost predicate HoldingOk(env: string, policy: PromotionPolicy, h: Session)
    requires h.Holding?
  {
    && IsEdit(h.op) && EntryOk(policy, h.edited) && EntryKey(h.edited.name) == EntryKey(NameOf(h.op))
    && Editing(env, policy, Only(EntryKey(h.edited.name), h.read), h.op, h.now) == Ok(h.edited)
  }

  ghost predicate Sound(env: string, policy: PromotionPolicy, w: World) {
    && EntriesOk(policy, w.entries)
    && forall s | s in w.sessions && w.sessions[s].Holding? :: HoldingOk(env, policy, w.sessions[s])
  }

  /** An edit depends on the entry of its own name and no other. */
  lemma EditReadsOneEntry(env: string, policy: PromotionPolicy, entries: Entries, op: Op, now: int)
    requires IsEdit(op) && EntriesOk(policy, entries)
    ensures var key := EntryKey(NameOf(op));
            && Editing(env, policy, Only(key, At(entries, key)), op, now) == Editing(env, policy, entries, op, now)
            && (Editing(env, policy, entries, op, now).Ok? ==>
                  EntryKey(Editing(env, policy, entries, op, now).value.name) == key)
  {
  }

  lemma EditIsTheOperation(env: string, policy: PromotionPolicy, state: State, op: Op, now: int)
    requires IsEdit(op) && Editing(env, policy, state.entries, op, now).Ok?
    ensures Perform(env, policy, state, op, now)
         == state.(entries := Saved(state.entries, Editing(env, policy, state.entries, op, now).value))
  {
  }

  lemma EditedIsOk(env: string, policy: PromotionPolicy, entries: Entries, op: Op, now: int)
    requires IsEdit(op) && EntriesOk(policy, entries) && Editing(env, policy, entries, op, now).Ok?
    ensures EntryOk(policy, Editing(env, policy, entries, op, now).value)
  {
    var state, e := State(entries, map[]), Editing(env, policy, entries, op, now).value;
    EditIsTheOperation(env, policy, state, op, now);
    OperationKeeps(env, policy, state, op, now);
    assert Saved(entries, e)[EntryKey(e.name)] == e;
  }

  lemma ReadIsSound(env: string, policy: PromotionPolicy, w: World, s: nat, op: Op, now: int)
    requires Sound(env, policy, w) && IsEdit(op)
    ensures Sound(env, policy, AfterRead(env, policy, w, s, op, now))
  {
    if Editing(env, policy, w.entries, op, now).Ok? {
      EditReadsOneEntry(env, policy, w.entries, op, now);
      EditedIsOk(env, policy, w.entries, op, now);
    }
  }

  lemma StepIsSound(env: string, policy: PromotionPolicy, w: World, a: Action)
    requires Sound(env, policy, w) && Enabled(w, a)
    ensures Sound(env, policy, Apply(env, policy, w, a))
  {
    match a
    case Count(_, _, _, _) =>
    case Read(s, op, now) => ReadIsSound(env, policy, w, s, op, now);
    case ReadToDemise(s, now) =>
      ReadIsSound(env, policy, w, s, Op.Transition(w.sessions[s].name, w.sessions[s].version, Change.Demise), now);
    case Save(s) => SavingKeepsEntries(policy, w.entries, w.sessions[s].edited);
    case WritePin(_) =>
  }

  /** However operations interleave, the registry stays sound: names unique, one default at most
      and that one live, and what the policy asks asked of all that was ever published. */
  lemma {:induction false} EveryInterleavingKeepsTheRegistry(env: string, policy: PromotionPolicy, start: State,
                                                             schedule: seq<Action>)
    requires EntriesOk(policy, start.entries) && Play(env, policy, Initial(start), schedule).Some?
    ensures Sound(env, policy, Play(env, policy, Initial(start), schedule).value)
  {
    if schedule != [] {
      var n := |schedule| - 1;
      EveryInterleavingKeepsTheRegistry(env, policy, start, schedule[..n]);
      StepIsSound(env, policy, Play(env, policy, Initial(start), schedule[..n]).value, schedule[n]);
    }
  }

  // ---------------------------------------------------------------------------------------
  // What a save forgets
  // ---------------------------------------------------------------------------------------

  /** A save forgets nothing exactly when what it saves continues what is there by then. */
  lemma ASaveForgetsNothingIff(env: string, policy: PromotionPolicy, w: World, s: nat)
    requires Sound(env, policy, w) && Enabled(w, Save(s))
    ensures var e := w.sessions[s].edited;
            AllContinue(w.entries, AfterSave(w, s).entries) <==>
            (EntryKey(e.name) in w.entries ==> Continues(w.entries[EntryKey(e.name)], e))
  {
    SavingContinuesIff(policy, w.entries, w.sessions[s].edited);
  }

  /** The entry is still as it was read. */
  ghost predicate Undisturbed(w: World, s: nat)
    requires s in w.sessions && w.sessions[s].Holding?
  {
    At(w.entries, EntryKey(w.sessions[s].edited.name)) == w.sessions[s].read
  }

  /** Saved over the entry it read, an edit is the whole operation done at that moment. */
  lemma UndisturbedSaveIsTheOperation(env: string, policy: PromotionPolicy, w: World, s: nat)
    requires Sound(env, policy, w) && Enabled(w, Save(s)) && Undisturbed(w, s)
    ensures Perform(env, policy, State(w.entries, w.pins), w.sessions[s].op, w.sessions[s].now)
         == State(AfterSave(w, s).entries, w.pins)
  {
    var Holding(op, now, read, edited) := w.sessions[s];
    EditReadsOneEntry(env, policy, w.entries, op, now);
    EditIsTheOperation(env, policy, State(w.entries, w.pins), op, now);
  }

  ghost predicate UndisturbedAt(env: string, policy: PromotionPolicy, start: State, schedule: seq<Action>, k: nat) {
    k < |schedule| && schedule[k].Save? && Play(env, policy, Initial(start), schedule[..k]).Some? ==>
      var w := Play(env, policy, Initial(start), schedule[..k]).value;
      Enabled(w, schedule[k]) ==> Undisturbed(w, schedule[k].session)
  }

  /** When every save finds its entry as it was read, the interleaving amounts to its saves and
      pins done one after another. */
  lemma {:induction false} UndisturbedIsSerial(env: string, policy: PromotionPolicy, start: State, schedule: seq<Action>)
    requires EntriesOk(policy, start.entries) && Play(env, policy, Initial(start), schedule).Some?
    requires forall k: nat | k < |schedule| :: UndisturbedAt(env, policy, start, schedule, k)
    ensures var w := Play(env, policy, Initial(start), schedule).value;
            Run(env, policy, start, w.done) == State(w.entries, w.pins)
  {
    if schedule != [] {
      var n := |schedule| - 1;
      forall k: nat | k < n ensures UndisturbedAt(env, policy, start, schedule[..n], k) {
        assert schedule[..n][..k] == schedule[..k];
        assert UndisturbedAt(env, policy, start, schedule, k);
      }
      UndisturbedIsSerial(env, policy, start, schedule[..n]);
      EveryInterleavingKeepsTheRegistry(env, policy, start, schedule[..n]);
      assert UndisturbedAt(env, policy, start, schedule, n);
      StepIsSerial(env, policy, start, Play(env, policy, Initial(start), schedule[..n]).value, schedule[n]);
    }
  }

  lemma {:induction false} StepIsSerial(env: string, policy: PromotionPolicy, start: State, w: World, a: Action)
    requires Sound(env, policy, w) && Enabled(w, a) && (a.Save? ==> Undisturbed(w, a.session))
    requires Run(env, policy, start, w.done) == State(w.entries, w.pins)
    ensures var t := Apply(env, policy, w, a);
            Run(env, policy, start, t.done) == State(t.entries, t.pins)
  {
    match a
    case Save(s) => {
      UndisturbedSaveIsTheOperation(env, policy, w, s);
      RunOneMore(env, policy, start, w.done, Timed(w.sessions[s].op, w.sessions[s].now));
    }
    case WritePin(op) => RunOneMore(env, policy, start, w.done, Timed(op, 0));
    case _ =>
  }

  lemma {:induction false} RunOneMore(env: string, policy: PromotionPolicy, start: State, ops: seq<Timed>, last: Timed)
    ensures Run(env, policy, start, ops + [last]) == Perform(env, policy, Run(env, policy, start, ops), last.op, last.now)
  {
    assert (ops + [last])[..|ops|] == ops;
  }

  // ---------------------------------------------------------------------------------------
  // What races lose
  // ---------------------------------------------------------------------------------------

  lemma {:induction false} PlayOneMore(env: string, policy: PromotionPolicy, start: World, schedule: seq<Action>,
                                       w: World, a: Action)
    requires Play(env, policy, start, schedule) == Some(w) && Enabled(w, a)
    ensures Play(env, policy, start, schedule + [a]) == Some(Apply(env, policy, w, a))
  {
    assert (schedule + [a])[..|schedule|] == schedule;
  }

  lemma {:induction false} BothRead(env: string, policy: PromotionPolicy, start: State, first: Op, second: Op, now: int)
    returns (schedule: seq<Action>, w: World)
    requires IsEdit(first) && IsEdit(second)
    requires Editing(env, policy, start.entries, first, now).Ok? && Editing(env, policy, start.entries, second, now).Ok?
    ensures Play(env, policy, Initial(start), schedule) == Some(w)
    ensures w.entries == start.entries && w.pins == start.pins && w.done == []
    ensures 0 in w.sessions && w.sessions[0].Holding? && w.sessions[0].op == first && w.sessions[0].now == now
         && w.sessions[0].edited == Editing(env, policy, start.entries, first, now).value
    ensures 1 in w.sessions && w.sessions[1].Holding? && w.sessions[1].op == second && w.sessions[1].now == now
         && w.sessions[1].edited == Editing(env, policy, start.entries, second, now).value
  {
    var w0 := Initial(start);
    PlayOneMore(env, policy, w0, [], w0, Read(0, first, now));
    var w1 := AfterRead(env, policy, w0, 0, first, now);
    PlayOneMore(env, policy, w0, [] + [Read(0, first, now)], w1, Read(1, second, now));
    schedule, w := [] + [Read(0, first, now)] + [Read(1, second, now)], AfterRead(env, policy, w1, 1, second, now);
  }

  /** Both edits read before either is saved. */
  lemma {:induction false} BothReadThenSaved(env: string, policy: PromotionPolicy, start: State, first: Op,
                                             second: Op, now: int)
    returns (schedule: seq<Action>, w: World)
    requires EntriesOk(policy, start.entries) && IsEdit(first) && IsEdit(second)
    requires Editing(env, policy, start.entries, first, now).Ok? && Editing(env, policy, start.entries, second, now).Ok?
    ensures Play(env, policy, Initial(start), schedule) == Some(w)
    ensures w.done == [Timed(first, now), Timed(second, now)] && w.pins == start.pins
    ensures w.entries == Saved(Saved(start.entries, Editing(env, policy, start.entries, first, now).value),
                               Editing(env, policy, start.entries, second, now).value)
  {
    var both, w2 := BothRead(env, policy, start, first, second, now);
    PlayOneMore(env, policy, Initial(start), both, w2, Save(0));
    var w3 := AfterSave(w2, 0);
    PlayOneMore(env, policy, Initial(start), both + [Save(0)], w3, Save(1));
    schedule, w := both + [Save(0)] + [Save(1)], AfterSave(w3, 1);
    assert w.done == [] + [Timed(first, now)] + [Timed(second, now)];
  }

  /** Of two registrations that race on one entry, both accepted, the first is lost. */
  lemma {:induction false} ARegistrationCanBeLost(env: string, policy: PromotionPolicy, start: State,
                                                  r: Registration, r': Registration, now: int)
    returns (schedule: seq<Action>, w: World)
    requires EntriesOk(policy, start.entries) && EntryKey(r.name) == EntryKey(r'.name) && r.version != r'.version
    requires Registering(env, start.entries, r, true, now).Ok? && Registering(env, start.entries, r', true, now).Ok?
    ensures Play(env, policy, Initial(start), schedule) == Some(w)
    ensures w.done == [Timed(Op.Register(r, true), now), Timed(Op.Register(r', true), now)]
    ensures EntryKey(r.name) in w.entries && forall v | v in w.entries[EntryKey(r.name)].versions :: v.version != r.version
  {
    schedule, w := BothReadThenSaved(env, policy, start, Op.Register(r, true), Op.Register(r', true), now);
    EditReadsOneEntry(env, policy, start.entries, Op.Register(r', true), now);
    var e := Registering(env, start.entries, r', true, now).value;
    assert w.entries[EntryKey(r.name)] == e;
    forall v | v in e.versions
      ensures v.version != r.version
    {
      var i :| 0 <= i < |e.versions| && e.versions[i] == v;
    }
  }

  /** A version demised while another edit of its entry was under way is live again. */
  lemma {:induction false} ADemiseCanBeUndone(env: string, policy: PromotionPolicy, start: State, name: string,
                                              version: string,
                                              changeRef: string, now: int)
    returns (schedule: seq<Action>, w: World)
    requires EntriesOk(policy, start.entries) && EntryKey(name) in start.entries
    requires var versions := start.entries[EntryKey(name)].versions;
             var i := IndexOf(versions, version); i < |versions| && Live(versions[i])
    ensures Play(env, policy, Initial(start), schedule) == Some(w)
    ensures w.done == [Timed(Op.Transition(name, version, Change.Demise), now),
                       Timed(Op.Transition(name, version, LinkChange(changeRef)), now)]
    ensures EntryKey(name) in w.entries
    ensures var i := IndexOf(start.entries[EntryKey(name)].versions, version);
            i < |w.entries[EntryKey(name)].versions| && Live(w.entries[EntryKey(name)].versions[i])
  {
    var demise, link := Op.Transition(name, version, Change.Demise), Op.Transition(name, version, LinkChange(changeRef));
    schedule, w := BothReadThenSaved(env, policy, start, demise, link, now);
    EditReadsOneEntry(env, policy, start.entries, link, now);
    EditReadsOneEntry(env, policy, start.entries, demise, now);
  }

  /** A pin written after the pins were counted does not hold its version. */
  lemma {:induction false} APinCanComeTooLate(env: string, policy: PromotionPolicy, start: State, name: string,
                                              version: string,
                                              consumer: string, now: int)
    returns (schedule: seq<Action>, w: World)
    requires EntriesOk(policy, start.entries) && EntryKey(name) in start.entries && consumer != ""
    requires var versions := start.entries[EntryKey(name)].versions;
             var i := IndexOf(versions, version); i < |versions| && Live(versions[i])
    requires !Used(start.pins, name, version)
    ensures Play(env, policy, Initial(start), schedule) == Some(w)
    ensures schedule != [] && schedule[0] == Count(0, name, version, {}) && Stands(w.pins, name, version, consumer)
    ensures EntryKey(name) in w.entries
    ensures var i := IndexOf(start.entries[EntryKey(name)].versions, version);
            i < |w.entries[EntryKey(name)].versions| && w.entries[EntryKey(name)].versions[i].status == Demised
  {
    var w0, pin, demise := Initial(start), Op.Pin(name, version, consumer), Op.Transition(name, version, Change.Demise);
    assert start.pins - {} == start.pins;
    PlayOneMore(env, policy, w0, [], w0, Count(0, name, version, {}));
    var w1 := Apply(env, policy, w0, Count(0, name, version, {}));
    var counted := [] + [Count(0, name, version, {})];
    PlayOneMore(env, policy, w0, counted, w1, WritePin(pin));
    var w2 := Apply(env, policy, w1, WritePin(pin));
    PlayOneMore(env, policy, w0, counted + [WritePin(pin)], w2, ReadToDemise(0, now));
    var w3 := Apply(env, policy, w2, ReadToDemise(0, now));
    EditReadsOneEntry(env, policy, start.entries, demise, now);
    PlayOneMore(env, policy, w0, counted + [WritePin(pin)] + [ReadToDemise(0, now)], w3, Save(0));
    schedule, w := counted + [WritePin(pin)] + [ReadToDemise(0, now)] + [Save(0)], Apply(env, policy, w3, Save(0));
  }
}
