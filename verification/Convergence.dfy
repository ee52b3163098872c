/**
 One reconcile pass against a port that stores and reads back (mantlekeep-estate/reconcile.go:
 Reconcile; memory/memory.go: Port), and what is left to do after it.
 */
module Convergence {
  import opened Capability
  import opened DriftReport
  import opened Estate
  import opened Options
  import opened Ordering
  import opened Reconcile

  // ---------------------------------------------------------------------------------------
  // The port
  // ---------------------------------------------------------------------------------------

  type Holdings = map<string, ObservedItem>

  /** What the port stores for a change. */
  function ReadBack(change: DesiredItem): (item: ObservedItem)
    ensures item.Key() == change.Key()
  {
    ObservedItem(change.asset, change.kind, change.name, change.cluster, change.slot, change.limits, change.readers,
                 change.image, change.digest, change.runtime, change.state)
  }

  ghost predicate Keyed(holdings: Holdings) {
    forall key | key in holdings :: holdings[key].Key() == key
  }

  /** Everything held, once each, in some order. */
  ghost predicate Lists(items: seq<ObservedItem>, holdings: Holdings) {
    && DistinctObserved(items)
    && (forall item :: item in items <==> item.Key() in holdings && holdings[item.Key()] == item)
  }

  datatype ApplyResult = Applied | NoToken | TokenExpired | WrongAsset

  class MemoryPort {
    const asset: string
    const team: string
    var byKey: Holdings

    ghost predicate Valid()
      reads this
    {
      Keyed(byKey)
    }

    constructor (asset: string, team: string)
      ensures Valid() && byKey == map[] && this.asset == asset && this.team == team
    {
      this.asset, this.team := asset, team;
      byKey := map[];
    }

    method Apply(token: Token, change: DesiredItem, now: int) returns (r: ApplyResult)
      requires Valid()
      modifies this
      ensures Valid()
      ensures r.Applied? <==> token.Usable(now) && change.asset == asset
      ensures byKey == if r.Applied? then old(byKey)[change.Key() := ReadBack(change)] else old(byKey)
    {
      if token.value == "" {
        return NoToken;
      }
      if !token.Valid(now) {
        return TokenExpired;
      }
      if change.asset != asset {
        return WrongAsset;
      }
      byKey := byKey[change.Key() := ReadBack(change)];
      r := Applied;
    }

    method Observe(team: string) returns (items: seq<ObservedItem>)
      requires Valid()
      ensures team != this.team ==> items == []
      ensures team == this.team ==> Lists(items, byKey)
    {
      items := [];
      if team != this.team {
        return;
      }
      var rest := byKey.Keys;
      while rest != {}
        invariant rest <= byKey.Keys && DistinctObserved(items)
        invariant forall item ::
                    item in items <==> item.Key() in byKey && item.Key() !in rest && byKey[item.Key()] == item
      {
        var key :| key in rest;
        rest := rest - {key};
        items := items + [byKey[key]];
      }
    }

    /** An edit made by hand, outside any governed change. */
    method PlantDrift(item: ObservedItem)
      requires Valid()
      modifies this
      ensures Valid() && byKey == old(byKey)[item.Key() := item]
    {
      byKey := byKey[item.Key() := item];
    }
  }

  // ---------------------------------------------------------------------------------------
  // One pass
  // ---------------------------------------------------------------------------------------

  datatype Outcome = Outcome(corrected: seq<Drift>, escalated: seq<Drift>, failed: seq<Drift>)

  function Corrections(drifts: seq<Drift>): seq<Drift> {
    if drifts == [] then []
    else
      var n := |drifts| - 1;
      if drifts[n].Correctable() then Corrections(drifts[..n]) + [drifts[n]] else Corrections(drifts[..n])
  }

  function Escalations(drifts: seq<Drift>): seq<Drift> {
    if drifts == [] then []
    else
      var n := |drifts| - 1;
      if drifts[n].Correctable() then Escalations(drifts[..n]) else Escalations(drifts[..n]) + [drifts[n]]
  }

  function AfterCorrecting(holdings: Holdings, corrected: seq<Drift>): Holdings {
    if corrected == [] then holdings
    else
      var n := |corrected| - 1;
      AfterOne(AfterCorrecting(holdings, corrected[..n]), corrected[n])
  }

  function AfterOne(holdings: Holdings, d: Drift): Holdings {
    if d.Unexpected? then holdings else holdings[d.desired.Key() := ReadBack(d.desired)]
  }

  /** The port takes a correction when the token is still usable at that moment and the change
      is of its own kind. */
  predicate Takes(asset: string, token: Token, now: int, drift: Drift) {
    drift.Correctable() && token.Usable(now) && drift.desired.asset == asset
  }

  /** The corrections the port takes, in order; drift `i` is put to it at `clock(i)`. */
  function Made(asset: string, token: Token, clock: nat -> int, drifts: seq<Drift>): seq<Drift> {
    if drifts == [] then []
    else
      var n := |drifts| - 1;
      var front := Made(asset, token, clock, drifts[..n]);
      if Takes(asset, token, clock(n), drifts[n]) then front + [drifts[n]] else front
  }

  /** The corrections it does not, in order. */
  function Refused(asset: string, token: Token, clock: nat -> int, drifts: seq<Drift>): seq<Drift> {
    if drifts == [] then []
    else
      var n := |drifts| - 1;
      var front := Refused(asset, token, clock, drifts[..n]);
      if drifts[n].Correctable() && !Takes(asset, token, clock(n), drifts[n]) then front + [drifts[n]] else front
  }

  /** What a pass over some drifts escalates, makes and fails to make, all in order. */
  function PassOver(asset: string, token: Token, clock: nat -> int, drifts: seq<Drift>): Outcome {
    Outcome(Made(asset, token, clock, drifts), Escalations(drifts), Refused(asset, token, clock, drifts))
  }

  lemma {:induction false} OneDriftMore(asset: string, token: Token, clock: nat -> int, done: seq<Drift>, drift: Drift)
    ensures PassOver(asset, token, clock, done + [drift]) ==
            var Outcome(corrected, escalated, failed) := PassOver(asset, token, clock, done);
            if !drift.Correctable() then Outcome(corrected, escalated + [drift], failed)
            else if Takes(asset, token, clock(|done|), drift) then Outcome(corrected + [drift], escalated, failed)
            else Outcome(corrected, escalated, failed + [drift])
  {
    assert (done + [drift])[..|done|] == done;
  }

  lemma {:induction false} OneCorrectionMore(holdings: Holdings, corrected: seq<Drift>, drift: Drift)
    ensures AfterCorrecting(holdings, corrected + [drift]) == AfterOne(AfterCorrecting(holdings, corrected), drift)
  {
    assert (corrected + [drift])[..|corrected|] == corrected;
  }

  /** When nothing was refused every correction was made. */
  lemma {:induction false} NoneRefusedAllMade(asset: string, token: Token, clock: nat -> int, drifts: seq<Drift>)
    ensures |Made(asset, token, clock, drifts)| + |Refused(asset, token, clock, drifts)| == |Corrections(drifts)|
    ensures Refused(asset, token, clock, drifts) == [] ==> Made(asset, token, clock, drifts) == Corrections(drifts)
  {
    if drifts != [] {
      NoneRefusedAllMade(asset, token, clock, drifts[..|drifts| - 1]);
    }
  }

  /** Nothing is refused while the token stays usable and every correction is of the port's kind. */
  lemma {:induction false} NothingIsRefused(asset: string, token: Token, clock: nat -> int, drifts: seq<Drift>)
    requires forall i: nat | i < |drifts| :: token.Usable(clock(i))
    requires forall d | d in Corrections(drifts) :: d.Correctable() && d.desired.asset == asset
    ensures Refused(asset, token, clock, drifts) == []
  {
    if drifts != [] {
      var n := |drifts| - 1;
      forall d | d in Corrections(drifts[..n]) ensures d in Corrections(drifts) {
      }
      NothingIsRefused(asset, token, clock, drifts[..n]);
      if drifts[n].Correctable() {
        assert Corrections(drifts)[|Corrections(drifts)| - 1] == drifts[n];
      }
    }
  }

  method ReconcileDrifts(port: MemoryPort, token: Token, drifts: seq<Drift>, clock: nat -> int)
    returns (outcome: Outcome)
    requires port.Valid()
    modifies port
    ensures port.Valid()
    ensures outcome == PassOver(port.asset, token, clock, drifts)
    ensures port.byKey == AfterCorrecting(old(port.byKey), outcome.corrected)
  {
    outcome := Outcome([], [], []);
    for i := 0 to |drifts|
      invariant port.Valid()
      invariant outcome == PassOver(port.asset, token, clock, drifts[..i])
      invariant port.byKey == AfterCorrecting(old(port.byKey), outcome.corrected)
    {
      var drift := drifts[i];
      assert drifts[..i + 1] == drifts[..i] + [drift];
      OneDriftMore(port.asset, token, clock, drifts[..i], drift);
      if !drift.Correctable() {
        outcome := outcome.(escalated := outcome.escalated + [drift]);
      } else {
        var r := port.Apply(token, drift.desired, clock(i));
        if !r.Applied? {
          outcome := outcome.(failed := outcome.failed + [drift]);
        } else {
          OneCorrectionMore(old(port.byKey), outcome.corrected, drift);
          outcome := outcome.(corrected := outcome.corrected + [drift]);
        }
      }
    }
    assert drifts[..|drifts|] == drifts;
  }

  // ---------------------------------------------------------------------------------------
  // Convergence
  // ---------------------------------------------------------------------------------------

  /** What was applied reads back as approved, whatever is governed. */
  lemma ReadBackAgrees(o: Ownership, change: DesiredItem)
    ensures Differs(o, change, ReadBack(change)) == []
  {
    var readings := Readings(change, ReadBack(change));
    forall i | 0 <= i < |readings|
      ensures readings[i].approved == readings[i].observed
    {
      var state := StateReadings(change, ReadBack(change), InOrder(change.state.Keys));
      if 3 <= i < 3 + |state| {
        assert readings[i] == state[i - 3];
      }
    }
    EqualReadingsDoNotDiffer(o, readings);
  }

  lemma {:induction false} EqualReadingsDoNotDiffer(o: Ownership, readings: seq<Reading>)
    requires forall i | 0 <= i < |readings| :: readings[i].approved == readings[i].observed
    ensures Differences(o, readings) == []
  {
    if readings != [] {
      EqualReadingsDoNotDiffer(o, readings[..|readings| - 1]);
    }
  }

  lemma {:induction false} CorrectionMembers(drifts: seq<Drift>, d: Drift)
    ensures d in Corrections(drifts) <==> d in drifts && d.Correctable()
    ensures d in Escalations(drifts) <==> d in drifts && !d.Correctable()
  {
    if drifts != [] {
      var n := |drifts| - 1;
      CorrectionMembers(drifts[..n], d);
      assert drifts == drifts[..n] + [drifts[n]];
    }
  }

  /** The wish last applied to a key, if any. */
  function LastWish(corrected: seq<Drift>, key: string): Option<DesiredItem> {
    if corrected == [] then None
    else
      var last := corrected[|corrected| - 1];
      if WishFor(last, key) then Some(last.desired) else LastWish(corrected[..|corrected| - 1], key)
  }

  predicate WishFor(d: Drift, key: string) {
    !d.Unexpected? && d.desired.Key() == key
  }

  lemma {:induction false} LastWishIsAmong(corrected: seq<Drift>, key: string)
    ensures LastWish(corrected, key).None? ==> forall d | d in corrected :: !WishFor(d, key)
    ensures LastWish(corrected, key).Some? ==>
              exists d :: d in corrected && WishFor(d, key) && d.desired == LastWish(corrected, key).value
  {
    if corrected != [] {
      LastWishIsAmong(corrected[..|corrected| - 1], key);
      forall d ensures d in corrected <==> d in corrected[..|corrected| - 1] || d == corrected[|corrected| - 1] {
        InFrontOrLast(corrected, d);
      }
    }
  }

  function HeldAt(holdings: Holdings, key: string): Option<ObservedItem> {
    if key in holdings then Some(holdings[key]) else None
  }

  function ReadBackOf(wish: Option<DesiredItem>, otherwise: Option<ObservedItem>): Option<ObservedItem> {
    match wish
    case Some(w) => Some(ReadBack(w))
    case None => otherwise
  }

  lemma HeldAfterOne(holdings: Holdings, d: Drift, key: string)
    ensures HeldAt(AfterOne(holdings, d), key) == if WishFor(d, key) then Some(ReadBack(d.desired)) else HeldAt(holdings, key)
  {
  }

  /** Held after the pass: what was corrected reads back, the rest is untouched. */
  lemma {:induction false} HeldAfterCorrecting(holdings: Holdings, corrected: seq<Drift>, key: string)
    ensures HeldAt(AfterCorrecting(holdings, corrected), key) == ReadBackOf(LastWish(corrected, key), HeldAt(holdings, key))
  {
    if corrected != [] {
      var n := |corrected| - 1;
      HeldAfterCorrecting(holdings, corrected[..n], key);
      HeldAfterOne(AfterCorrecting(holdings, corrected[..n]), corrected[n], key);
    }
  }

  function HeldItems(got: Option<ObservedItem>): seq<ObservedItem> {
    match got
    case None => []
    case Some(g) => [g]
  }

  lemma {:induction false} ItemsHeld(items: seq<ObservedItem>, holdings: Holdings, key: string)
    requires Lists(items, holdings) && Keyed(holdings)
    ensures ItemsOf(items, key) == HeldItems(HeldAt(holdings, key))
  {
    var held := HeldItems(HeldAt(holdings, key));
    OneItemPerKey(items, key);
    forall g ensures g in ItemsOf(items, key) <==> g in held {
      ItemsMembers(items, key, g);
    }
    SingleOrNone(ItemsOf(items, key), held);
  }

  /** The report on what a port holds, one identity at a time. */
  lemma {:induction false} ReportOfHeld(o: Ownership, desired: seq<DesiredItem>, items: seq<ObservedItem>,
                                        holdings: Holdings,
                                        key: string)
    requires Lists(items, holdings) && Keyed(holdings)
    ensures OfKey(Diff(o, desired, items), key) == ReportOf(o, WishesOf(desired, key), HeldItems(HeldAt(holdings, key)))
  {
    ReportByIdentity(o, desired, items, key);
    ItemsHeld(items, holdings, key);
  }

  lemma {:induction false} AfterIsKeyed(holdings: Holdings, corrected: seq<Drift>)
    requires Keyed(holdings)
    ensures Keyed(AfterCorrecting(holdings, corrected))
  {
    if corrected != [] {
      AfterIsKeyed(holdings, corrected[..|corrected| - 1]);
    }
  }

  /** Whatever is held can be listed. */
  lemma {:induction false} SomeListing(held: Holdings) returns (items: seq<ObservedItem>)
    requires Keyed(held)
    ensures Lists(items, held)
    decreases |held|
  {
    if held == map[] {
      items := [];
    } else {
      var key :| key in held;
      items := ListingEndingIn(held, key);
    }
  }

  lemma {:induction false} ListingEndingIn(held: Holdings, key: string) returns (items: seq<ObservedItem>)
    requires Keyed(held) && key in held
    ensures Lists(items, held) && items != [] && items[|items| - 1] == held[key]
    decreases |held|, 0
  {
    var others := held - {key};
    assert |others| < |held| by {
      assert held.Keys == others.Keys + {key};
    }
    var front := SomeListing(others);
    items := front + [held[key]];
    OneMoreListed(held, key, front);
  }

  lemma {:induction false} OneMoreListed(held: Holdings, key: string, front: seq<ObservedItem>)
    requires Keyed(held) && key in held && Lists(front, held - {key})
    ensures Lists(front + [held[key]], held)
  {
    var items := front + [held[key]];
    forall i, j | 0 <= i < j < |items| ensures items[i].Key() != items[j].Key() {
      assert items[i] in front;
    }
    forall item: ObservedItem | item.Key() in held && held[item.Key()] == item ensures item in items {
      assert item == held[key] || item in front;
      assert items[|front|] == held[key];
    }
  }

  // ---------------------------------------------------------------------------------------
  // One pass and the report after it
  // ---------------------------------------------------------------------------------------

  /** What a pass meets: what is held, in some order; a token and the moments of its use; and
      some order of what is held after. */
  datatype Passing =
    Passing(before: Holdings, seen: seq<ObservedItem>, token: Token, clock: nat -> int, seenAfter: seq<ObservedItem>)

  /** The corrections the port took in that pass. */
  ghost function Taken(o: Ownership, desired: seq<DesiredItem>, asset: string, p: Passing): seq<Drift> {
    Made(asset, p.token, p.clock, Diff(o, desired, p.seen))
  }

  ghost predicate IsPass(o: Ownership, desired: seq<DesiredItem>, asset: string, p: Passing) {
    && Keyed(p.before) && Lists(p.seen, p.before)
    && Lists(p.seenAfter, AfterCorrecting(p.before, Taken(o, desired, asset, p)))
  }

  /** The drifts of identities nothing was made for. */
  function Remaining(drifts: seq<Drift>, made: seq<Drift>): seq<Drift> {
    if drifts == [] then []
    else
      var n := |drifts| - 1;
      var front := Remaining(drifts[..n], made);
      if LastWish(made, drifts[n].Key()).None? then front + [drifts[n]] else front
  }

  /** A wish the port takes without anybody's leave. */
  predicate Ungated(asset: string, w: DesiredItem) {
    w.gate == GateNone && w.asset == asset
  }

  /** Wishes of one identity agree: each shows no difference from another as it would be applied. */
  ghost predicate AgreeOutright(o: Ownership, desired: seq<DesiredItem>, asset: string) {
    forall a, b | a in desired && b in desired && a.Key() == b.Key() && Ungated(asset, a) :: Differs(o, b, ReadBack(a)) == []
  }

  /** Wishes of one identity that are corrected without leave agree on what is governed. */
  ghost predicate AgreeWhereGoverned(o: Ownership, desired: seq<DesiredItem>, asset: string) {
    forall a, b | a in desired && b in desired && a.Key() == b.Key() && Ungated(asset, a) && b.gate == GateNone ::
      !HasGoverned(Differs(o, b, ReadBack(a)))
  }

  predicate HasGoverned(differences: seq<Difference>) {
    exists i | 0 <= i < |differences| :: differences[i].governed
  }

  lemma {:induction false} DriftsAreOfWishes(o: Ownership, desired: seq<DesiredItem>, observed: seq<ObservedItem>,
                                             d: Drift)
    requires d in Diff(o, desired, observed) && !d.Unexpected?
    ensures d.desired in desired
  {
    SortedMembers(WantedDrifts(o, desired, Index(observed)) + UnexpectedDrifts(observed, Keys(desired)), d);
    WantedMembers(o, desired, Index(observed), d);
    UnexpectedMembers(observed, Keys(desired), d);
  }

  lemma {:induction false} MadeMembers(asset: string, token: Token, clock: nat -> int, drifts: seq<Drift>, d: Drift)
    ensures d in Made(asset, token, clock, drifts) <==>
            exists i: nat :: i < |drifts| && drifts[i] == d && Takes(asset, token, clock(i), d)
  {
    if drifts != [] {
      var n := |drifts| - 1;
      MadeMembers(asset, token, clock, drifts[..n], d);
      if i: nat :| i < n && drifts[..n][i] == d && Takes(asset, token, clock(i), d) {
        assert drifts[i] == d;
      }
      if i: nat :| i < |drifts| && drifts[i] == d && Takes(asset, token, clock(i), d) {
        assert i < n ==> drifts[..n][i] == d;
      }
    }
  }

  /** The wish a pass last applied to an identity is one of its wishes, ungated. */
  lemma {:induction false} LastTaken(o: Ownership, desired: seq<DesiredItem>, asset: string, p: Passing, key: string)
    requires LastWish(Taken(o, desired, asset, p), key).Some?
    ensures var a := LastWish(Taken(o, desired, asset, p), key).value;
            a in desired && a.Key() == key && Ungated(asset, a) && a in WishesOf(desired, key)
  {
    var drifts, made := Diff(o, desired, p.seen), Taken(o, desired, asset, p);
    LastWishIsAmong(made, key);
    var d :| d in made && WishFor(d, key) && d.desired == LastWish(made, key).value;
    MadeMembers(asset, p.token, p.clock, drifts, d);
    DriftsAreOfWishes(o, desired, p.seen, d);
    WishesMembers(desired, key, d.desired);
  }

  /** For any wishes, identities shared or not, and any failures: of an identity nothing was
      made for, the next report says what this one did; of any other, what its wishes make of
      the one last applied. */
  lemma {:induction false} NextReport(o: Ownership, desired: seq<DesiredItem>, asset: string, p: Passing, key: string)
    requires IsPass(o, desired, asset, p)
    ensures OfKey(Diff(o, desired, p.seenAfter), key) ==
            match LastWish(Taken(o, desired, asset, p), key)
            case None => OfKey(Diff(o, desired, p.seen), key)
            case Some(a) => Owed(o, WishesOf(desired, key), Some(ReadBack(a)))
  {
    var made := Taken(o, desired, asset, p);
    AfterIsKeyed(p.before, made);
    ReportOfHeld(o, desired, p.seen, p.before, key);
    ReportOfHeld(o, desired, p.seenAfter, AfterCorrecting(p.before, made), key);
    HeldAfterCorrecting(p.before, made, key);
    if LastWish(made, key).Some? {
      LastTaken(o, desired, asset, p, key);
      ReportOfOneHeld(o, WishesOf(desired, key), ReadBack(LastWish(made, key).value));
    }
  }

  lemma {:induction false} ReportOfOneHeld(o: Ownership, wishes: seq<DesiredItem>, got: ObservedItem)
    requires wishes != []
    ensures ReportOf(o, wishes, HeldItems(Some(got))) == Owed(o, wishes, Some(got))
  {
    assert LastOf([got]) == Some(got);
  }

  lemma {:induction false} RemainingMembers(drifts: seq<Drift>, made: seq<Drift>, d: Drift)
    ensures d in Remaining(drifts, made) <==> d in drifts && LastWish(made, d.Key()).None?
  {
    if drifts != [] {
      RemainingMembers(drifts[..|drifts| - 1], made, d);
      InFrontOrLast(drifts, d);
    }
  }

  lemma {:induction false} RemainingOfKey(drifts: seq<Drift>, made: seq<Drift>, key: string)
    ensures OfKey(Remaining(drifts, made), key) == if LastWish(made, key).None? then OfKey(drifts, key) else []
  {
    if drifts != [] {
      var n := |drifts| - 1;
      RemainingOfKey(drifts[..n], made, key);
      OfKeyOneMore(Remaining(drifts[..n], made), drifts[n], key);
    }
  }

  lemma {:induction false} RemainingInOrder(drifts: seq<Drift>, made: seq<Drift>)
    requires InKeyOrder(drifts)
    ensures InKeyOrder(Remaining(drifts, made))
  {
    if drifts != [] {
      var n := |drifts| - 1;
      RemainingInOrder(drifts[..n], made);
      forall d | d in Remaining(drifts[..n], made) ensures !Less(drifts[n].Key(), d.Key()) {
        RemainingMembers(drifts[..n], made, d);
        InFrontOrLast(drifts, d);
        NoneBeforeLast(drifts, d);
      }
      LastInOrder(Remaining(drifts[..n], made), drifts[n]);
    }
  }

  lemma {:induction false} CorrectionsOfKey(drifts: seq<Drift>, key: string)
    ensures OfKey(Corrections(drifts), key) == Corrections(OfKey(drifts, key))
  {
    if drifts != [] {
      var n := |drifts| - 1;
      CorrectionsOfKey(drifts[..n], key);
      OfKeyOneMore(Corrections(drifts[..n]), drifts[n], key);
      CorrectionsOneMore(OfKey(drifts[..n], key), drifts[n]);
    }
  }

  lemma {:induction false} CorrectionsOneMore(drifts: seq<Drift>, d: Drift)
    ensures Corrections(drifts + [d]) == if d.Correctable() then Corrections(drifts) + [d] else Corrections(drifts)
  {
    assert (drifts + [d])[..|drifts|] == drifts;
  }

  lemma {:induction false} CorrectionsInOrder(drifts: seq<Drift>)
    requires InKeyOrder(drifts)
    ensures InKeyOrder(Corrections(drifts))
  {
    if drifts != [] {
      var n := |drifts| - 1;
      CorrectionsInOrder(drifts[..n]);
      forall d | d in Corrections(drifts[..n]) ensures !Less(drifts[n].Key(), d.Key()) {
        CorrectionMembers(drifts[..n], d);
        InFrontOrLast(drifts, d);
        NoneBeforeLast(drifts, d);
      }
      LastInOrder(Corrections(drifts[..n]), drifts[n]);
    }
  }

  lemma {:induction false} OwedMembers(o: Ownership, wishes: seq<DesiredItem>, got: ObservedItem, d: Drift)
    ensures d in Owed(o, wishes, Some(got)) <==>
            && d.Changed? && d.desired in wishes && d.observed == got
            && d.differences == Differs(o, d.desired, got) && d.differences != []
  {
    if wishes != [] {
      var n := |wishes| - 1;
      OwedMembers(o, wishes[..n], got, d);
      if d.Changed? {
        InFrontOrLast(wishes, d.desired);
      }
    }
  }

  // ---------------------------------------------------------------------------------------
  // When a pass settles
  // ---------------------------------------------------------------------------------------

  ghost predicate ReportSettles(o: Ownership, desired: seq<DesiredItem>, asset: string, p: Passing) {
    Diff(o, desired, p.seenAfter) == Remaining(Diff(o, desired, p.seen), Taken(o, desired, asset, p))
  }

  ghost predicate CorrectionsSettle(o: Ownership, desired: seq<DesiredItem>, asset: string, p: Passing) {
    Corrections(Diff(o, desired, p.seenAfter)) == Corrections(Remaining(Diff(o, desired, p.seen), Taken(o, desired, asset, p)))
  }

  lemma {:induction false} AgreedReportSettles(o: Ownership, desired: seq<DesiredItem>, asset: string, p: Passing)
    requires IsPass(o, desired, asset, p) && AgreeOutright(o, desired, asset)
    ensures ReportSettles(o, desired, asset, p)
  {
    var drifts, made := Diff(o, desired, p.seen), Taken(o, desired, asset, p);
    ReportByIdentity(o, desired, p.seen, "");
    ReportByIdentity(o, desired, p.seenAfter, "");
    RemainingInOrder(drifts, made);
    forall key
      ensures OfKey(Diff(o, desired, p.seenAfter), key) == OfKey(Remaining(drifts, made), key)
    {
      NextReport(o, desired, asset, p, key);
      RemainingOfKey(drifts, made, key);
      if LastWish(made, key).Some? {
        LastTaken(o, desired, asset, p, key);
        NothingOwed(o, desired, asset, LastWish(made, key).value);
      }
    }
    SameByIdentity(Diff(o, desired, p.seenAfter), Remaining(drifts, made));
  }

  lemma {:induction false} NothingOwed(o: Ownership, desired: seq<DesiredItem>, asset: string, a: DesiredItem)
    requires AgreeOutright(o, desired, asset) && a in desired && Ungated(asset, a)
    ensures Owed(o, WishesOf(desired, a.Key()), Some(ReadBack(a))) == []
  {
    var owed := Owed(o, WishesOf(desired, a.Key()), Some(ReadBack(a)));
    NothingOrSomething(owed);
    forall d ensures d !in owed {
      OwedMembers(o, WishesOf(desired, a.Key()), ReadBack(a), d);
      if d.Changed? {
        WishesMembers(desired, a.Key(), d.desired);
      }
    }
  }

  lemma {:induction false} NothingToCorrectOwed(o: Ownership, desired: seq<DesiredItem>, asset: string, a: DesiredItem)
    requires AgreeWhereGoverned(o, desired, asset) && a in desired && Ungated(asset, a)
    ensures Corrections(Owed(o, WishesOf(desired, a.Key()), Some(ReadBack(a)))) == []
  {
    var owed := Owed(o, WishesOf(desired, a.Key()), Some(ReadBack(a)));
    NothingOrSomething(Corrections(owed));
    forall d ensures d !in Corrections(owed) {
      CorrectionMembers(owed, d);
      OwedMembers(o, WishesOf(desired, a.Key()), ReadBack(a), d);
      if d.Changed? {
        WishesMembers(desired, a.Key(), d.desired);
      }
    }
  }

  lemma {:induction false} AgreedCorrectionsSettle(o: Ownership, desired: seq<DesiredItem>, asset: string, p: Passing)
    requires IsPass(o, desired, asset, p) && AgreeWhereGoverned(o, desired, asset)
    ensures CorrectionsSettle(o, desired, asset, p)
  {
    var drifts, made, next := Diff(o, desired, p.seen), Taken(o, desired, asset, p), Diff(o, desired, p.seenAfter);
    ReportByIdentity(o, desired, p.seen, "");
    ReportByIdentity(o, desired, p.seenAfter, "");
    RemainingInOrder(drifts, made);
    CorrectionsInOrder(Remaining(drifts, made));
    CorrectionsInOrder(next);
    forall key
      ensures OfKey(Corrections(next), key) == OfKey(Corrections(Remaining(drifts, made)), key)
    {
      NextReport(o, desired, asset, p, key);
      RemainingOfKey(drifts, made, key);
      CorrectionsOfKey(next, key);
      CorrectionsOfKey(Remaining(drifts, made), key);
      if LastWish(made, key).Some? {
        LastTaken(o, desired, asset, p, key);
        NothingToCorrectOwed(o, desired, asset, LastWish(made, key).value);
      }
    }
    SameByIdentity(Corrections(next), Corrections(Remaining(drifts, made)));
  }

  /** Past a moment the token is no longer usable nothing more is made. */
  lemma {:induction false} MadeStops(asset: string, token: Token, clock: nat -> int, drifts: seq<Drift>, q: nat)
    requires q < |drifts| && forall i: nat | q < i :: !token.Usable(clock(i))
    ensures Made(asset, token, clock, drifts) == Made(asset, token, clock, drifts[..q + 1])
  {
    if q + 1 == |drifts| {
      assert drifts[..q + 1] == drifts;
    } else {
      var n := |drifts| - 1;
      MadeStops(asset, token, clock, drifts[..n], q);
      assert drifts[..n][..q + 1] == drifts[..q + 1];
    }
  }

  const ONE_MOMENT := Token("token", 1, "")

  /** A clock that reaches that token's end right after the correction at `q`. */
  function RunsOutAfter(q: nat): nat -> int {
    (i: nat) => if i <= q then 0 else 1
  }

  lemma {:induction false} MadeEndsThere(asset: string, drifts: seq<Drift>, q: nat, a: DesiredItem)
    requires q < |drifts| && drifts[q] == Absent(a) && Ungated(asset, a)
    ensures var made := Made(asset, ONE_MOMENT, RunsOutAfter(q), drifts); made != [] && made[|made| - 1] == Absent(a)
  {
    MadeStops(asset, ONE_MOMENT, RunsOutAfter(q), drifts, q);
    assert drifts[..q + 1][..q] == drifts[..q] && drifts[..q + 1][q] == Absent(a);
  }

  /** A pass over an empty port whose token runs out right after one ungated wish was applied. */
  lemma {:induction false} CutAfter(o: Ownership, desired: seq<DesiredItem>, asset: string, a: DesiredItem)
    returns (p: Passing)
    requires a in desired && Ungated(asset, a)
    ensures IsPass(o, desired, asset, p) && LastWish(Taken(o, desired, asset, p), a.Key()) == Some(a)
  {
    var drifts := Diff(o, desired, []);
    AbsentIsReported(o, desired, a);
    var q: nat :| q < |drifts| && drifts[q] == Absent(a);
    MadeEndsThere(asset, drifts, q, a);
    var made := Made(asset, ONE_MOMENT, RunsOutAfter(q), drifts);
    LastMadeIsLastWish(made, a);
    AfterIsKeyed(map[], made);
    var seenAfter := SomeListing(AfterCorrecting(map[], made));
    p := Passing(map[], [], ONE_MOMENT, RunsOutAfter(q), seenAfter);
  }

  lemma {:induction false} LastMadeIsLastWish(made: seq<Drift>, a: DesiredItem)
    requires made != [] && made[|made| - 1] == Absent(a)
    ensures LastWish(made, a.Key()) == Some(a)
  {
  }

  lemma {:induction false} AbsentIsReported(o: Ownership, desired: seq<DesiredItem>, a: DesiredItem)
    requires a in desired
    ensures Absent(a) in Diff(o, desired, [])
  {
    SortedMembers(WantedDrifts(o, desired, Index([])) + UnexpectedDrifts([], Keys(desired)), Absent(a));
    WantedMembers(o, desired, Index([]), Absent(a));
  }

  /** The report after every pass is exactly the drifts of identities nothing was made for,
      whatever was held and whatever failed, exactly when wishes of one identity agree. */
  lemma {:induction false} ReportSettlesIff(o: Ownership, desired: seq<DesiredItem>, asset: string)
    ensures (forall p | IsPass(o, desired, asset, p) :: ReportSettles(o, desired, asset, p)) <==> AgreeOutright(o, desired, asset)
  {
    if AgreeOutright(o, desired, asset) {
      forall p | IsPass(o, desired, asset, p) ensures ReportSettles(o, desired, asset, p) {
        AgreedReportSettles(o, desired, asset, p);
      }
    } else {
      var a, b :| a in desired && b in desired && a.Key() == b.Key() && Ungated(asset, a) && Differs(o, b, ReadBack(a)) != [];
      var p := CutAfter(o, desired, asset, a);
      var d := Changed(b, ReadBack(a), Differs(o, b, ReadBack(a)));
      DisagreementShows(o, desired, asset, p, a, b, d);
      RemainingMembers(Diff(o, desired, p.seen), Taken(o, desired, asset, p), d);
    }
  }

  lemma {:induction false} DisagreementShows(o: Ownership, desired: seq<DesiredItem>, asset: string, p: Passing,
                                             a: DesiredItem, b: DesiredItem, d: Drift)
    requires IsPass(o, desired, asset, p) && LastWish(Taken(o, desired, asset, p), a.Key()) == Some(a)
    requires b in desired && b.Key() == a.Key() && Differs(o, b, ReadBack(a)) != []
    requires d == Changed(b, ReadBack(a), Differs(o, b, ReadBack(a)))
    ensures d in Diff(o, desired, p.seenAfter)
  {
    NextReport(o, desired, asset, p, a.Key());
    WishesMembers(desired, a.Key(), b);
    OwedMembers(o, WishesOf(desired, a.Key()), ReadBack(a), d);
    OfKeyMembers(Diff(o, desired, p.seenAfter), a.Key(), d);
  }

  /** What a pass corrected asks for no correction again, whatever was held and whatever failed,
      exactly when wishes of one identity agree where they are governed. */
  lemma {:induction false} CorrectionsSettleIff(o: Ownership, desired: seq<DesiredItem>, asset: string)
    ensures (forall p | IsPass(o, desired, asset, p) :: CorrectionsSettle(o, desired, asset, p))
            <==> AgreeWhereGoverned(o, desired, asset)
  {
    if AgreeWhereGoverned(o, desired, asset) {
      forall p | IsPass(o, desired, asset, p) ensures CorrectionsSettle(o, desired, asset, p) {
        AgreedCorrectionsSettle(o, desired, asset, p);
      }
    } else {
      var a, b :| a in desired && b in desired && a.Key() == b.Key() && Ungated(asset, a) && b.gate == GateNone
                  && HasGoverned(Differs(o, b, ReadBack(a)));
      var p := CutAfter(o, desired, asset, a);
      DisagreementIsCorrected(o, desired, asset, p, a, b, Changed(b, ReadBack(a), Differs(o, b, ReadBack(a))));
    }
  }

  lemma {:induction false} DisagreementIsCorrected(o: Ownership, desired: seq<DesiredItem>, asset: string, p: Passing,
                                                   a: DesiredItem, b: DesiredItem, d: Drift)
    requires IsPass(o, desired, asset, p) && LastWish(Taken(o, desired, asset, p), a.Key()) == Some(a)
    requires b in desired && b.Key() == a.Key() && b.gate == GateNone && HasGoverned(Differs(o, b, ReadBack(a)))
    requires d == Changed(b, ReadBack(a), Differs(o, b, ReadBack(a)))
    ensures !CorrectionsSettle(o, desired, asset, p)
  {
    DisagreementShows(o, desired, asset, p, a, b, d);
    CorrectionMembers(Diff(o, desired, p.seenAfter), d);
    RemainingMembers(Diff(o, desired, p.seen), Taken(o, desired, asset, p), d);
    CorrectionMembers(Remaining(Diff(o, desired, p.seen), Taken(o, desired, asset, p)), d);
  }

  /** Wishes that share no identity agree. */
  lemma DistinctWishesAgree(o: Ownership, desired: seq<DesiredItem>, asset: string)
    requires DistinctDesired(desired)
    ensures AgreeOutright(o, desired, asset) && AgreeWhereGoverned(o, desired, asset)
  {
    forall a, b | a in desired && b in desired && a.Key() == b.Key()
      ensures Differs(o, b, ReadBack(a)) == []
    {
      SameKeySameWish(desired, a, b);
      ReadBackAgrees(o, a);
    }
  }

  // ---------------------------------------------------------------------------------------
  // When no two wishes share an identity
  // ---------------------------------------------------------------------------------------

  /** The drifts a pass did not correct, in order. */
  function NotMade(asset: string, token: Token, clock: nat -> int, drifts: seq<Drift>): seq<Drift> {
    if drifts == [] then []
    else
      var n := |drifts| - 1;
      var front := NotMade(asset, token, clock, drifts[..n]);
      if Takes(asset, token, clock(n), drifts[n]) then front else front + [drifts[n]]
  }

  lemma {:induction false} RemainingIsNotMade(asset: string, token: Token, clock: nat -> int, drifts: seq<Drift>, k: nat)
    requires KeysIncrease(drifts) && k <= |drifts|
    ensures Remaining(drifts[..k], Made(asset, token, clock, drifts)) == NotMade(asset, token, clock, drifts[..k])
  {
    if k > 0 {
      RemainingIsNotMade(asset, token, clock, drifts, k - 1);
      assert drifts[..k][..k - 1] == drifts[..k - 1];
      MadeAtItsPlace(asset, token, clock, drifts, k - 1);
    }
  }

  lemma {:induction false} MadeAtItsPlace(asset: string, token: Token, clock: nat -> int, drifts: seq<Drift>, k: nat)
    requires KeysIncrease(drifts) && k < |drifts|
    ensures LastWish(Made(asset, token, clock, drifts), drifts[k].Key()).None? <==> !Takes(asset, token, clock(k), drifts[k])
  {
    var made, key := Made(asset, token, clock, drifts), drifts[k].Key();
    LastWishIsAmong(made, key);
    if LastWish(made, key).Some? {
      var d :| d in made && WishFor(d, key);
      MadeMembers(asset, token, clock, drifts, d);
      var i: nat :| i < |drifts| && drifts[i] == d && Takes(asset, token, clock(i), d);
      OnePlacePerKey(drifts, i, k);
    }
    if Takes(asset, token, clock(k), drifts[k]) {
      MadeMembers(asset, token, clock, drifts, drifts[k]);
      assert WishFor(drifts[k], key);
    }
  }

  lemma OnePlacePerKey(drifts: seq<Drift>, i: nat, k: nat)
    requires KeysIncrease(drifts) && i < |drifts| && k < |drifts| && drifts[i].Key() == drifts[k].Key()
    ensures i == k
  {
    LessIsStrict(drifts[i].Key(), drifts[k].Key());
  }

  /** When no two wishes share an identity, the next report is exactly what this pass did not
      correct: what it escalated and what it failed at, in order. */
  lemma {:induction false} OnlyTheUncorrectedRemain(o: Ownership, desired: seq<DesiredItem>, asset: string, p: Passing)
    requires IsPass(o, desired, asset, p) && DistinctDesired(desired)
    ensures Diff(o, desired, p.seenAfter) == NotMade(asset, p.token, p.clock, Diff(o, desired, p.seen))
  {
    var drifts := Diff(o, desired, p.seen);
    DistinctWishesAgree(o, desired, asset);
    AgreedReportSettles(o, desired, asset, p);
    DiffIsExactlyTheDrifts(o, desired, p.seen);
    RemainingIsNotMade(asset, p.token, p.clock, drifts, |drifts|);
    assert drifts[..|drifts|] == drifts;
  }

  lemma {:induction false} NothingRefusedMeansEscalated(asset: string, token: Token,
                                                        clock: nat -> int, drifts: seq<Drift>)
    requires Refused(asset, token, clock, drifts) == []
    ensures NotMade(asset, token, clock, drifts) == Escalations(drifts)
  {
    if drifts != [] {
      NothingRefusedMeansEscalated(asset, token, clock, drifts[..|drifts| - 1]);
    }
  }

  lemma {:induction false} NothingRefusedNothingLeft(asset: string, token: Token, clock: nat -> int, drifts: seq<Drift>)
    requires Refused(asset, token, clock, drifts) == []
    ensures Corrections(Remaining(drifts, Made(asset, token, clock, drifts))) == []
  {
    var made := Made(asset, token, clock, drifts);
    NoneRefusedAllMade(asset, token, clock, drifts);
    NothingOrSomething(Corrections(Remaining(drifts, made)));
    forall d ensures d !in Corrections(Remaining(drifts, made)) {
      CorrectionMembers(Remaining(drifts, made), d);
      RemainingMembers(drifts, made, d);
      CorrectionMembers(drifts, d);
      LastWishIsAmong(made, d.Key());
      assert d.Correctable() ==> WishFor(d, d.Key());
    }
  }

  // ---------------------------------------------------------------------------------------
  // Two wishes for one thing
  // ---------------------------------------------------------------------------------------

  /** On that report one wish is asked for, and applied it is what the port then holds. */
  ghost predicate AsksFor(o: Ownership, desired: seq<DesiredItem>, items: seq<ObservedItem>, holdings: Holdings,
                          next: DesiredItem) {
    var asked := Corrections(Diff(o, desired, items));
    && |asked| == 1 && asked[0].Changed? && asked[0].desired == next
    && AfterCorrecting(holdings, asked) == holdings[next.Key() := ReadBack(next)]
  }

  /** Two ungated wishes of one identity for different images: with either applied the other is
      asked for, and applied, and so on for ever. */
  lemma {:induction false} TwoWishesNeverSettle(o: Ownership, one: DesiredItem, two: DesiredItem)
    requires one.Key() == two.Key() && one.gate == GateNone == two.gate && "image" in o.governed
    requires one.image != two.image && one.image != "" && two.image != ""
    ensures AsksFor(o, [one, two], [ReadBack(two)], map[one.Key() := ReadBack(two)], one)
    ensures AsksFor(o, [one, two], [ReadBack(one)], map[one.Key() := ReadBack(one)], two)
  {
    OthersAreNotWished(one, two);
    TheOtherIsAsked(o, [one, two], [ReadBack(two)], one, two, two);
    TheOtherIsAsked(o, [one, two], [ReadBack(one)], one, two, one);
  }

  lemma {:induction false} TheOtherIsAsked(o: Ownership, desired: seq<DesiredItem>, items: seq<ObservedItem>,
                                           one: DesiredItem, two: DesiredItem, held: DesiredItem)
    requires one.Key() == two.Key() && one.gate == GateNone == two.gate && "image" in o.governed
    requires one.image != two.image && one.image != "" && two.image != ""
    requires WishedAlone(desired, [one, two], one.Key()) && items == [ReadBack(held)] && (held == one || held == two)
    ensures AsksFor(o, desired, items, map[one.Key() := ReadBack(held)], if held == one then two else one)
  {
    var other, got := if held == one then two else one, ReadBack(held);
    ReadBackAgrees(o, held);
    OtherImageDiffers(o, other, held);
    OwedByTwo(o, [], one, [one], two, [one, two], Some(got));
    OneItemIsSeen(got);
    OnlyOneAsked(o, desired, items, [one, two], got, Changed(other, got, Differs(o, other, got)));
  }

  /** All there is of one identity: one item, and these wishes. */
  ghost predicate SeenAlone(items: seq<ObservedItem>, got: ObservedItem) {
    forall key :: ItemsOf(items, key) == if key == got.Key() then [got] else []
  }

  ghost predicate WishedAlone(desired: seq<DesiredItem>, wishes: seq<DesiredItem>, only: string) {
    forall key :: WishesOf(desired, key) == if key == only then wishes else []
  }

  lemma {:induction false} OneItemIsSeen(got: ObservedItem)
    ensures SeenAlone([got], got)
  {
    forall key ensures ItemsOf([got], key) == if key == got.Key() then [got] else [] {
      assert [got][..0] == [];
    }
  }

  lemma {:induction false} OthersAreNotWished(one: DesiredItem, two: DesiredItem)
    requires one.Key() == two.Key()
    ensures WishedAlone([one, two], [one, two], one.Key())
  {
    BothAreWished(one, two);
    forall key | key != one.Key() ensures WishesOf([one, two], key) == [] {
      forall w ensures w !in WishesOf([one, two], key) {
        WishesMembers([one, two], key, w);
      }
      NothingOrSomething(WishesOf([one, two], key));
    }
  }

  lemma {:induction false} OtherImageDiffers(o: Ownership, want: DesiredItem, other: DesiredItem)
    requires "image" in o.governed && want.image != other.image && want.image != ""
    ensures HasGoverned(Differs(o, want, ReadBack(other)))
  {
    var readings := Readings(want, ReadBack(other));
    var d := Difference("image", Text(want.image), if other.image == "" then ABSENT else Text(other.image), true);
    assert readings[1] == Reading("image", Text(want.image), Text(other.image));
    ReportedIffItMatters(o, readings, d);
    var i :| 0 <= i < |Differs(o, want, ReadBack(other))| && Differs(o, want, ReadBack(other))[i] == d;
  }

  lemma {:induction false} OwedByTwo(o: Ownership, none: seq<DesiredItem>, one: DesiredItem, first: seq<DesiredItem>,
                                     two: DesiredItem, both: seq<DesiredItem>, got: Option<ObservedItem>)
    requires none == [] && first == none + [one] && both == first + [two]
    ensures Owed(o, both, got) == OwedFor(o, one, got) + OwedFor(o, two, got)
  {
    OwedOneMore(o, first, two, got);
    OwedOneMore(o, none, one, got);
    assert Owed(o, none, got) == [];
  }

  /** When all there is owes one drift, the report is that drift. */
  lemma {:induction false} OnlyOneReported(o: Ownership, desired: seq<DesiredItem>, items: seq<ObservedItem>,
                                           wishes: seq<DesiredItem>, got: ObservedItem, d: Drift)
    requires SeenAlone(items, got) && WishedAlone(desired, wishes, got.Key()) && wishes != []
    requires d.Key() == got.Key() && Owed(o, wishes, Some(got)) == [d]
    ensures Diff(o, desired, items) == [d]
  {
    forall key
      ensures OfKey(Diff(o, desired, items), key) == OfKey([d], key)
    {
      OfKeySingle(d, key);
      ReportByIdentity(o, desired, items, key);
      if key == got.Key() {
        ReportOfOneHeld(o, wishes, got);
      } else {
        assert ItemsOf(items, key) == [] && WishesOf(desired, key) == [];
      }
    }
    ReportByIdentity(o, desired, items, "");
    SameByIdentity(Diff(o, desired, items), [d]);
  }

  lemma {:induction false} OnlyOneAsked(o: Ownership, desired: seq<DesiredItem>, items: seq<ObservedItem>,
                                        wishes: seq<DesiredItem>, got: ObservedItem, d: Drift)
    requires SeenAlone(items, got) && WishedAlone(desired, wishes, got.Key()) && wishes != []
    requires d.Key() == got.Key() && Owed(o, wishes, Some(got)) == [d]
    requires d.Changed? && d.Correctable()
    ensures AsksFor(o, desired, items, map[got.Key() := got], d.desired)
  {
    OnlyOneReported(o, desired, items, wishes, got, d);
    OneCorrected(map[got.Key() := got], [], d, [d]);
  }

  lemma {:induction false} OneCorrected(holdings: Holdings, none: seq<Drift>, d: Drift, drifts: seq<Drift>)
    requires none == [] && drifts == none + [d] && d.Correctable()
    ensures Corrections(drifts) == drifts && AfterCorrecting(holdings, drifts) == AfterOne(holdings, d)
  {
    CorrectionsOneMore(none, d);
    OneCorrectionMore(holdings, none, d);
    assert Corrections(none) == none && AfterCorrecting(holdings, none) == holdings;
  }

  // ---------------------------------------------------------------------------------------
  // Observe, report, correct
  // ---------------------------------------------------------------------------------------

  /** What follows from a pass, in whatever order the port then lists what it holds: when wishes
      of one identity agree, nothing it corrected is reported again; when they agree where they
      are governed, none of it asks for correction again, and when nothing failed nothing does;
      and when no two share an identity the next report is what this one could not correct. */
  ghost predicate Follows(o: Ownership, desired: seq<DesiredItem>, asset: string, p: Passing, failed: seq<Drift>) {
    var drifts := Diff(o, desired, p.seen);
    && (AgreeOutright(o, desired, asset) ==> ReportSettles(o, desired, asset, p))
    && (AgreeWhereGoverned(o, desired, asset) ==> CorrectionsSettle(o, desired, asset, p))
    && (AgreeWhereGoverned(o, desired, asset) && failed == [] ==> Corrections(Diff(o, desired, p.seenAfter)) == [])
    && (DistinctDesired(desired) ==> Diff(o, desired, p.seenAfter) == NotMade(asset, p.token, p.clock, drifts))
    && (DistinctDesired(desired) && failed == [] ==> Diff(o, desired, p.seenAfter) == Escalations(drifts))
  }

  lemma {:induction false} PassFollows(o: Ownership, desired: seq<DesiredItem>, asset: string, p: Passing)
    requires IsPass(o, desired, asset, p)
    ensures Follows(o, desired, asset, p, Refused(asset, p.token, p.clock, Diff(o, desired, p.seen)))
  {
    var drifts := Diff(o, desired, p.seen);
    if AgreeOutright(o, desired, asset) {
      AgreedReportSettles(o, desired, asset, p);
    }
    if AgreeWhereGoverned(o, desired, asset) {
      AgreedCorrectionsSettle(o, desired, asset, p);
    }
    if DistinctDesired(desired) {
      OnlyTheUncorrectedRemain(o, desired, asset, p);
    }
    if Refused(asset, p.token, p.clock, drifts) == [] {
      NothingRefusedMeansEscalated(asset, p.token, p.clock, drifts);
      NothingRefusedNothingLeft(asset, p.token, p.clock, drifts);
    }
  }

  method ReconcileOnce(port: MemoryPort, o: Ownership, desired: seq<DesiredItem>, token: Token, clock: nat -> int)
    returns (outcome: Outcome)
    requires port.Valid()
    modifies port
    ensures port.Valid() && port.byKey == AfterCorrecting(old(port.byKey), outcome.corrected)
    ensures exists seen :: Lists(seen, old(port.byKey))
              && outcome == PassOver(port.asset, token, clock, Diff(o, desired, seen))
              && forall seenAfter | Lists(seenAfter, port.byKey) ::
                   Follows(o, desired, port.asset, Passing(old(port.byKey), seen, token, clock, seenAfter), outcome.failed)
    ensures (forall i: nat :: token.Usable(clock(i))) && (forall want | want in desired :: want.asset == port.asset) ==>
              outcome.failed == []
  {
    var seen := port.Observe(port.team);
    ghost var before := port.byKey;
    var drifts := DiffOwned(o, desired, seen);
    outcome := ReconcileDrifts(port, token, drifts, clock);
    forall seenAfter | Lists(seenAfter, port.byKey)
      ensures Follows(o, desired, port.asset, Passing(before, seen, token, clock, seenAfter), outcome.failed)
    {
      PassFollows(o, desired, port.asset, Passing(before, seen, token, clock, seenAfter));
    }
    if (forall i: nat :: token.Usable(clock(i))) && (forall want | want in desired :: want.asset == port.asset) {
      CorrectionsAreOfTheWishes(o, desired, seen, port.asset);
      NothingIsRefused(port.asset, token, clock, drifts);
    }
  }

  lemma {:induction false} CorrectionsAreOfTheWishes(o: Ownership, desired: seq<DesiredItem>, seen: seq<ObservedItem>,
                                                     asset: string)
    requires forall want | want in desired :: want.asset == asset
    ensures forall d | d in Corrections(Diff(o, desired, seen)) :: d.Correctable() && d.desired.asset == asset
  {
    forall d | d in Corrections(Diff(o, desired, seen))
      ensures d.Correctable() && d.desired.asset == asset
    {
      CorrectionMembers(Diff(o, desired, seen), d);
      DriftsAreOfWishes(o, desired, seen, d);
    }
  }
}
