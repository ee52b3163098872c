/**
 The drift report (mantlekeep-estate/reconcile.go: DiffOwned) and what it depends on: taken one
 identity at a time it is what that identity's wishes say of that identity's items, and the
 identities come in text order.
 */
module DriftReport {
  import opened Estate
  import opened Options
  import opened Ordering
  import opened Reconcile

  // ---------------------------------------------------------------------------------------
  // What a difference between two states consists of
  // ---------------------------------------------------------------------------------------

  ghost predicate DistinctDesired(desired: seq<DesiredItem>) {
    forall i, j | 0 <= i < j < |desired| :: desired[i].Key() != desired[j].Key()
  }

  ghost predicate DistinctObserved(observed: seq<ObservedItem>) {
    forall i, j | 0 <= i < j < |observed| :: observed[i].Key() != observed[j].Key()
  }

  predicate Seen(observed: seq<ObservedItem>, key: string) {
    exists i | 0 <= i < |observed| :: observed[i].Key() == key
  }

  /** The classes a drift falls into, by key. */
  ghost predicate IsDrift(o: Ownership, desired: seq<DesiredItem>, observed: seq<ObservedItem>, d: Drift) {
    match d
    case Absent(want) => want in desired && !Seen(observed, want.Key())
    case Changed(want, got, differences) =>
      && want in desired && got in observed && got.Key() == want.Key()
      && differences == Differs(o, want, got) && differences != []
    case Unexpected(got) => got in observed && !HasKey(desired, got.Key())
  }

  ghost predicate KeysIncrease(drifts: seq<Drift>) {
    forall i, j | 0 <= i < j < |drifts| :: Less(drifts[i].Key(), drifts[j].Key())
  }

  lemma {:induction false} IndexFinds(observed: seq<ObservedItem>, key: string)
    ensures key in Index(observed) <==> Seen(observed, key)
    ensures key in Index(observed) ==> Index(observed)[key] in observed && Index(observed)[key].Key() == key
  {
    if observed != [] {
      var n := |observed| - 1;
      IndexFinds(observed[..n], key);
      assert observed == observed[..n] + [observed[n]];
      if Seen(observed[..n], key) {
        var i :| 0 <= i < n && observed[..n][i].Key() == key;
        assert observed[i].Key() == key;
      }
      if Seen(observed, key) {
        var i :| 0 <= i < |observed| && observed[i].Key() == key;
        assert i < n ==> observed[..n][i].Key() == key;
      }
    }
  }

  lemma SameKeySameItem(observed: seq<ObservedItem>, one: ObservedItem, two: ObservedItem)
    requires DistinctObserved(observed) && one in observed && two in observed && one.Key() == two.Key()
    ensures one == two
  {
  }

  lemma SameKeySameWish(desired: seq<DesiredItem>, one: DesiredItem, two: DesiredItem)
    requires DistinctDesired(desired) && one in desired && two in desired && one.Key() == two.Key()
    ensures one == two
  {
  }

  lemma InFrontOrLast<T>(s: seq<T>, x: T)
    requires s != []
    ensures x in s <==> x in s[..|s| - 1] || x == s[|s| - 1]
  {
    assert s == s[..|s| - 1] + [s[|s| - 1]];
  }

  lemma {:induction false} WantedMembers(o: Ownership, desired: seq<DesiredItem>, actual: map<string, ObservedItem>,
                                         d: Drift)
    ensures d in WantedDrifts(o, desired, actual) <==>
            !d.Unexpected? && d.desired in desired && DriftOf(o, d.desired, actual) == [d]
  {
    if desired != [] {
      var n := |desired| - 1;
      WantedMembers(o, desired[..n], actual, d);
      assert desired == desired[..n] + [desired[n]];
    }
  }

  lemma {:induction false} UnexpectedMembers(observed: seq<ObservedItem>, wanted: set<string>, d: Drift)
    ensures d in UnexpectedDrifts(observed, wanted) <==>
            d.Unexpected? && d.observed in observed && d.Key() !in wanted
  {
    if observed != [] {
      var n := |observed| - 1;
      UnexpectedMembers(observed[..n], wanted, d);
      if d.Unexpected? {
        InFrontOrLast(observed, d.observed);
      }
    }
  }

  lemma {:induction false} InsertedMembers(sorted: seq<Drift>, x: Drift, d: Drift)
    ensures d in Inserted(sorted, x) <==> d in sorted || d == x
  {
    if sorted != [] {
      InsertedMembers(sorted[..|sorted| - 1], x, d);
      InFrontOrLast(sorted, d);
    }
  }

  lemma {:induction false} SortedMembers(drifts: seq<Drift>, d: Drift)
    ensures d in SortedDrifts(drifts) <==> d in drifts
  {
    if drifts != [] {
      var n := |drifts| - 1;
      SortedMembers(drifts[..n], d);
      InsertedMembers(SortedDrifts(drifts[..n]), drifts[n], d);
      InFrontOrLast(drifts, d);
    }
  }

  predicate DistinctKeys(drifts: seq<Drift>) {
    forall i, j | 0 <= i < j < |drifts| :: drifts[i].Key() != drifts[j].Key()
  }

  lemma LastIncreases(front: seq<Drift>, last: Drift)
    requires KeysIncrease(front) && forall d | d in front :: Less(d.Key(), last.Key())
    ensures KeysIncrease(front + [last])
  {
    forall i | 0 <= i < |front| ensures Less(front[i].Key(), last.Key()) {
      assert front[i] in front;
    }
  }

  lemma AllBeforeLast(sorted: seq<Drift>, x: Drift)
    requires KeysIncrease(sorted) && sorted != [] && Less(sorted[|sorted| - 1].Key(), x.Key())
    ensures forall d | d in sorted :: Less(d.Key(), x.Key())
  {
    forall d | d in sorted ensures Less(d.Key(), x.Key()) {
      var last := sorted[|sorted| - 1];
      if d != last {
        LessIsTransitive(d.Key(), last.Key(), x.Key());
      }
    }
  }

  lemma {:induction false} InsertedIncreases(sorted: seq<Drift>, x: Drift)
    requires KeysIncrease(sorted)
    requires forall d | d in sorted :: d.Key() != x.Key()
    ensures KeysIncrease(Inserted(sorted, x))
  {
    if sorted != [] {
      var n := |sorted| - 1;
      var last := sorted[n];
      LessIsTotal(x.Key(), last.Key());
      assert last in sorted;
      if Less(x.Key(), last.Key()) {
        assert forall d | d in sorted[..n] :: d in sorted;
        InsertedIncreases(sorted[..n], x);
        forall d | d in Inserted(sorted[..n], x) ensures Less(d.Key(), last.Key()) {
          InsertedMembers(sorted[..n], x, d);
        }
        LastIncreases(Inserted(sorted[..n], x), last);
      } else {
        AllBeforeLast(sorted, x);
        LastIncreases(sorted, x);
      }
    }
  }

  lemma {:induction false} SortingIncreases(drifts: seq<Drift>)
    requires DistinctKeys(drifts)
    ensures KeysIncrease(SortedDrifts(drifts))
  {
    if drifts != [] {
      var n := |drifts| - 1;
      SortingIncreases(drifts[..n]);
      forall d | d in SortedDrifts(drifts[..n]) ensures d.Key() != drifts[n].Key() {
        SortedMembers(drifts[..n], d);
      }
      InsertedIncreases(SortedDrifts(drifts[..n]), drifts[n]);
    }
  }

  lemma AppendDistinct(drifts: seq<Drift>, x: Drift)
    requires DistinctKeys(drifts) && forall d | d in drifts :: d.Key() != x.Key()
    ensures DistinctKeys(drifts + [x])
  {
  }

  lemma {:induction false} WantedDistinct(o: Ownership, desired: seq<DesiredItem>, actual: map<string, ObservedItem>)
    requires DistinctDesired(desired)
    ensures DistinctKeys(WantedDrifts(o, desired, actual))
  {
    if desired != [] {
      var n := |desired| - 1;
      var before := WantedDrifts(o, desired[..n], actual);
      WantedDistinct(o, desired[..n], actual);
      var more := DriftOf(o, desired[n], actual);
      if more != [] {
        forall d | d in before ensures d.Key() != more[0].Key() {
          WantedMembers(o, desired[..n], actual, d);
        }
        AppendDistinct(before, more[0]);
        assert more == [more[0]];
      } else {
        assert before + more == before;
      }
    }
  }

  lemma {:induction false} RawDistinct(wanted: seq<Drift>, observed: seq<ObservedItem>, keys: set<string>)
    requires DistinctKeys(wanted) && forall d | d in wanted :: d.Key() in keys
    requires DistinctObserved(observed)
    ensures DistinctKeys(wanted + UnexpectedDrifts(observed, keys))
  {
    if observed == [] {
      assert wanted + [] == wanted;
    } else {
      var n := |observed| - 1;
      RawDistinct(wanted, observed[..n], keys);
      var before := wanted + UnexpectedDrifts(observed[..n], keys);
      if observed[n].Key() !in keys {
        forall d | d in before ensures d.Key() != observed[n].Key() {
          UnexpectedMembers(observed[..n], keys, d);
        }
        AppendDistinct(before, Unexpected(observed[n]));
        assert wanted + UnexpectedDrifts(observed, keys) == before + [Unexpected(observed[n])];
      } else {
        assert wanted + UnexpectedDrifts(observed, keys) == before;
      }
    }
  }

  /** With distinct identities the report holds exactly the drifts there are, in key order,
      one to a key at most: absent, changed or unexpected. */
  lemma DiffIsExactlyTheDrifts(o: Ownership, desired: seq<DesiredItem>, observed: seq<ObservedItem>)
    requires DistinctDesired(desired) && DistinctObserved(observed)
    ensures KeysIncrease(Diff(o, desired, observed))
    ensures forall d :: d in Diff(o, desired, observed) <==> IsDrift(o, desired, observed, d)
  {
    var wanted, keys := WantedDrifts(o, desired, Index(observed)), Keys(desired);
    WantedDistinct(o, desired, Index(observed));
    forall d | d in wanted ensures d.Key() in keys {
      WantedMembers(o, desired, Index(observed), d);
      KeysAreKeys(desired, d.Key());
    }
    RawDistinct(wanted, observed, keys);
    SortingIncreases(wanted + UnexpectedDrifts(observed, keys));
    forall d
      ensures d in Diff(o, desired, observed) <==> IsDrift(o, desired, observed, d)
    {
      SortedMembers(wanted + UnexpectedDrifts(observed, keys), d);
      MemberIsDrift(o, desired, observed, d);
    }
  }

  lemma {:induction false} MemberIsDrift(o: Ownership, desired: seq<DesiredItem>, observed: seq<ObservedItem>, d: Drift)
    requires DistinctDesired(desired) && DistinctObserved(observed)
    ensures d in WantedDrifts(o, desired, Index(observed)) + UnexpectedDrifts(observed, Keys(desired))
            <==> IsDrift(o, desired, observed, d)
  {
    WantedMembers(o, desired, Index(observed), d);
    UnexpectedMembers(observed, Keys(desired), d);
    KeysAreKeys(desired, d.Key());
    IndexFinds(observed, d.Key());
    if d.Changed? && IsDrift(o, desired, observed, d) {
      SeenBecauseMember(observed, d.observed);
      SameKeySameItem(observed, d.observed, Index(observed)[d.Key()]);
    }
  }

  lemma SeenBecauseMember(observed: seq<ObservedItem>, item: ObservedItem)
    requires item in observed
    ensures Seen(observed, item.Key())
  {
  }

  /** Two reports in key order with the same drifts are the same report. */
  lemma {:induction false} ReportIsUnique(one: seq<Drift>, two: seq<Drift>)
    requires KeysIncrease(one) && KeysIncrease(two)
    requires forall d :: d in one <==> d in two
    ensures one == two
  {
    if one == [] || two == [] {
      NothingOrSomething(one);
      NothingOrSomething(two);
    } else {
      assert one[0] in two && two[0] in one;
      FirstHasLeastKey(one, two[0]);
      FirstHasLeastKey(two, one[0]);
      LessIsStrict(one[0].Key(), two[0].Key());
      assert one == [one[0]] + one[1..] && two == [two[0]] + two[1..];
      forall d ensures d in one[1..] <==> d in two[1..] {
        FirstDriftOnlyOnce(one, d);
        FirstDriftOnlyOnce(two, d);
      }
      ReportIsUnique(one[1..], two[1..]);
    }
  }

  lemma NothingOrSomething<T>(s: seq<T>)
    ensures s == [] || exists x :: x in s
  {
    if s != [] {
      assert s[0] in s;
    }
  }

  lemma FirstHasLeastKey(drifts: seq<Drift>, d: Drift)
    requires KeysIncrease(drifts) && d in drifts
    ensures d == drifts[0] || Less(drifts[0].Key(), d.Key())
  {
  }

  lemma FirstDriftOnlyOnce(drifts: seq<Drift>, d: Drift)
    requires KeysIncrease(drifts) && drifts != []
    ensures d in drifts[1..] <==> d in drifts && d != drifts[0]
  {
    assert drifts == [drifts[0]] + drifts[1..];
    if d in drifts[1..] {
      var i :| 0 <= i < |drifts[1..]| && drifts[1..][i] == d;
      assert Less(drifts[0].Key(), drifts[i + 1].Key());
      LessIsStrict(drifts[0].Key(), drifts[i + 1].Key());
    }
  }

  // ---------------------------------------------------------------------------------------
  // One identity at a time
  // ---------------------------------------------------------------------------------------

  function OfKey(drifts: seq<Drift>, key: string): seq<Drift> {
    if drifts == [] then []
    else
      var n := |drifts| - 1;
      if drifts[n].Key() == key then OfKey(drifts[..n], key) + [drifts[n]] else OfKey(drifts[..n], key)
  }

  /** The wishes of one identity, in the order they were declared. */
  function WishesOf(desired: seq<DesiredItem>, key: string): seq<DesiredItem> {
    if desired == [] then []
    else
      var n := |desired| - 1;
      if desired[n].Key() == key then WishesOf(desired[..n], key) + [desired[n]] else WishesOf(desired[..n], key)
  }

  function ItemsOf(observed: seq<ObservedItem>, key: string): seq<ObservedItem> {
    if observed == [] then []
    else
      var n := |observed| - 1;
      if observed[n].Key() == key then ItemsOf(observed[..n], key) + [observed[n]] else ItemsOf(observed[..n], key)
  }

  ghost predicate InKeyOrder(drifts: seq<Drift>) {
    forall i, j | 0 <= i < j < |drifts| :: !Less(drifts[j].Key(), drifts[i].Key())
  }

  lemma {:induction false} OfKeyOneMore(drifts: seq<Drift>, d: Drift, key: string)
    ensures OfKey(drifts + [d], key) == if d.Key() == key then OfKey(drifts, key) + [d] else OfKey(drifts, key)
  {
    assert (drifts + [d])[..|drifts|] == drifts;
  }

  lemma Associates(a: seq<Drift>, b: seq<Drift>, last: Drift)
    ensures (a + b) + [last] == a + (b + [last])
  {
  }

  lemma {:induction false} OfKeyInParts(one: seq<Drift>, two: seq<Drift>, key: string)
    ensures OfKey(one + two, key) == OfKey(one, key) + OfKey(two, key)
  {
    if two == [] {
      assert one + two == one;
    } else {
      var n := |two| - 1;
      assert two == two[..n] + [two[n]];
      OfKeyInParts(one, two[..n], key);
      PartsOneMore(one, two[..n], two[n], key);
    }
  }

  lemma {:induction false} PartsOneMore(one: seq<Drift>, front: seq<Drift>, last: Drift, key: string)
    requires OfKey(one + front, key) == OfKey(one, key) + OfKey(front, key)
    ensures OfKey(one + (front + [last]), key) == OfKey(one, key) + OfKey(front + [last], key)
  {
    Associates(one, front, last);
    OfKeyOneMore(one + front, last, key);
    OfKeyOneMore(front, last, key);
    if last.Key() == key {
      Associates(OfKey(one, key), OfKey(front, key), last);
    }
  }

  lemma {:induction false} OfKeyMembers(drifts: seq<Drift>, key: string, d: Drift)
    ensures d in OfKey(drifts, key) <==> d in drifts && d.Key() == key
  {
    if drifts != [] {
      OfKeyMembers(drifts[..|drifts| - 1], key, d);
      InFrontOrLast(drifts, d);
    }
  }

  /** Sorting moves no drift past another of its own identity. */
  lemma {:induction false} OfKeyInserted(sorted: seq<Drift>, x: Drift, key: string)
    ensures OfKey(Inserted(sorted, x), key) == if x.Key() == key then OfKey(sorted, key) + [x] else OfKey(sorted, key)
  {
    if sorted == [] || !Less(x.Key(), sorted[|sorted| - 1].Key()) {
      OfKeyOneMore(sorted, x, key);
    } else {
      var n := |sorted| - 1;
      OfKeyInserted(sorted[..n], x, key);
      OfKeyOneMore(Inserted(sorted[..n], x), sorted[n], key);
      LessIsStrict(x.Key(), sorted[n].Key());
    }
  }

  lemma {:induction false} OfKeySorted(drifts: seq<Drift>, key: string)
    ensures OfKey(SortedDrifts(drifts), key) == OfKey(drifts, key)
  {
    if drifts != [] {
      var n := |drifts| - 1;
      OfKeySorted(drifts[..n], key);
      OfKeyInserted(SortedDrifts(drifts[..n]), drifts[n], key);
    }
  }

  lemma {:induction false} LessThanNotLess(x: string, d: string, last: string)
    requires Less(x, d) && !Less(last, d)
    ensures Less(x, last)
  {
    LessIsTotal(last, d);
    if d != last {
      LessIsTransitive(x, d, last);
    }
  }

  lemma {:induction false} InsertedInOrder(sorted: seq<Drift>, x: Drift)
    requires InKeyOrder(sorted)
    ensures InKeyOrder(Inserted(sorted, x))
  {
    if sorted != [] {
      var n := |sorted| - 1;
      var last := sorted[n];
      if Less(x.Key(), last.Key()) {
        InsertedInOrder(sorted[..n], x);
        forall d | d in Inserted(sorted[..n], x) ensures !Less(last.Key(), d.Key()) {
          InsertedMembers(sorted[..n], x, d);
          LessIsStrict(x.Key(), last.Key());
        }
        LastInOrder(Inserted(sorted[..n], x), last);
      } else {
        forall d | d in sorted ensures !Less(x.Key(), d.Key()) {
          if Less(x.Key(), d.Key()) {
            NoneBeforeLast(sorted, d);
            LessThanNotLess(x.Key(), d.Key(), last.Key());
          }
        }
        LastInOrder(sorted, x);
      }
    }
  }

  lemma NoneBeforeLast(drifts: seq<Drift>, d: Drift)
    requires InKeyOrder(drifts) && d in drifts
    ensures !Less(drifts[|drifts| - 1].Key(), d.Key())
  {
    var i :| 0 <= i < |drifts| && drifts[i] == d;
    LessIsStrict(d.Key(), d.Key());
  }

  lemma LastInOrder(front: seq<Drift>, last: Drift)
    requires InKeyOrder(front) && forall d | d in front :: !Less(last.Key(), d.Key())
    ensures InKeyOrder(front + [last])
  {
    forall i | 0 <= i < |front| ensures !Less(last.Key(), front[i].Key()) {
      assert front[i] in front;
    }
  }

  lemma {:induction false} SortedInOrder(drifts: seq<Drift>)
    ensures InKeyOrder(SortedDrifts(drifts))
  {
    if drifts != [] {
      var n := |drifts| - 1;
      SortedInOrder(drifts[..n]);
      InsertedInOrder(SortedDrifts(drifts[..n]), drifts[n]);
    }
  }

  ghost predicate AgreeOnEveryIdentity(one: seq<Drift>, two: seq<Drift>) {
    forall key :: OfKey(one, key) == OfKey(two, key)
  }

  lemma {:induction false} LastKeyIsNotBefore(one: seq<Drift>, two: seq<Drift>)
    requires InKeyOrder(one) && one != [] && two != [] && AgreeOnEveryIdentity(one, two)
    ensures !Less(one[|one| - 1].Key(), two[|two| - 1].Key())
  {
    var last := two[|two| - 1];
    OfKeyMembers(two, last.Key(), last);
    OfKeyMembers(one, last.Key(), last);
    NoneBeforeLast(one, last);
  }

  lemma {:induction false} NothingAgreesWithNothing(drifts: seq<Drift>)
    requires AgreeOnEveryIdentity([], drifts)
    ensures drifts == []
  {
    if drifts != [] {
      OfKeyMembers(drifts, drifts[0].Key(), drifts[0]);
      OfKeyMembers([], drifts[0].Key(), drifts[0]);
    }
  }

  lemma {:induction false} SameLast(one: seq<Drift>, two: seq<Drift>)
    requires InKeyOrder(one) && InKeyOrder(two) && one != [] && two != [] && AgreeOnEveryIdentity(one, two)
    ensures one[|one| - 1] == two[|two| - 1]
  {
    var a, b := one[|one| - 1], two[|two| - 1];
    LastKeyIsNotBefore(one, two);
    LastKeyIsNotBefore(two, one);
    LessIsTotal(a.Key(), b.Key());
    assert OfKey(one, a.Key()) == OfKey(one[..|one| - 1], a.Key()) + [a];
    assert OfKey(two, a.Key()) == OfKey(two[..|two| - 1], a.Key()) + [b];
    LastsAgree(OfKey(one[..|one| - 1], a.Key()), a, OfKey(two[..|two| - 1], a.Key()), b);
  }

  lemma LastsAgree(s: seq<Drift>, a: Drift, t: seq<Drift>, b: Drift)
    requires s + [a] == t + [b]
    ensures s == t && a == b
  {
    assert (s + [a])[|s + [a]| - 1] == a && (t + [b])[|t + [b]| - 1] == b;
    assert (s + [a])[..|s|] == s && (t + [b])[..|t|] == t;
  }

  lemma {:induction false} FrontsAgree(one: seq<Drift>, two: seq<Drift>, last: Drift)
    requires AgreeOnEveryIdentity(one + [last], two + [last])
    ensures AgreeOnEveryIdentity(one, two)
  {
    forall key ensures OfKey(one, key) == OfKey(two, key) {
      assert OfKey(one + [last], key) == OfKey(two + [last], key);
      OfKeyOneMore(one, last, key);
      OfKeyOneMore(two, last, key);
      if last.Key() == key {
        SameEnding(OfKey(one, key), OfKey(two, key), last);
      }
    }
  }

  lemma SameEnding(s: seq<Drift>, t: seq<Drift>, last: Drift)
    requires s + [last] == t + [last]
    ensures s == t
  {
    assert s == (s + [last])[..|s|] && t == (t + [last])[..|t|];
  }

  /** Two reports in key order that agree on every identity are the same report. */
  lemma {:induction false} SameByIdentity(one: seq<Drift>, two: seq<Drift>)
    requires InKeyOrder(one) && InKeyOrder(two) && AgreeOnEveryIdentity(one, two)
    ensures one == two
  {
    if one == [] {
      NothingAgreesWithNothing(two);
    } else if two == [] {
      NothingAgreesWithNothing(one);
    } else {
      SameLast(one, two);
      var m, n := |one| - 1, |two| - 1;
      assert one == one[..m] + [one[m]] && two == two[..n] + [two[n]];
      FrontsAgree(one[..m], two[..n], one[m]);
      SameByIdentity(one[..m], two[..n]);
    }
  }

  // ---------------------------------------------------------------------------------------
  // What the report says of one identity
  // ---------------------------------------------------------------------------------------

  ghost function OwedFor(o: Ownership, want: DesiredItem, got: Option<ObservedItem>): seq<Drift> {
    match got
    case None => [Absent(want)]
    case Some(g) => if Differs(o, want, g) == [] then [] else [Changed(want, g, Differs(o, want, g))]
  }

  /** The drifts of one identity's wishes from what is there. */
  ghost function Owed(o: Ownership, wishes: seq<DesiredItem>, got: Option<ObservedItem>): seq<Drift> {
    if wishes == [] then []
    else
      var n := |wishes| - 1;
      Owed(o, wishes[..n], got) + OwedFor(o, wishes[n], got)
  }

  /** Of two items with one identity the later counts. */
  function LastOf(items: seq<ObservedItem>): Option<ObservedItem> {
    if items == [] then None else Some(items[|items| - 1])
  }

  function AllUnexpected(items: seq<ObservedItem>): seq<Drift> {
    if items == [] then [] else AllUnexpected(items[..|items| - 1]) + [Unexpected(items[|items| - 1])]
  }

  ghost function ReportOf(o: Ownership, wishes: seq<DesiredItem>, items: seq<ObservedItem>): seq<Drift> {
    if wishes == [] then AllUnexpected(items) else Owed(o, wishes, LastOf(items))
  }

  function At(actual: map<string, ObservedItem>, key: string): Option<ObservedItem> {
    if key in actual then Some(actual[key]) else None
  }

  lemma {:induction false} IndexOfKey(observed: seq<ObservedItem>, key: string)
    ensures At(Index(observed), key) == LastOf(ItemsOf(observed, key))
  {
    if observed != [] {
      IndexOfKey(observed[..|observed| - 1], key);
    }
  }

  lemma {:induction false} KeysOfWishes(desired: seq<DesiredItem>, key: string)
    ensures key in Keys(desired) <==> WishesOf(desired, key) != []
  {
    if desired != [] {
      KeysOfWishes(desired[..|desired| - 1], key);
    }
  }

  lemma {:induction false} OfKeySingle(d: Drift, key: string)
    ensures OfKey([d], key) == if d.Key() == key then [d] else []
  {
    OfKeyOneMore([], d, key);
    assert [] + [d] == [d];
  }

  lemma {:induction false} WantedOfKey(o: Ownership, desired: seq<DesiredItem>, actual: map<string, ObservedItem>,
                                       key: string)
    ensures OfKey(WantedDrifts(o, desired, actual), key) == Owed(o, WishesOf(desired, key), At(actual, key))
  {
    if desired != [] {
      var n := |desired| - 1;
      WantedOfKey(o, desired[..n], actual, key);
      OfKeyInParts(WantedDrifts(o, desired[..n], actual), DriftOf(o, desired[n], actual), key);
      OneWantedOfKey(o, desired[n], actual, key);
      OwedOneMore(o, WishesOf(desired[..n], key), desired[n], At(actual, key));
    }
  }

  lemma {:induction false} OwedOneMore(o: Ownership, wishes: seq<DesiredItem>, want: DesiredItem,
                                       got: Option<ObservedItem>)
    ensures Owed(o, wishes + [want], got) == Owed(o, wishes, got) + OwedFor(o, want, got)
  {
    assert (wishes + [want])[..|wishes|] == wishes;
  }

  lemma {:induction false} OneWantedOfKey(o: Ownership, want: DesiredItem, actual: map<string, ObservedItem>,
                                          key: string)
    ensures OfKey(DriftOf(o, want, actual), key) == if want.Key() == key then OwedFor(o, want, At(actual, key)) else []
  {
    OfKeyOfAtMostOne(DriftOf(o, want, actual), key);
  }

  lemma {:induction false} OfKeyOfAtMostOne(drifts: seq<Drift>, key: string)
    requires |drifts| <= 1
    ensures OfKey(drifts, key) == if drifts == [] || drifts[0].Key() != key then [] else drifts
  {
    if drifts != [] {
      OfKeySingle(drifts[0], key);
      assert drifts == [drifts[0]];
    }
  }

  lemma {:induction false} AllUnexpectedOneMore(items: seq<ObservedItem>, item: ObservedItem)
    ensures AllUnexpected(items + [item]) == AllUnexpected(items) + [Unexpected(item)]
  {
    assert (items + [item])[..|items|] == items;
  }

  lemma {:induction false} UnexpectedOfKey(observed: seq<ObservedItem>, wanted: set<string>, key: string)
    ensures OfKey(UnexpectedDrifts(observed, wanted), key) ==
            if key in wanted then [] else AllUnexpected(ItemsOf(observed, key))
  {
    if observed != [] {
      var n := |observed| - 1;
      UnexpectedOfKey(observed[..n], wanted, key);
      if observed[n].Key() !in wanted {
        OfKeyOneMore(UnexpectedDrifts(observed[..n], wanted), Unexpected(observed[n]), key);
        AllUnexpectedOneMore(ItemsOf(observed[..n], key), observed[n]);
      }
    }
  }

  /** For any wishes and any items, identities shared or not: the report is in text order of
      identity, and of each identity it says what that identity's wishes, in their order, make
      of that identity's items. */
  lemma {:induction false} ReportByIdentity(o: Ownership, desired: seq<DesiredItem>, observed: seq<ObservedItem>,
                                            key: string)
    ensures InKeyOrder(Diff(o, desired, observed))
    ensures OfKey(Diff(o, desired, observed), key) == ReportOf(o, WishesOf(desired, key), ItemsOf(observed, key))
  {
    var wanted, unexpected := WantedDrifts(o, desired, Index(observed)), UnexpectedDrifts(observed, Keys(desired));
    SortedInOrder(wanted + unexpected);
    OfKeySorted(wanted + unexpected, key);
    OfKeyInParts(wanted, unexpected, key);
    WantedOfKey(o, desired, Index(observed), key);
    UnexpectedOfKey(observed, Keys(desired), key);
    KeysOfWishes(desired, key);
    IndexOfKey(observed, key);
  }

  /** The order either side is listed in does not matter, save among items of one identity. */
  lemma {:induction false} InputOrderDoesNotMatter(o: Ownership, desired: seq<DesiredItem>, desired': seq<DesiredItem>,
                                observed: seq<ObservedItem>, observed': seq<ObservedItem>)
    requires forall key :: WishesOf(desired, key) == WishesOf(desired', key)
    requires forall key :: ItemsOf(observed, key) == ItemsOf(observed', key)
    ensures Diff(o, desired, observed) == Diff(o, desired', observed')
  {
    forall key
      ensures OfKey(Diff(o, desired, observed), key) == OfKey(Diff(o, desired', observed'), key)
    {
      ReportByIdentity(o, desired, observed, key);
      ReportByIdentity(o, desired', observed', key);
    }
    ReportByIdentity(o, desired, observed, "");
    ReportByIdentity(o, desired', observed', "");
    SameByIdentity(Diff(o, desired, observed), Diff(o, desired', observed'));
  }

  lemma {:induction false} WishesMembers(desired: seq<DesiredItem>, key: string, w: DesiredItem)
    ensures w in WishesOf(desired, key) <==> w in desired && w.Key() == key
  {
    if desired != [] {
      WishesMembers(desired[..|desired| - 1], key, w);
      InFrontOrLast(desired, w);
    }
  }

  lemma {:induction false} ItemsMembers(observed: seq<ObservedItem>, key: string, g: ObservedItem)
    ensures g in ItemsOf(observed, key) <==> g in observed && g.Key() == key
  {
    if observed != [] {
      ItemsMembers(observed[..|observed| - 1], key, g);
      InFrontOrLast(observed, g);
    }
  }

  lemma {:induction false} OneWishPerKey(desired: seq<DesiredItem>, key: string)
    requires DistinctDesired(desired)
    ensures |WishesOf(desired, key)| <= 1
  {
    if desired != [] {
      var n := |desired| - 1;
      OneWishPerKey(desired[..n], key);
      if desired[n].Key() == key && WishesOf(desired[..n], key) != [] {
        WishesMembers(desired[..n], key, WishesOf(desired[..n], key)[0]);
      }
    }
  }

  lemma {:induction false} OneItemPerKey(observed: seq<ObservedItem>, key: string)
    requires DistinctObserved(observed)
    ensures |ItemsOf(observed, key)| <= 1
  {
    if observed != [] {
      var n := |observed| - 1;
      OneItemPerKey(observed[..n], key);
      if observed[n].Key() == key && ItemsOf(observed[..n], key) != [] {
        ItemsMembers(observed[..n], key, ItemsOf(observed[..n], key)[0]);
      }
    }
  }

  lemma SingleOrNone<T>(one: seq<T>, two: seq<T>)
    requires |one| <= 1 && |two| <= 1 && forall x :: x in one <==> x in two
    ensures one == two
  {
    if one != [] {
      assert one[0] in two;
    }
    if two != [] {
      assert two[0] in one;
    }
  }

  /** So it does not matter at all when no two share an identity. */
  lemma DistinctIdentitiesInAnyOrder(o: Ownership, desired: seq<DesiredItem>, desired': seq<DesiredItem>,
                                     observed: seq<ObservedItem>, observed': seq<ObservedItem>)
    requires DistinctDesired(desired) && DistinctObserved(observed)
    requires DistinctDesired(desired') && DistinctObserved(observed')
    requires (forall w :: w in desired <==> w in desired') && (forall g :: g in observed <==> g in observed')
    ensures Diff(o, desired, observed) == Diff(o, desired', observed')
  {
    forall key
      ensures WishesOf(desired, key) == WishesOf(desired', key)
    {
      forall w ensures w in WishesOf(desired, key) <==> w in WishesOf(desired', key) {
        WishesMembers(desired, key, w);
        WishesMembers(desired', key, w);
      }
      OneWishPerKey(desired, key);
      OneWishPerKey(desired', key);
      SingleOrNone(WishesOf(desired, key), WishesOf(desired', key));
    }
    forall key
      ensures ItemsOf(observed, key) == ItemsOf(observed', key)
    {
      forall g ensures g in ItemsOf(observed, key) <==> g in ItemsOf(observed', key) {
        ItemsMembers(observed, key, g);
        ItemsMembers(observed', key, g);
      }
      OneItemPerKey(observed, key);
      OneItemPerKey(observed', key);
      SingleOrNone(ItemsOf(observed, key), ItemsOf(observed', key));
    }
    InputOrderDoesNotMatter(o, desired, desired', observed, observed');
  }

  /** And does when two do: the report lists their drifts as they were declared. */
  lemma {:induction false} OrderWithinAnIdentityShows(o: Ownership, one: DesiredItem, two: DesiredItem)
    requires one != two && one.Key() == two.Key()
    ensures Diff(o, [one, two], []) != Diff(o, [two, one], [])
  {
    TwoAbsent(o, one, two);
    TwoAbsent(o, two, one);
  }

  lemma {:induction false} TwoAbsent(o: Ownership, one: DesiredItem, two: DesiredItem)
    requires one.Key() == two.Key()
    ensures OfKey(Diff(o, [one, two], []), one.Key()) == [Absent(one), Absent(two)]
  {
    ReportByIdentity(o, [one, two], [], one.Key());
    BothAreWished(one, two);
    OwedOneMore(o, [one], two, None);
    OwedOneMore(o, [], one, None);
    assert [] + [one] == [one] && [one] + [two] == [one, two];
  }

  lemma {:induction false} BothAreWished(one: DesiredItem, two: DesiredItem)
    requires one.Key() == two.Key()
    ensures WishesOf([one, two], one.Key()) == [one, two]
  {
    assert [one, two][..1] == [one] && [one][..0] == [];
    assert WishesOf([one], one.Key()) == [] + [one];
  }
}
