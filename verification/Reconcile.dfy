/**
 What is wanted compared with what is observed (mantlekeep-estate/reconcile.go, ownership.go
 and the comparison of fleet.go): drifts, and which of them may be corrected.
 */
module Reconcile {
  import opened Estate
  import opened Ordering
  import opened Versions

  datatype Ownership = Ownership(governed: set<string>, watched: set<string>)

  /** A field's value as compared; numbers and durations are never the empty text. */
  datatype Value = Text(text: string) | Number(n: int) | Duration(nanoseconds: int)

  datatype Difference = Difference(field: string, approved: Value, observed: Value, governed: bool)

  datatype Drift =
    | Absent(desired: DesiredItem)
    | Changed(desired: DesiredItem, observed: ObservedItem, differences: seq<Difference>)
    | Unexpected(observed: ObservedItem)
  {
    function Key(): string {
      match this
      case Absent(desired) => desired.Key()
      case Changed(desired, _, _) => desired.Key()
      case Unexpected(observed) => observed.Key()
    }

    predicate TouchesGoverned() {
      || !Changed?
      || exists i | 0 <= i < |differences| :: differences[i].governed
    }

    /** Only what nobody had to approve is put back without asking. */
    predicate Correctable() {
      !Unexpected? && TouchesGoverned() && desired.gate == GateNone
    }
  }

  // ---------------------------------------------------------------------------------------
  // Comparing one item
  // ---------------------------------------------------------------------------------------

  datatype Reading = Reading(field: string, approved: Value, observed: Value)

  const ABSENT := Text("(absent)")

  function Compared(o: Ownership, r: Reading): seq<Difference> {
    if r.approved == Text("") || r.approved == r.observed then []
    else if r.field !in o.governed && r.field !in o.watched then []
    else [Difference(r.field, r.approved, if r.observed == Text("") then ABSENT else r.observed, r.field in o.governed)]
  }

  function Differences(o: Ownership, readings: seq<Reading>): seq<Difference> {
    if readings == [] then []
    else Differences(o, readings[..|readings| - 1]) + Compared(o, readings[|readings| - 1])
  }

  function StateOf(state: map<string, string>, field: string): string {
    if field in state then state[field] else ""
  }

  function StateReading(want: DesiredItem, got: ObservedItem, field: string): Reading {
    var approved, observed := StateOf(want.state, field), StateOf(got.state, field);
    if field == "kubernetesVersion" then Reading(field, Text(MinorLine(approved)), Text(MinorLine(observed)))
    else Reading(field, Text(approved), Text(observed))
  }

  function StateReadings(want: DesiredItem, got: ObservedItem, fields: seq<string>): (r: seq<Reading>)
    ensures |r| == |fields| && forall i | 0 <= i < |r| :: r[i] == StateReading(want, got, fields[i])
  {
    seq(|fields|, i requires 0 <= i < |fields| => StateReading(want, got, fields[i]))
  }

  /** One list per limits type; none when the two sides are of different types. */
  function LimitReadings(want: Limits, got: Limits): seq<Reading> {
    match (want, got)
    case (AppLimits(r, c, m), AppLimits(r', c', m')) =>
      [Reading("replicas", Number(r), Number(r')), Reading("cpuLimit", Text(c), Text(c')),
       Reading("memoryMiB", Number(m), Number(m'))]
    case (KafkaLimits(p, c, r), KafkaLimits(p', c', r')) =>
      [Reading("retention", Duration(r), Duration(r')), Reading("producerBytesPerSec", Number(p), Number(p')),
       Reading("consumerBytesPerSec", Number(c), Number(c'))]
    case (PostgresLimits(c, s, _), PostgresLimits(c', s', _)) =>
      [Reading("connectionLimit", Number(c), Number(c')), Reading("statementTimeout", Duration(s), Duration(s'))]
    case (HarborLimits(e), HarborLimits(e')) => [Reading("robotExpiry", Duration(e), Duration(e'))]
    case _ => []
  }

  /** Everything compared, in order: what runs, the asset's own state, then its floor. */
  ghost function Readings(want: DesiredItem, got: ObservedItem): seq<Reading> {
    [Reading("digest", Text(want.digest), Text(got.digest)), Reading("image", Text(want.image), Text(got.image)),
     Reading("runtime", Text(want.runtime), Text(got.runtime))]
    + StateReadings(want, got, InOrder(want.state.Keys))
    + LimitReadings(want.limits, got.limits)
  }

  ghost function Differs(o: Ownership, want: DesiredItem, got: ObservedItem): seq<Difference> {
    Differences(o, Readings(want, got))
  }

  method CompareAll(o: Ownership, readings: seq<Reading>) returns (differences: seq<Difference>)
    ensures differences == Differences(o, readings)
  {
    differences := [];
    for i := 0 to |readings|
      invariant differences == Differences(o, readings[..i])
    {
      assert readings[..i + 1][..i] == readings[..i];
      var r := readings[i];
      if r.approved != Text("") && r.approved != r.observed {
        var observed := if r.observed == Text("") then ABSENT else r.observed;
        var governed := r.field in o.governed;
        if governed || r.field in o.watched {
          differences := differences + [Difference(r.field, r.approved, observed, governed)];
        }
      }
    }
    assert readings[..|readings|] == readings;
  }

  method FindDifferences(o: Ownership, want: DesiredItem, got: ObservedItem) returns (differences: seq<Difference>)
    ensures differences == Differs(o, want, got)
  {
    var fields := SortedKeys(want.state.Keys);
    var readings :=
      [Reading("digest", Text(want.digest), Text(got.digest)), Reading("image", Text(want.image), Text(got.image)),
       Reading("runtime", Text(want.runtime), Text(got.runtime))]
      + StateReadings(want, got, fields) + LimitReadings(want.limits, got.limits);
    differences := CompareAll(o, readings);
  }

  /** A field is reported exactly when something was approved for it, reality differs and
      somebody declared an interest; a value stripped away is a difference like any other. */
  lemma {:induction false} ReportedIffItMatters(o: Ownership, readings: seq<Reading>, d: Difference)
    ensures d in Differences(o, readings) <==>
            exists i | 0 <= i < |readings| ::
              var r := readings[i];
              && r.approved != Text("") && r.approved != r.observed
              && (r.field in o.governed || r.field in o.watched)
              && d == Difference(r.field, r.approved, if r.observed == Text("") then ABSENT else r.observed,
                                 r.field in o.governed)
  {
    if readings != [] {
      var n := |readings| - 1;
      ReportedIffItMatters(o, readings[..n], d);
      assert readings == readings[..n] + [readings[n]];
      assert d in Compared(o, readings[n]) <==> Compared(o, readings[n]) == [d];
    }
  }

  // ---------------------------------------------------------------------------------------
  // What no difference means
  // ---------------------------------------------------------------------------------------

  /** Reality holds to what was approved, or nothing was, or nobody asked. */
  predicate Kept(o: Ownership, field: string, approved: Value, observed: Value) {
    || approved == Text("") || approved == observed
    || (field !in o.governed && field !in o.watched)
  }

  predicate StateKept(o: Ownership, want: DesiredItem, got: ObservedItem, field: string) {
    var approved, observed := StateOf(want.state, field), StateOf(got.state, field);
    if field == "kubernetesVersion" then Kept(o, field, Text(MinorLine(approved)), Text(MinorLine(observed)))
    else Kept(o, field, Text(approved), Text(observed))
  }

  predicate LimitsKept(o: Ownership, want: Limits, got: Limits) {
    match (want, got)
    case (AppLimits(r, c, m), AppLimits(r', c', m')) =>
      && Kept(o, "replicas", Number(r), Number(r')) && Kept(o, "cpuLimit", Text(c), Text(c'))
      && Kept(o, "memoryMiB", Number(m), Number(m'))
    case (KafkaLimits(p, c, r), KafkaLimits(p', c', r')) =>
      && Kept(o, "producerBytesPerSec", Number(p), Number(p')) && Kept(o, "consumerBytesPerSec", Number(c), Number(c'))
      && Kept(o, "retention", Duration(r), Duration(r'))
    case (PostgresLimits(c, s, _), PostgresLimits(c', s', _)) =>
      Kept(o, "connectionLimit", Number(c), Number(c')) && Kept(o, "statementTimeout", Duration(s), Duration(s'))
    case (HarborLimits(e), HarborLimits(e')) => Kept(o, "robotExpiry", Duration(e), Duration(e'))
    case _ => true
  }

  /** An item without a difference is one that runs what was approved, in the state and within
      the limits that were; and the other way round. */
  lemma NoDifferenceMeansAsApproved(o: Ownership, want: DesiredItem, got: ObservedItem)
    ensures Differs(o, want, got) == [] <==>
            && Kept(o, "digest", Text(want.digest), Text(got.digest)) && Kept(o, "image", Text(want.image), Text(got.image))
            && Kept(o, "runtime", Text(want.runtime), Text(got.runtime))
            && (forall field | field in want.state :: StateKept(o, want, got, field))
            && LimitsKept(o, want.limits, got.limits)
  {
    var own := [Reading("digest", Text(want.digest), Text(got.digest)), Reading("image", Text(want.image), Text(got.image)),
                Reading("runtime", Text(want.runtime), Text(got.runtime))];
    var state := StateReadings(want, got, InOrder(want.state.Keys));
    var limits := LimitReadings(want.limits, got.limits);
    NothingReported(o, own + state + limits);
    AllKeptInParts(o, own + state, limits);
    AllKeptInParts(o, own, state);
    OwnReadingsKept(o, own[0], own[1], own[2]);
    StateReadingsKept(o, want, got);
    LimitReadingsKept(o, want.limits, got.limits);
  }

  predicate AllKept(o: Ownership, readings: seq<Reading>) {
    forall i | 0 <= i < |readings| :: Kept(o, readings[i].field, readings[i].approved, readings[i].observed)
  }

  lemma {:induction false} NothingReported(o: Ownership, readings: seq<Reading>)
    ensures Differences(o, readings) == [] <==> AllKept(o, readings)
  {
    if readings != [] {
      var n := |readings| - 1;
      NothingReported(o, readings[..n]);
      assert readings == readings[..n] + [readings[n]];
      AllKeptInParts(o, readings[..n], [readings[n]]);
      assert Compared(o, readings[n]) == [] <==> AllKept(o, [readings[n]]);
    }
  }

  lemma AllKeptInParts(o: Ownership, one: seq<Reading>, two: seq<Reading>)
    ensures AllKept(o, one + two) <==> AllKept(o, one) && AllKept(o, two)
  {
    if AllKept(o, one + two) {
      assert forall i | 0 <= i < |one| :: (one + two)[i] == one[i];
      forall i | 0 <= i < |two| ensures Kept(o, two[i].field, two[i].approved, two[i].observed) {
        assert (one + two)[|one| + i] == two[i];
      }
    }
  }

  lemma OwnReadingsKept(o: Ownership, a: Reading, b: Reading, c: Reading)
    ensures AllKept(o, [a, b, c]) <==>
            Kept(o, a.field, a.approved, a.observed) && Kept(o, b.field, b.approved, b.observed) && Kept(o, c.field, c.approved, c.observed)
  {
    var all := [a, b, c];
    assert all[0] == a && all[1] == b && all[2] == c;
  }

  lemma StateReadingsKept(o: Ownership, want: DesiredItem, got: ObservedItem)
    ensures AllKept(o, StateReadings(want, got, InOrder(want.state.Keys))) <==>
            forall field | field in want.state :: StateKept(o, want, got, field)
  {
    var fields := InOrder(want.state.Keys);
    var readings := StateReadings(want, got, fields);
    if AllKept(o, readings) {
      forall field | field in want.state ensures StateKept(o, want, got, field) {
        var i :| 0 <= i < |fields| && fields[i] == field;
        assert Kept(o, readings[i].field, readings[i].approved, readings[i].observed);
      }
    } else {
      var i :| 0 <= i < |readings| && !Kept(o, readings[i].field, readings[i].approved, readings[i].observed);
      assert fields[i] in want.state && !StateKept(o, want, got, fields[i]);
    }
  }

  lemma LimitReadingsKept(o: Ownership, want: Limits, got: Limits)
    ensures AllKept(o, LimitReadings(want, got)) <==> LimitsKept(o, want, got)
  {
    var readings := LimitReadings(want, got);
    if |readings| == 3 {
      assert readings == [readings[0], readings[1], readings[2]];
      OwnReadingsKept(o, readings[0], readings[1], readings[2]);
    } else if |readings| == 2 {
      assert readings == [readings[0]] + [readings[1]];
      AllKeptInParts(o, [readings[0]], [readings[1]]);
      OneReadingKept(o, readings[0]);
      OneReadingKept(o, readings[1]);
    } else if |readings| == 1 {
      assert readings == [readings[0]];
      OneReadingKept(o, readings[0]);
    }
  }

  lemma OneReadingKept(o: Ownership, a: Reading)
    ensures AllKept(o, [a]) <==> Kept(o, a.field, a.approved, a.observed)
  {
    assert [a][0] == a;
  }

  // ---------------------------------------------------------------------------------------
  // Comparing two states
  // ---------------------------------------------------------------------------------------

  /** Observed items by identity; of two with the same one, the later is seen. */
  function Index(items: seq<ObservedItem>): map<string, ObservedItem> {
    if items == [] then map[]
    else
      var n := |items| - 1;
      Index(items[..n])[items[n].Key() := items[n]]
  }

  ghost function DriftOf(o: Ownership, want: DesiredItem, actual: map<string, ObservedItem>): seq<Drift> {
    if want.Key() !in actual then [Absent(want)]
    else
      var got := actual[want.Key()];
      if Differs(o, want, got) == [] then [] else [Changed(want, got, Differs(o, want, got))]
  }

  ghost function WantedDrifts(o: Ownership, desired: seq<DesiredItem>, actual: map<string, ObservedItem>): seq<Drift> {
    if desired == [] then []
    else
      var n := |desired| - 1;
      WantedDrifts(o, desired[..n], actual) + DriftOf(o, desired[n], actual)
  }

  function Keys(desired: seq<DesiredItem>): set<string> {
    if desired == [] then {}
    else Keys(desired[..|desired| - 1]) + {desired[|desired| - 1].Key()}
  }

  function UnexpectedDrifts(observed: seq<ObservedItem>, wanted: set<string>): seq<Drift> {
    if observed == [] then []
    else
      var n := |observed| - 1;
      var front := UnexpectedDrifts(observed[..n], wanted);
      if observed[n].Key() in wanted then front else front + [Unexpected(observed[n])]
  }

  /** A stable sort by key: each drift goes after every one it does not precede. */
  function SortedDrifts(drifts: seq<Drift>): seq<Drift> {
    if drifts == [] then []
    else
      var n := |drifts| - 1;
      Inserted(SortedDrifts(drifts[..n]), drifts[n])
  }

  function Inserted(sorted: seq<Drift>, d: Drift): seq<Drift> {
    if sorted == [] || !Less(d.Key(), sorted[|sorted| - 1].Key()) then sorted + [d]
    else Inserted(sorted[..|sorted| - 1], d) + [sorted[|sorted| - 1]]
  }

  ghost function Diff(o: Ownership, desired: seq<DesiredItem>, observed: seq<ObservedItem>): seq<Drift> {
    SortedDrifts(WantedDrifts(o, desired, Index(observed)) + UnexpectedDrifts(observed, Keys(desired)))
  }

  method IndexItems(items: seq<ObservedItem>) returns (byKey: map<string, ObservedItem>)
    ensures byKey == Index(items)
  {
    byKey := map[];
    for i := 0 to |items|
      invariant byKey == Index(items[..i])
    {
      assert items[..i + 1][..i] == items[..i];
      byKey := byKey[items[i].Key() := items[i]];
    }
    assert items[..|items|] == items;
  }

  /** What one approved item has drifted to, if anything. */
  method JudgeItem(o: Ownership, want: DesiredItem, actual: map<string, ObservedItem>) returns (drifts: seq<Drift>)
    ensures drifts == DriftOf(o, want, actual)
  {
    if want.Key() !in actual {
      return [Absent(want)];
    }
    var got := actual[want.Key()];
    var differences := FindDifferences(o, want, got);
    drifts := if |differences| > 0 then [Changed(want, got, differences)] else [];
  }

  method FindWanted(o: Ownership, desired: seq<DesiredItem>, actual: map<string, ObservedItem>)
    returns (drifts: seq<Drift>, seen: set<string>)
    ensures drifts == WantedDrifts(o, desired, actual) && seen == Keys(desired)
  {
    drifts, seen := [], {};
    ghost var done: seq<DesiredItem> := [];
    for i := 0 to |desired|
      invariant done == desired[..i] && seen == Keys(done) && drifts == WantedDrifts(o, done, actual)
    {
      OneKeyMore(done, desired[i]);
      WantedOneMore(o, done, desired[i], actual);
      seen := seen + {desired[i].Key()};
      var more := JudgeItem(o, desired[i], actual);
      drifts := drifts + more;
      done := done + [desired[i]];
    }
    assert done == desired;
  }

  method DiffOwned(o: Ownership, desired: seq<DesiredItem>, observed: seq<ObservedItem>) returns (drifts: seq<Drift>)
    ensures drifts == Diff(o, desired, observed)
  {
    var actual := IndexItems(observed);
    var wanted, seen := FindWanted(o, desired, actual);
    drifts := wanted;
    for i := 0 to |observed|
      invariant drifts == wanted + UnexpectedDrifts(observed[..i], seen)
    {
      assert observed[..i + 1][..i] == observed[..i];
      if observed[i].Key() !in seen {
        drifts := drifts + [Unexpected(observed[i])];
      }
    }
    assert observed[..|observed|] == observed;
    drifts := SortedDrifts(drifts);
  }

  lemma {:induction false} WantedOneMore(o: Ownership, desired: seq<DesiredItem>, want: DesiredItem,
                                         actual: map<string, ObservedItem>)
    ensures WantedDrifts(o, desired + [want], actual) == WantedDrifts(o, desired, actual) + DriftOf(o, want, actual)
  {
    assert (desired + [want])[..|desired|] == desired;
  }

  predicate HasKey(desired: seq<DesiredItem>, key: string) {
    exists i | 0 <= i < |desired| :: desired[i].Key() == key
  }

  lemma {:induction false} KeysAreKeys(desired: seq<DesiredItem>, key: string)
    ensures key in Keys(desired) <==> HasKey(desired, key)
  {
    if desired != [] {
      var n := |desired| - 1;
      KeysAreKeys(desired[..n], key);
      if HasKey(desired[..n], key) {
        var i :| 0 <= i < n && desired[..n][i].Key() == key;
        assert desired[i].Key() == key;
      }
      if HasKey(desired, key) {
        var i :| 0 <= i < |desired| && desired[i].Key() == key;
        assert i < n ==> desired[..n][i].Key() == key;
      }
    }
  }

  lemma {:induction false} OneKeyMore(desired: seq<DesiredItem>, want: DesiredItem)
    ensures Keys(desired + [want]) == Keys(desired) + {want.Key()}
  {
    assert (desired + [want])[..|desired|] == desired;
  }
}
