/**
 Text order and sorting, as the standard library's `sort` gives them to the source.
 */
module Ordering {

  /** Lexicographic order on text. */
  predicate Less(a: string, b: string) {
    && b != []
    && (a == [] || a[0] < b[0] || (a[0] == b[0] && Less(a[1..], b[1..])))
  }

  lemma {:induction false} LessIsStrict(a: string, b: string)
    ensures !(Less(a, b) && Less(b, a))
    ensures Less(a, b) ==> a != b
  {
    if a != [] && b != [] {
      LessIsStrict(a[1..], b[1..]);
    }
  }

  lemma {:induction false} LessIsTotal(a: string, b: string)
    ensures Less(a, b) || a == b || Less(b, a)
  {
    if a != [] && b != [] && a[0] == b[0] {
      LessIsTotal(a[1..], b[1..]);
      assert a == [a[0]] + a[1..] && b == [b[0]] + b[1..];
    }
  }

  lemma {:induction false} LessIsTransitive(a: string, b: string, c: string)
    requires Less(a, b) && Less(b, c)
    ensures Less(a, c)
  {
    if a != [] && a[0] == b[0] && b[0] == c[0] {
      LessIsTransitive(a[1..], b[1..], c[1..]);
    }
  }

  /** Strictly increasing: sorted, with nothing twice. */
  predicate Increasing(keys: seq<string>) {
    forall i, j | 0 <= i < j < |keys| :: Less(keys[i], keys[j])
  }

  /** A key put where it belongs among increasing ones. */
  method Insert(keys: seq<string>, key: string) returns (r: seq<string>)
    requires Increasing(keys) && key !in keys
    ensures Increasing(r) && |r| == |keys| + 1
    ensures forall k :: k in r <==> k in keys || k == key
  {
    var i := |keys|;
    while i > 0 && Less(key, keys[i - 1])
      invariant 0 <= i <= |keys|
      invariant forall j | i <= j < |keys| :: Less(key, keys[j])
    {
      i := i - 1;
    }
    forall j | 0 <= j < i ensures Less(keys[j], key) {
      LessIsTotal(key, keys[i - 1]);
      assert keys[i - 1] in keys;
      if j < i - 1 {
        LessIsTransitive(keys[j], keys[i - 1], key);
      }
    }
    r := keys[..i] + [key] + keys[i..];
    forall k ensures k in r <==> k in keys || k == key {
      assert keys == keys[..i] + keys[i..];
    }
  }

  /** The keys of a map, collected in any order and sorted. */
  method SortedKeys(all: set<string>) returns (keys: seq<string>)
    ensures keys == InOrder(all)
    ensures Increasing(keys) && (forall k :: k in keys <==> k in all)
  {
    keys := [];
    var rest := all;
    while rest != {}
      invariant rest <= all && Increasing(keys)
      invariant forall k :: k in keys <==> k in all && k !in rest
    {
      var key :| key in rest;
      rest := rest - {key};
      keys := Insert(keys, key);
    }
    IncreasingIsUnique(keys, InOrder(all));
  }

  /** The members of a set in text order. */
  ghost function InOrder(all: set<string>): (keys: seq<string>)
    ensures Increasing(keys) && (forall k :: k in keys <==> k in all)
  {
    if all == {} then []
    else
      var least := Least(all);
      [least] + InOrder(all - {least})
  }

  ghost function Least(all: set<string>): (least: string)
    requires all != {}
    ensures least in all && forall k | k in all && k != least :: Less(least, k)
  {
    SomeLeast(all);
    var least :| least in all && forall k | k in all && k != least :: Less(least, k);
    least
  }

  lemma {:induction false} SomeLeast(all: set<string>)
    requires all != {}
    ensures exists least :: least in all && forall k | k in all && k != least :: Less(least, k)
  {
    var some :| some in all;
    if all == {some} {
      assert forall k | k in all && k != some :: Less(some, k);
    } else {
      var others := all - {some};
      assert all == others + {some};
      SomeLeast(others);
      var least :| least in others && forall k | k in others && k != least :: Less(least, k);
      LessIsTotal(some, least);
      if Less(some, least) {
        forall k | k in all && k != some ensures Less(some, k) {
          if k != least {
            LessIsTransitive(some, least, k);
          }
        }
      } else {
        assert forall k | k in all && k != least :: Less(least, k);
      }
    }
  }

  /** Increasing lists of the same keys are the same list. */
  lemma {:induction false} IncreasingIsUnique(one: seq<string>, two: seq<string>)
    requires Increasing(one) && Increasing(two)
    requires forall k :: k in one <==> k in two
    ensures one == two
  {
    if one == [] {
      EmptyOrNot(two);
    } else {
      assert one[0] in two && two != [] && two[0] in one;
      FirstIsLeast(one, two[0]);
      FirstIsLeast(two, one[0]);
      LessIsStrict(one[0], two[0]);
      assert one == [one[0]] + one[1..] && two == [two[0]] + two[1..];
      forall k ensures k in one[1..] <==> k in two[1..] {
        FirstOnlyOnce(one, k);
        FirstOnlyOnce(two, k);
      }
      IncreasingIsUnique(one[1..], two[1..]);
    }
  }

  lemma EmptyOrNot(keys: seq<string>)
    ensures keys == [] || exists k :: k in keys
  {
    if keys != [] {
      assert keys[0] in keys;
    }
  }

  lemma {:induction false} FirstIsLeast(keys: seq<string>, k: string)
    requires Increasing(keys) && k in keys
    ensures k == keys[0] || Less(keys[0], k)
  {
  }

  lemma FirstOnlyOnce(keys: seq<string>, k: string)
    requires Increasing(keys) && keys != []
    ensures k in keys[1..] <==> k in keys && k != keys[0]
  {
    assert keys == [keys[0]] + keys[1..];
    if k in keys[1..] {
      var i :| 0 <= i < |keys[1..]| && keys[1..][i] == k;
      assert Less(keys[0], keys[i + 1]);
      LessIsStrict(keys[0], keys[i + 1]);
    }
  }

  // ---------------------------------------------------------------------------------------
  // Lists that may repeat
  // ---------------------------------------------------------------------------------------

  /** In order, repetitions side by side. */
  predicate InTextOrder(s: seq<string>) {
    forall i, j | 0 <= i < j < |s| :: !Less(s[j], s[i])
  }

  /** A stable sort of text. */
  function SortedText(s: seq<string>): (r: seq<string>)
    ensures multiset(r) == multiset(s)
  {
    if s == [] then []
    else
      assert s == s[..|s| - 1] + [s[|s| - 1]];
      PutIn(SortedText(s[..|s| - 1]), s[|s| - 1])
  }

  function PutIn(sorted: seq<string>, x: string): (r: seq<string>)
    ensures multiset(r) == multiset(sorted) + multiset{x}
  {
    if sorted == [] || !Less(x, sorted[|sorted| - 1]) then sorted + [x]
    else
      assert sorted == sorted[..|sorted| - 1] + [sorted[|sorted| - 1]];
      PutIn(sorted[..|sorted| - 1], x) + [sorted[|sorted| - 1]]
  }

  lemma {:induction false} PutInKeepsOrder(sorted: seq<string>, x: string)
    requires InTextOrder(sorted)
    ensures InTextOrder(PutIn(sorted, x))
  {
    if sorted != [] {
      var n := |sorted| - 1;
      var last := sorted[n];
      if Less(x, last) {
        PutInKeepsOrder(sorted[..n], x);
        var front := PutIn(sorted[..n], x);
        forall i | 0 <= i < |front| ensures !Less(last, front[i]) {
          assert front[i] in multiset(front);
          LessIsStrict(x, last);
          if front[i] != x {
            assert front[i] in sorted[..n];
          }
        }
      } else {
        forall i | 0 <= i < |sorted| ensures !Less(x, sorted[i]) {
          if Less(x, sorted[i]) {
            LessIsTotal(sorted[i], last);
            if Less(sorted[i], last) {
              LessIsTransitive(x, sorted[i], last);
            }
          }
        }
      }
    }
  }

  lemma {:induction false} SortedTextIsInOrder(s: seq<string>)
    ensures InTextOrder(SortedText(s))
  {
    if s != [] {
      SortedTextIsInOrder(s[..|s| - 1]);
      PutInKeepsOrder(SortedText(s[..|s| - 1]), s[|s| - 1]);
    }
  }
}
