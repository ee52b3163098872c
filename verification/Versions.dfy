/**
 Pinned Kubernetes versions (mantlekeep-estate/fleet.go: the version shape, minorLine,
 minorRank): `1.29` or `1.29.4`. Integers are 64 bits wide.
 */
module Versions {

  datatype Parsed = Integer(n: int) | NotAnInteger

  const MAX_INT: int := 0x7FFF_FFFF_FFFF_FFFF
  const WIDTH: int := 0x1_0000_0000_0000_0000

  predicate IsDigit(c: char) {
    '0' <= c <= '9'
  }

  predicate AllDigits(s: string) {
    s != [] && forall i | 0 <= i < |s| :: IsDigit(s[i])
  }

  function DigitsValue(s: string): nat
    requires forall i | 0 <= i < |s| :: IsDigit(s[i])
  {
    if s == [] then 0
    else
      var last := s[|s| - 1];
      assert IsDigit(last);
      10 * DigitsValue(s[..|s| - 1]) + (last as int - '0' as int)
  }

  /** Text to integer, refusing what does not fit. */
  function Atoi(s: string): Parsed {
    var negative := s != [] && s[0] == '-';
    var digits := if s != [] && (s[0] == '-' || s[0] == '+') then s[1..] else s;
    if !AllDigits(digits) then NotAnInteger
    else
      var size: int := DigitsValue(digits);
      var n := if negative then 0 - size else size;
      if -MAX_INT - 1 <= n <= MAX_INT then Integer(n) else NotAnInteger
  }

  function DecimalText(n: nat): string {
    if n < 10 then [('0' as int + n) as char] else DecimalText(n / 10) + [('0' as int + n % 10) as char]
  }

  function Itoa(n: int): string {
    if n < 0 then "-" + DecimalText(-n) else DecimalText(n)
  }

  /** What 64 bits keep of a sum or product. */
  function Wrapped(n: int): int {
    (n + MAX_INT + 1) % WIDTH - MAX_INT - 1
  }

  /** Where the first dot stands; the length when there is none. */
  function DotAt(s: string): (i: nat)
    ensures i <= |s|
    ensures i < |s| ==> s[i] == '.'
    ensures forall j | 0 <= j < i :: s[j] != '.'
  {
    if s == [] || s[0] == '.' then 0 else 1 + DotAt(s[1..])
  }

  /** 1.29.4 reduced to 1.29; text without a dot is left as it is. */
  function MinorLine(version: string): string {
    var i := DotAt(version);
    if i == |version| then version
    else version[..i] + "." + version[i + 1..][..DotAt(version[i + 1..])]
  }

  function MinorRank(version: string): int {
    var line := MinorLine(version);
    var i := DotAt(line);
    if i == |line| then -1
    else RankOf(Atoi(line[..i]), Atoi(line[i + 1..]))
  }

  function RankOf(major: Parsed, minor: Parsed): int {
    if major.Integer? && minor.Integer? then Wrapped(Wrapped(major.n * 1000) + minor.n) else -1
  }

  function Dots(s: string): nat {
    if s == [] then 0 else (if s[0] == '.' then 1 else 0) + Dots(s[1..])
  }

  /** major.minor, or major.minor.patch, each in digits. */
  predicate IsVersion(version: string) {
    var i := DotAt(version);
    && i < |version| && AllDigits(version[..i])
    && var rest := version[i + 1..];
       var j := DotAt(rest);
       AllDigits(rest[..j]) && (j == |rest| || AllDigits(rest[j + 1..]))
  }

  function Major(version: string): nat
    requires IsVersion(version)
  {
    DigitsValue(version[..DotAt(version)])
  }

  function Minor(version: string): nat
    requires IsVersion(version)
  {
    var rest := version[DotAt(version) + 1..];
    DigitsValue(rest[..DotAt(rest)])
  }

  // ---------------------------------------------------------------------------------------
  // Ordering by rank
  // ---------------------------------------------------------------------------------------

  /** Not an earlier minor line. */
  predicate NotBefore(a: string, b: string)
    requires IsVersion(a) && IsVersion(b)
  {
    Major(a) > Major(b) || (Major(a) == Major(b) && Minor(a) >= Minor(b))
  }

  /** The rank a version would have, were integers as wide as need be. */
  function Sum(version: string): nat
    requires IsVersion(version)
  {
    Major(version) * 1000 + Minor(version)
  }

  /** Small enough for the rank to be computed without overflow. */
  predicate Fits(version: string)
    requires IsVersion(version)
  {
    Sum(version) <= MAX_INT
  }

  /** A part is no integer at all. */
  predicate TooLong(version: string)
    requires IsVersion(version)
  {
    Major(version) > MAX_INT || Minor(version) > MAX_INT
  }

  lemma {:induction false} DotAtOfPart(part: string, rest: string)
    requires forall i | 0 <= i < |part| :: part[i] != '.'
    ensures DotAt(part + "." + rest) == |part| && DotAt(part) == |part|
  {
    if part != [] {
      DotAtOfPart(part[1..], rest);
      assert (part + "." + rest)[1..] == part[1..] + "." + rest;
    }
  }

  lemma LineOfVersion(version: string)
    requires IsVersion(version)
    ensures var major, rest := version[..DotAt(version)], version[DotAt(version) + 1..];
            var minor := rest[..DotAt(rest)];
            && MinorLine(version) == major + "." + minor && DotAt(MinorLine(version)) == |major|
            && MinorLine(version)[..|major|] == major && MinorLine(version)[|major| + 1..] == minor
  {
    var major, rest := version[..DotAt(version)], version[DotAt(version) + 1..];
    DotAtOfPart(major, rest[..DotAt(rest)]);
  }

  lemma {:induction false} DigitsParse(digits: string)
    requires AllDigits(digits)
    ensures Atoi(digits) == if DigitsValue(digits) <= MAX_INT then Integer(DigitsValue(digits)) else NotAnInteger
  {
    assert IsDigit(digits[0]);
  }

  lemma RankOfVersion(version: string)
    requires IsVersion(version)
    ensures var rest := version[DotAt(version) + 1..];
            MinorRank(version) == RankOf(Atoi(version[..DotAt(version)]), Atoi(rest[..DotAt(rest)]))
  {
    LineOfVersion(version);
  }

  /** The rank of every version: none when a part is too long, and else what 64 bits keep. */
  lemma RankOfAny(version: string)
    requires IsVersion(version)
    ensures MinorRank(version) == if TooLong(version) then -1 else Wrapped(Sum(version))
  {
    RankOfVersion(version);
    var major, rest := version[..DotAt(version)], version[DotAt(version) + 1..];
    DigitsParse(major);
    DigitsParse(rest[..DotAt(rest)]);
    WrappedTwice(Major(version) * 1000, Minor(version));
  }

  lemma WrappedTwice(n: int, m: int)
    ensures Wrapped(Wrapped(n) + m) == Wrapped(n + m)
  {
    var k := (n + MAX_INT + 1) / WIDTH;
    assert Wrapped(n) == n - WIDTH * k;
    SameRemainder(n + m + MAX_INT + 1, k);
  }

  lemma SameRemainder(n: int, k: int)
    ensures (n - WIDTH * k) % WIDTH == n % WIDTH
  {
    var q, r := n / WIDTH, n % WIDTH;
    assert n - WIDTH * k == WIDTH * (q - k) + r;
  }

  lemma RankOfFitting(version: string)
    requires IsVersion(version) && Fits(version)
    ensures MinorRank(version) == Sum(version)
  {
    RankOfAny(version);
    WrapIsNothingInside(Sum(version));
  }

  lemma WrapIsNothingInside(n: int)
    requires -MAX_INT - 1 <= n <= MAX_INT
    ensures Wrapped(n) == n
  {
  }

  /** Between minors below a thousand the rank is the order of minor lines. */
  lemma RankIsTheOrder(a: string, b: string)
    requires IsVersion(a) && IsVersion(b) && Fits(a) && Fits(b) && Minor(a) < 1000 && Minor(b) < 1000
    ensures MinorRank(a) >= MinorRank(b) <==> NotBefore(a, b)
  {
    RankOfFitting(a);
    RankOfFitting(b);
  }

  lemma {:induction false} BareMinor(major: string, minor: string)
    requires AllDigits(major) && AllDigits(minor)
    ensures var version := major + "." + minor;
            && IsVersion(version) && Major(version) == DigitsValue(major) && Minor(version) == DigitsValue(minor)
            && MinorRank(version) == RankOf(Atoi(major), Atoi(minor))
  {
    var version := major + "." + minor;
    DotAtOfPart(major, minor);
    DotAtOfPart(minor, "");
    assert version[..|major|] == major && version[|major| + 1..] == minor && minor[..|minor|] == minor;
    RankOfVersion(version);
  }

  lemma OneDigit(c: char)
    requires IsDigit(c)
    ensures DigitsValue([c]) == c as int - '0' as int
  {
    assert [c][..0] == [];
  }

  lemma {:induction false} OneMoreDigit(digits: string, c: char)
    requires AllDigits(digits) && IsDigit(c)
    ensures AllDigits(digits + [c]) && DigitsValue(digits + [c]) == 10 * DigitsValue(digits) + (c as int - '0' as int)
  {
    assert (digits + [c])[..|digits|] == digits;
  }

  lemma {:induction false} DecimalTextReadsBack(n: nat)
    ensures AllDigits(DecimalText(n)) && DigitsValue(DecimalText(n)) == n
  {
    if n < 10 {
      OneDigit(('0' as int + n) as char);
    } else {
      DecimalTextReadsBack(n / 10);
      OneMoreDigit(DecimalText(n / 10), ('0' as int + n % 10) as char);
    }
  }

  /** Every pair of numbers is a version's. */
  lemma SomeVersion(major: nat, minor: nat) returns (version: string)
    ensures IsVersion(version) && Major(version) == major && Minor(version) == minor
  {
    DecimalTextReadsBack(major);
    DecimalTextReadsBack(minor);
    version := DecimalText(major) + "." + DecimalText(minor);
    BareMinor(DecimalText(major), DecimalText(minor));
  }

  /** A thousand minors are ranked as one major: the line that is before passes for the same. */
  lemma AThousandMinorsLookLikeAMajor(a: string, b: string)
    requires IsVersion(a) && IsVersion(b) && Fits(b)
    requires Major(a) + 1 == Major(b) && Minor(a) == Minor(b) + 1000
    ensures Fits(a) && MinorRank(a) == MinorRank(b) && !NotBefore(a, b)
  {
    RankOfFitting(a);
    RankOfFitting(b);
  }

  /** Whatever fits and comes after a version outranks it. */
  ghost predicate OutrankedByAllAfter(to: string)
    requires IsVersion(to)
  {
    forall from | IsVersion(from) && Fits(from) && !NotBefore(to, from) :: MinorRank(to) < MinorRank(from)
  }

  /** The rank shows every step back to a version exactly when that version's own minor is below
      a thousand; the minor it is left from does not matter. */
  lemma StepsBackShowIffMinorBelowAThousand(to: string)
    requires IsVersion(to) && Fits(to)
    ensures OutrankedByAllAfter(to) <==> Minor(to) < 1000
  {
    RankOfFitting(to);
    if Minor(to) < 1000 {
      forall from | IsVersion(from) && Fits(from) && !NotBefore(to, from)
        ensures MinorRank(to) < MinorRank(from)
      {
        RankOfFitting(from);
      }
    } else {
      var from := SomeVersion(Major(to) + 1, Minor(to) - 1000);
      AThousandMinorsLookLikeAMajor(to, from);
    }
  }

  /** Against a version that fits: any other passes for no later exactly when a part of it is too
      long, or what 64 bits keep of its rank is no more. */
  lemma PassesForNoLaterIff(to: string, from: string)
    requires IsVersion(to) && IsVersion(from) && Fits(to)
    ensures MinorRank(to) >= MinorRank(from) <==> TooLong(from) || Wrapped(Sum(from)) <= Sum(to)
  {
    RankOfFitting(to);
    RankOfAny(from);
  }

  /** So a step back to a minor below a thousand passes only from a version that overflows. */
  lemma StepsBackPassOnlyFromOverflow(to: string, from: string)
    requires IsVersion(to) && IsVersion(from) && Fits(to) && Minor(to) < 1000 && !NotBefore(to, from)
    ensures MinorRank(to) >= MinorRank(from) <==> !Fits(from) && (TooLong(from) || Wrapped(Sum(from)) <= Sum(to))
  {
    PassesForNoLaterIff(to, from);
    if Fits(from) {
      StepsBackShowIffMinorBelowAThousand(to);
    }
  }

  /** From one that overflows once, or is too long, it always does. */
  lemma OverflowRanksBelowAll(version: string, fitting: string)
    requires IsVersion(version) && (TooLong(version) || MAX_INT < Sum(version) < WIDTH)
    requires IsVersion(fitting) && Fits(fitting)
    ensures MinorRank(version) < 0 <= MinorRank(fitting)
  {
    RankOfFitting(fitting);
    RankOfAny(version);
    if !TooLong(version) {
      WrapsBelowZero(Sum(version));
    }
  }

  lemma WrapsBelowZero(n: int)
    requires MAX_INT < n < WIDTH
    ensures Wrapped(n) == n - WIDTH < 0
  {
    SameRemainder(n + MAX_INT + 1, 1);
  }

  /** And there is one such for every target. */
  lemma AStepBackFromTooLongNeverShows(to: string) returns (from: string)
    requires IsVersion(to) && Fits(to)
    ensures IsVersion(from) && !NotBefore(to, from) && MinorRank(from) < MinorRank(to)
  {
    from := SomeVersion(MAX_INT + 1, 0);
    OverflowRanksBelowAll(from, to);
  }

  lemma AThousand()
    ensures AllDigits("1000") && DigitsValue("1000") == 1000
  {
    OneDigit('1');
    OneMoreDigit("1", '0');
    OneMoreDigit("10", '0');
    OneMoreDigit("100", '0');
    assert "1" + "0" == "10" && "10" + "0" == "100" && "100" + "0" == "1000";
  }

  /** As 1.1000 does against 2.0. */
  lemma OnePointAThousand()
    ensures var a, b := "1" + "." + "1000", "2" + "." + "0";
            IsVersion(a) && IsVersion(b) && MinorRank(a) == MinorRank(b) && !NotBefore(a, b)
  {
    AThousand();
    OneDigit('0');
    OneDigit('1');
    OneDigit('2');
    BareMinor("1", "1000");
    BareMinor("2", "0");
    AThousandMinorsLookLikeAMajor("1" + "." + "1000", "2" + "." + "0");
  }
}
