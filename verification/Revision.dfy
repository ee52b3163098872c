/**
 Content-derived revisions (mantlekeep-control/grants/loader.go: RevisionOf).

 The digest is a parameter: any function from bytes to text. What is proved here is that the
 bytes fed to it determine the list of documents, so that a digest without collisions tells
 any two lists apart.
 */
module Revision {

  newtype Byte = b: int | 0 <= b < 256

  type Bytes = seq<Byte>

  type Digest = Bytes -> string

  datatype Unframed = Contents(documents: seq<Bytes>) | Malformed

  const COLON: Byte := 58
  const ZERO: Byte := 48

  /** A length in decimal, as `%d` prints it. */
  function Decimal(n: nat): Bytes {
    if n < 10 then [ZERO + n as Byte] else Decimal(n / 10) + [ZERO + (n % 10) as Byte]
  }

  predicate IsDigit(b: Byte) {
    ZERO <= b < ZERO + 10
  }

  function Number(digits: Bytes): nat
    requires forall b | b in digits :: IsDigit(b)
  {
    if digits == [] then 0
    else
      var n := |digits| - 1;
      assert forall b | b in digits[..n] :: b in digits;
      assert digits[n] in digits && IsDigit(digits[n]);
      10 * Number(digits[..n]) + (digits[n] as nat - ZERO as nat)
  }

  function Frame(document: Bytes): Bytes {
    Decimal(|document|) + [COLON] + document
  }

  function Framed(documents: seq<Bytes>): Bytes {
    if documents == [] then [] else Frame(documents[0]) + Framed(documents[1..])
  }

  /** How far the digits at the front reach. */
  function DigitsAtFront(bytes: Bytes): (k: nat)
    ensures k <= |bytes|
    ensures forall i | 0 <= i < k :: IsDigit(bytes[i])
    ensures k < |bytes| ==> !IsDigit(bytes[k])
  {
    if bytes == [] || !IsDigit(bytes[0]) then 0 else 1 + DigitsAtFront(bytes[1..])
  }

  /** Reading the frames back. */
  function Unframe(bytes: Bytes): Unframed
    decreases |bytes|
  {
    if bytes == [] then Contents([])
    else
      var k := DigitsAtFront(bytes);
      if k == |bytes| || bytes[k] != COLON then Malformed
      else
        var n := Number(bytes[..k]);
        if k + 1 + n > |bytes| then Malformed
        else
          match Unframe(bytes[k + 1 + n..])
          case Malformed => Malformed
          case Contents(rest) => Contents([bytes[k + 1..k + 1 + n]] + rest)
  }

  lemma {:induction false} DecimalReadsBack(n: nat)
    ensures Decimal(n) != [] && forall b | b in Decimal(n) :: IsDigit(b)
    ensures Number(Decimal(n)) == n
  {
    if n >= 10 {
      DecimalReadsBack(n / 10);
      assert Decimal(n)[..|Decimal(n)| - 1] == Decimal(n / 10);
    } else {
      assert Decimal(n)[..0] == [];
    }
  }

  lemma {:induction false} DigitsThenColon(digits: Bytes, rest: Bytes)
    requires forall b | b in digits :: IsDigit(b)
    ensures DigitsAtFront(digits + [COLON] + rest) == |digits|
  {
    if digits != [] {
      assert digits[0] in digits;
      assert (digits + [COLON] + rest)[1..] == digits[1..] + [COLON] + rest;
      assert forall b | b in digits[1..] :: b in digits;
      DigitsThenColon(digits[1..], rest);
    }
  }

  /** The first frame of a stream comes apart into its document and what follows. */
  lemma FrameComesApart(d: Bytes, rest: Bytes)
    ensures var bytes := Frame(d) + rest;
            var k := DigitsAtFront(bytes);
            && k < |bytes| && bytes[k] == COLON && Number(bytes[..k]) == |d|
            && k + 1 + |d| <= |bytes| && bytes[k + 1..k + 1 + |d|] == d && bytes[k + 1 + |d|..] == rest
  {
    var digits := Decimal(|d|);
    var bytes := Frame(d) + rest;
    DecimalReadsBack(|d|);
    DigitsThenColon(digits, d + rest);
    assert bytes == digits + [COLON] + (d + rest);
    assert bytes[..|digits|] == digits;
    assert bytes[|digits| + 1..] == d + rest;
  }

  /** Framing loses nothing. */
  lemma {:induction false} FramesReadBack(documents: seq<Bytes>)
    ensures Unframe(Framed(documents)) == Contents(documents)
  {
    if documents != [] {
      FrameComesApart(documents[0], Framed(documents[1..]));
      FramesReadBack(documents[1..]);
      assert documents == [documents[0]] + documents[1..];
    }
  }

  /** No two lists of documents are fed to the digest as the same bytes. */
  lemma {:induction false} FramingIsInjective(one: seq<Bytes>, two: seq<Bytes>)
    ensures Framed(one) == Framed(two) <==> one == two
  {
    FramesReadBack(one);
    FramesReadBack(two);
  }

  ghost predicate CollisionFree(digest: Digest) {
    forall a, b :: digest(a) == digest(b) ==> a == b
  }

  function RevisionOf(digest: Digest, documents: seq<Bytes>): string {
    digest(Framed(documents))
  }

  lemma RevisionNamesTheDocuments(digest: Digest, one: seq<Bytes>, two: seq<Bytes>)
    requires CollisionFree(digest)
    ensures RevisionOf(digest, one) == RevisionOf(digest, two) <==> one == two
  {
    FramingIsInjective(one, two);
  }

  lemma {:induction false} FramedLast(documents: seq<Bytes>, last: Bytes)
    ensures Framed(documents + [last]) == Framed(documents) + Frame(last)
  {
    if documents == [] {
      assert Framed([last]) == Frame(last) + Framed([]);
    } else {
      FramedLast(documents[1..], last);
      assert (documents + [last])[1..] == documents[1..] + [last];
    }
  }

  /** A running hash: what it has been given so far. */
  class Hash {
    var written: Bytes
    const digest: Digest

    constructor (digest: Digest)
      ensures written == [] && this.digest == digest
    {
      written := [];
      this.digest := digest;
    }

    method Write(bytes: Bytes)
      modifies this
      ensures written == old(written) + bytes
    {
      written := written + bytes;
    }

    function Sum(): string
      reads this
    {
      digest(written)
    }
  }

  method ComputeRevision(digest: Digest, documents: seq<Bytes>) returns (revision: string)
    ensures revision == RevisionOf(digest, documents)
  {
    var hash := new Hash(digest);
    for i := 0 to |documents|
      invariant hash.digest == digest && fresh(hash)
      invariant hash.written == Framed(documents[..i])
    {
      hash.Write(Decimal(|documents[i]|) + [COLON]);
      hash.Write(documents[i]);
      FramedLast(documents[..i], documents[i]);
      assert documents[..i + 1] == documents[..i] + [documents[i]];
    }
    assert documents[..|documents|] == documents;
    revision := hash.Sum();
  }
}
