/** Writing MRCPv2 events (src/sandroid/adapters/mrcp/messages.py). */
module Mrcp {
  import opened Bytes
  import opened Text
  import Utf8

  const CRLF: bytes := [13, 10]

  datatype Header = Header(name: string, value: string)

  /** An event; its headers are a dict, in insertion order. */
  datatype Event = Event(name: string, requestId: int, state: string, headers: seq<Header>, body: bytes)

  /** What follows the event name on the start line. */
  function Fourth(e: Event): string {
    Number(e.requestId) + " " + e.state
  }

  predicate Has(headers: seq<Header>, name: string) {
    exists i :: 0 <= i < |headers| && headers[i].name == name
  }

  /** `setdefault("Content-Length", ...)` when there is a body. */
  function Merged(headers: seq<Header>, body: bytes): seq<Header> {
    if body == [] || Has(headers, "Content-Length") then headers
    else headers + [Header("Content-Length", Decimal(|body|))]
  }

  function HeaderLine(h: Header): string {
    h.name + ": " + h.value
  }

  function HeaderBlock(headers: seq<Header>): bytes {
    if headers == [] then [] else Utf8.Encode(HeaderLine(headers[0])) + CRLF + HeaderBlock(headers[1..])
  }

  /** The start line around a message length. */
  function StartLine(length: nat, third: string, fourth: string): string {
    "MRCP/2.0 " + Decimal(length) + " " + third + " " + fourth
  }

  /** The message as assembled with some length in its start line. */
  function Candidate(length: nat, third: string, fourth: string, headers: seq<Header>, body: bytes): bytes {
    Utf8.Encode(StartLine(length, third, fourth)) + CRLF + HeaderBlock(Merged(headers, body)) + CRLF + body
  }

  /** The size of a message without the digits of its length. */
  function Base(third: string, fourth: string, headers: seq<Header>, body: bytes): nat {
    9 + 1 + |Utf8.Encode(third)| + 1 + |Utf8.Encode(fourth)| + 2 + |HeaderBlock(Merged(headers, body))| + 2 + |body|
  }

  lemma {:induction false} AsciiSize(s: string)
    requires forall i | 0 <= i < |s| :: s[i] as int < 0x80
    ensures |Utf8.Encode(s)| == |s|
  {
    if s != [] {
      assert forall i | 0 <= i < |s[1..]| :: s[1..][i] == s[i + 1];
      AsciiSize(s[1..]);
    }
  }

  lemma CandidateSize(length: nat, third: string, fourth: string, headers: seq<Header>, body: bytes)
    ensures |Candidate(length, third, fourth, headers, body)| == Base(third, fourth, headers, body) + DigitCount(length)
  {
    hide Utf8.Encode, Decimal, HeaderBlock, Merged;
    Utf8.EncodeAppends("MRCP/2.0 " + Decimal(length) + " " + third + " ", fourth);
    Utf8.EncodeAppends("MRCP/2.0 " + Decimal(length) + " " + third, " ");
    Utf8.EncodeAppends("MRCP/2.0 " + Decimal(length) + " ", third);
    Utf8.EncodeAppends("MRCP/2.0 " + Decimal(length), " ");
    Utf8.EncodeAppends("MRCP/2.0 ", Decimal(length));
    AsciiSize("MRCP/2.0 ");
    AsciiSize(" ");
    AsciiSize(Decimal(length));
  }

  predicate IsLength(base: nat, length: nat) {
    length == base + DigitCount(length)
  }

  /** From one candidate to the next: what the loop relies on. */
  lemma NextCandidate(base: nat, total: nat)
    requires base < total <= base + DigitCount(total)
    requires forall length: nat | IsLength(base, length) :: total <= length
    ensures var next := base + DigitCount(total);
      next <= base + DigitCount(next) && forall length: nat | IsLength(base, length) :: next <= length
  {
    DigitsGrow(total, base + DigitCount(total));
    forall length: nat | IsLength(base, length)
      ensures base + DigitCount(total) <= length
    {
      DigitsGrow(total, length);
    }
  }

  /** The first guess is one digit too short at most by its own digits. */
  lemma ThreeAreEnough(base: nat)
    requires base >= 10
    ensures var first := base + 1;
      var second := base + DigitCount(first);
      var third := base + DigitCount(second);
      IsLength(base, first) || IsLength(base, second) || IsLength(base, third)
  {
    var first := base + 1;
    var second := base + DigitCount(first);
    FewDigits(first);
    TenTimes(first, second);
    DigitsGrow(first, second);
    TenTimes(first, second + 1);
    DigitsGrow(second, second + 1);
  }

  /**
   `_serialize`: the message is the candidate whose declared length is its size, that length is the
   least solution of length = base + digits(length), and at most three candidates are assembled.
   A token with a percent sign would be taken for a format.
   */
  method Serialize(third: string, fourth: string, headers: seq<Header>, body: bytes)
    returns (r: bytes, ghost candidates: nat)
    requires '%' !in third && '%' !in fourth
    ensures r == Candidate(|r|, third, fourth, headers, body)
    ensures forall length: nat | IsLength(Base(third, fourth, headers, body), length) :: |r| <= length
    ensures candidates <= 3
  {
    hide Candidate, Base, Merged;
    ghost var base := Base(third, fourth, headers, body);
    BaseIsBig(third, fourth, headers, body);
    ThreeAreEnough(base);
    CandidateSize(0, third, fourth, headers, body);
    var total := |Candidate(0, third, fourth, headers, body)|;
    candidates := 0;
    ghost var first := base + 1;
    ghost var second := base + DigitCount(first);
    FirstGuess(base);
    while true
      invariant candidates <= 2 && total == [first, second, base + DigitCount(second)][candidates]
      invariant base < total <= base + DigitCount(total)
      invariant forall length: nat | IsLength(base, length) :: total <= length
      invariant candidates > 0 ==> !IsLength(base, first)
      invariant candidates > 1 ==> !IsLength(base, second)
      decreases 3 - candidates
    {
      var candidate := Candidate(total, third, fourth, headers, body);
      CandidateSize(total, third, fourth, headers, body);
      candidates := candidates + 1;
      if |candidate| == total {
        return candidate, candidates;
      }
      NextCandidate(base, total);
      total := |candidate|;
    }
  }

  method SerializeEvent(e: Event) returns (r: bytes)
    requires '%' !in e.name && '%' !in e.state
    ensures r == Candidate(|r|, e.name, Fourth(e), e.headers, e.body)
    ensures forall length: nat | IsLength(Base(e.name, Fourth(e), e.headers, e.body), length) :: |r| <= length
  {
    hide Candidate, Base, Decimal;
    ghost var candidates;
    NumberIsNoFormat(e.requestId);
    r, candidates := Serialize(e.name, Fourth(e), e.headers, e.body);
  }

  lemma NumberIsNoFormat(n: int)
    ensures '%' !in Number(n)
  {
    assert !IsDigit('%');
  }

  lemma FirstGuess(base: nat)
    ensures DigitCount(0) == 1 && base + 1 <= base + DigitCount(base + 1)
    ensures forall length: nat | IsLength(base, length) :: base + 1 <= length
  {
  }

  lemma BaseIsBig(third: string, fourth: string, headers: seq<Header>, body: bytes)
    ensures Base(third, fourth, headers, body) >= 10
  {
  }

  /** The equation can have two solutions. */
  lemma TwoLengths()
    ensures IsLength(97, 99) && IsLength(97, 100)
  {
    assert DigitCount(100) == DigitCount(10) + 1 == DigitCount(1) + 2;
  }
}
