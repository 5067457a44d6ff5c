/** Splitting on a two-element separator, as Python's `split("->")` and `split("\r\n")` do. */
module Splitting {

  /** The position of the first `a, b` in `s`, or -1. */
  function Find<T(==)>(s: seq<T>, a: T, b: T): (i: int)
    ensures i == -1 || (0 <= i && i + 2 <= |s| && s[i] == a && s[i + 1] == b)
    ensures forall j | 0 <= j && j + 2 <= |s| && (i == -1 || j < i) :: !(s[j] == a && s[j + 1] == b)
  {
    if |s| < 2 then -1
    else if s[0] == a && s[1] == b then 0
    else
      var i := Find(s[1..], a, b);
      assert forall j | 0 < j && j + 2 <= |s| :: s[j] == s[1..][j - 1] && s[j + 1] == s[1..][j];
      if i == -1 then -1 else i + 1
  }

  predicate Free<T(==)>(s: seq<T>, a: T, b: T) {
    Find(s, a, b) == -1
  }

  function Split<T(==)>(s: seq<T>, a: T, b: T): (parts: seq<seq<T>>)
    ensures parts != []
  {
    var i := Find(s, a, b);
    if i == -1 then [s] else [s[..i]] + Split(s[i + 2..], a, b)
  }

  function Join<T>(parts: seq<seq<T>>, a: T, b: T): seq<T> {
    if parts == [] then []
    else if |parts| == 1 then parts[0]
    else parts[0] + [a, b] + Join(parts[1..], a, b)
  }

  /** After a part without the separator, the first separator is the one that was put there. */
  lemma FindAfter<T>(p: seq<T>, a: T, b: T, rest: seq<T>)
    requires Free(p, a, b) && a != b
    ensures Find(p + [a, b] + rest, a, b) == |p|
  {
    var s := p + [a, b] + rest;
    assert s[|p|] == a && s[|p| + 1] == b;
    forall j | 0 <= j < |p|
      ensures !(s[j] == a && s[j + 1] == b)
    {
      if j + 1 < |p| {
        assert s[j] == p[j] && s[j + 1] == p[j + 1];
      }
    }
  }

  lemma {:induction false} SplitJoin<T>(parts: seq<seq<T>>, a: T, b: T)
    requires parts != [] && a != b && forall p | p in parts :: Free(p, a, b)
    ensures Split(Join(parts, a, b), a, b) == parts
  {
    if |parts| > 1 {
      var rest := Join(parts[1..], a, b);
      FindAfter(parts[0], a, b, rest);
      var s := parts[0] + [a, b] + rest;
      assert s[..|parts[0]|] == parts[0] && s[|parts[0]| + 2..] == rest;
      SplitJoin(parts[1..], a, b);
      assert parts == [parts[0]] + parts[1..];
    } else {
      assert parts[0] in parts;
      assert parts == [parts[0]];
    }
  }

  lemma {:induction false} SplitIsFree<T>(s: seq<T>, a: T, b: T)
    ensures forall p | p in Split(s, a, b) :: Free(p, a, b)
  {
    var i := Find(s, a, b);
    if i != -1 {
      SplitIsFree(s[i + 2..], a, b);
      var p := s[..i];
      assert forall j | 0 <= j < |p| :: p[j] == s[j];
    }
  }
}
