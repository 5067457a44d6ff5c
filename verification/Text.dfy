/** Python's white space and decimal numbers: `strip`, `split`, `str(n)` and `int(text)`. */
module Text {
  import opened Bytes

  predicate IsSpace(c: char) {
    var n := c as int;
    9 <= n <= 13 || 28 <= n <= 32 || n == 0x85 || n == 0xA0 || n == 0x1680 || 0x2000 <= n <= 0x200A ||
    n == 0x2028 || n == 0x2029 || n == 0x202F || n == 0x205F || n == 0x3000
  }

  /** White space of `bytes.split`. */
  predicate IsSpaceByte(b: byte) {
    9 <= b <= 13 || b == 32
  }

  /** `not text.strip()`. */
  predicate Blank(text: string) {
    forall c | c in text :: IsSpace(c)
  }

  // ---------- strip ----------

  function DropLeading(s: string): string {
    if s != [] && IsSpace(s[0]) then DropLeading(s[1..]) else s
  }

  function DropTrailing(s: string): string {
    if s != [] && IsSpace(s[|s| - 1]) then DropTrailing(s[..|s| - 1]) else s
  }

  function Strip(s: string): string {
    DropTrailing(DropLeading(s))
  }

  predicate Trimmed(s: string) {
    s != [] ==> !IsSpace(s[0]) && !IsSpace(s[|s| - 1])
  }

  lemma StripsLead(s: string)
    requires Trimmed(s)
    ensures Strip(s) == s && Strip([' '] + s) == s
  {
    assert ([' '] + s)[1..] == s;
  }

  // ---------- split ----------

  function Leading<T>(s: seq<T>, space: T -> bool): (n: nat)
    ensures n <= |s| && (n < |s| ==> space(s[n])) && forall i | 0 <= i < n :: !space(s[i])
  {
    if s == [] || space(s[0]) then 0 else 1 + Leading(s[1..], space)
  }

  /** The maximal runs without white space. */
  function Words<T>(s: seq<T>, space: T -> bool): seq<seq<T>> {
    if s == [] then []
    else if space(s[0]) then Words(s[1..], space)
    else
      var n := Leading(s, space);
      [s[..n]] + Words(s[n..], space)
  }

  predicate Solid<T>(w: seq<T>, space: T -> bool) {
    w != [] && forall i | 0 <= i < |w| :: !space(w[i])
  }

  lemma WordFirst<T>(w: seq<T>, gap: T, rest: seq<T>, space: T -> bool)
    requires Solid(w, space) && space(gap)
    ensures Words(w + [gap] + rest, space) == [w] + Words(rest, space)
  {
    var s := w + [gap] + rest;
    assert s[|w|] == gap && forall i | 0 <= i < |w| :: s[i] == w[i];
    assert Leading(s, space) == |w|;
    assert s[..|w|] == w && s[|w|..] == [gap] + rest && ([gap] + rest)[1..] == rest;
  }

  lemma WordLast<T>(w: seq<T>, space: T -> bool)
    requires Solid(w, space)
    ensures Words(w, space) == [w]
  {
    assert Leading(w, space) == |w|;
    assert w[..|w|] == w && w[|w|..] == [];
  }

  // ---------- Numbers ----------

  function Digit(n: nat): char
    requires n < 10
  {
    (48 + n) as char
  }

  predicate IsDigit(c: char) {
    48 <= c as int < 58
  }

  function DigitCount(n: nat): (d: nat)
    ensures d >= 1
  {
    if n < 10 then 1 else DigitCount(n / 10) + 1
  }

  /** `str(n)`. */
  function Decimal(n: nat): (s: string)
    ensures |s| == DigitCount(n)
    ensures forall i | 0 <= i < |s| :: IsDigit(s[i])
  {
    if n < 10 then [Digit(n)] else Decimal(n / 10) + [Digit(n % 10)]
  }

  function Number(n: int): string {
    if n < 0 then ['-'] + Decimal(-n) else Decimal(n)
  }

  function ParseDigits(s: string): Option<int> {
    if s == [] then None
    else
      var n := |s| - 1;
      if !IsDigit(s[n]) then None
      else
        var low := s[n] as int - 48;
        if n == 0 then Some(low)
        else
          var high := ParseDigits(s[..n]);
          if high == None then None else Some(high.value * 10 + low)
  }

  /** `int(text)` for a text without white space: an optional sign and decimal digits. */
  function ParseNumber(s: string): Option<int> {
    if s != [] && s[0] == '-' then
      var n := ParseDigits(s[1..]);
      if n == None then None else Some(-n.value)
    else if s != [] && s[0] == '+' then ParseDigits(s[1..])
    else ParseDigits(s)
  }

  lemma {:induction false} ParsesDecimal(n: nat)
    ensures ParseDigits(Decimal(n)) == Some(n)
  {
    if n >= 10 {
      ParsesDecimal(n / 10);
      var high := Decimal(n / 10);
      assert (high + [Digit(n % 10)])[..|high|] == high;
    }
  }

  lemma ParsesNumber(n: int)
    ensures ParseNumber(Number(n)) == Some(n) && Number(n) != []
  {
    if n < 0 {
      ParsesDecimal(-n);
      assert (['-'] + Decimal(-n))[1..] == Decimal(-n);
    } else {
      ParsesDecimal(n);
      assert IsDigit(Decimal(n)[0]);
    }
  }

  // ---------- How many digits a number has ----------

  lemma {:induction false} DigitsGrow(a: nat, b: nat)
    requires a <= b
    ensures DigitCount(a) <= DigitCount(b)
    decreases b
  {
    if a >= 10 {
      assert a / 10 <= b / 10;
      DigitsGrow(a / 10, b / 10);
    }
  }

  lemma TenTimes(a: nat, b: nat)
    requires b <= 10 * a && a >= 1
    ensures DigitCount(b) <= DigitCount(a) + 1
  {
    DigitsGrow(b, 10 * a);
    assert 10 * a / 10 == a;
  }

  lemma {:induction false} FewDigits(n: nat)
    requires n >= 1
    ensures DigitCount(n) <= n
  {
    if n >= 10 {
      FewDigits(n / 10);
    }
  }
}
