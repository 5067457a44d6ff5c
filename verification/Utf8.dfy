/** UTF-8 as Python's strict codec reads and writes it (RFC 3629). */
module Utf8 {
  import opened Bytes
  import Splitting

  predicate IsScalar(n: int) {
    0 <= n < 0xD800 || 0xE000 <= n < 0x110000
  }

  function EncodeScalar(n: int): (b: bytes)
    requires IsScalar(n)
    ensures 1 <= |b| <= 4
  {
    if n < 0x80 then [n]
    else if n < 0x800 then [0xC0 + n / 64, 0x80 + n % 64]
    else if n < 0x10000 then [0xE0 + n / 64 / 64, 0x80 + n / 64 % 64, 0x80 + n % 64]
    else [0xF0 + n / 64 / 64 / 64, 0x80 + n / 64 / 64 % 64, 0x80 + n / 64 % 64, 0x80 + n % 64]
  }

  function EncodeChar(c: char): (b: bytes)
    ensures 1 <= |b| <= 4
  {
    EncodeScalar(c as int)
  }

  function Encode(s: string): bytes {
    if s == [] then [] else EncodeChar(s[0]) + Encode(s[1..])
  }

  predicate Continues(b: byte) {
    0x80 <= b < 0xC0
  }

  /** How many bytes the first character takes, or 0 when they are not the start of one. */
  function Width(b: bytes): (w: nat)
    ensures w <= |b| && w <= 4
  {
    if b == [] then 0
    else if b[0] < 0x80 then 1
    else if 0xC2 <= b[0] < 0xE0 then if |b| >= 2 && Continues(b[1]) then 2 else 0
    else if 0xE0 <= b[0] < 0xF0 then
      if |b| >= 3 && Continues(b[1]) && Continues(b[2]) && (b[0] == 0xE0 ==> b[1] >= 0xA0) &&
         (b[0] == 0xED ==> b[1] < 0xA0) then 3 else 0
    else if 0xF0 <= b[0] < 0xF5 then
      if |b| >= 4 && Continues(b[1]) && Continues(b[2]) && Continues(b[3]) && (b[0] == 0xF0 ==> b[1] >= 0x90) &&
         (b[0] == 0xF4 ==> b[1] < 0x90) then 4 else 0
    else 0
  }

  function Value(b: bytes): int
    requires Width(b) > 0
  {
    match Width(b)
    case 1 => b[0]
    case 2 => (b[0] as int - 0xC0) * 64 + (b[1] as int - 0x80)
    case 3 => ((b[0] as int - 0xE0) * 64 + (b[1] as int - 0x80)) * 64 + (b[2] as int - 0x80)
    case _ =>
      (((b[0] as int - 0xF0) * 64 + (b[1] as int - 0x80)) * 64 + (b[2] as int - 0x80)) * 64 + (b[3] as int - 0x80)
  }

  /** Overlong forms, surrogates and values above U+10FFFF have no width, so a value is a character. */
  lemma ValueIsScalar(b: bytes)
    requires Width(b) > 0
    ensures IsScalar(Value(b))
  {
  }

  function DecodeChar(b: bytes): char
    requires Width(b) > 0
  {
    ValueIsScalar(b);
    Value(b) as char
  }

  function Decode(b: bytes): Option<string> {
    if b == [] then Some([])
    else
      var w := Width(b);
      if w == 0 then None
      else
        var rest := Decode(b[w..]);
        if rest == None then None else Some([DecodeChar(b)] + rest.value)
  }

  lemma DecodesScalar(n: int, rest: bytes)
    requires IsScalar(n)
    ensures var b := EncodeScalar(n) + rest;
      Width(b) == |EncodeScalar(n)| && Value(b) == n
  {
  }

  lemma DecodesChar(c: char, rest: bytes)
    ensures var b := EncodeChar(c) + rest;
      Width(b) == |EncodeChar(c)| && DecodeChar(b) == c
  {
    hide EncodeScalar, Width, Value;
    DecodesScalar(c as int, rest);
  }

  lemma EncodesWide(b: bytes)
    requires Width(b) == 4
    ensures IsScalar(Value(b)) && EncodeScalar(Value(b)) == b[..4]
  {
    var n := Value(b);
    var high, low := (b[0] as int - 0xF0) * 64 + (b[1] as int - 0x80), (b[2] as int - 0x80) * 64 + (b[3] as int - 0x80);
    assert n == high * 4096 + low && 16 <= high < 0x110 && 0 <= low < 4096;
    assert n / 64 == high * 64 + (b[2] as int - 0x80) && n / 64 / 64 == high;
  }

  lemma EncodesValue(b: bytes)
    requires Width(b) > 0
    ensures IsScalar(Value(b)) && EncodeScalar(Value(b)) == b[..Width(b)]
  {
    if Width(b) == 4 {
      EncodesWide(b);
    }
  }

  lemma EncodesBack(b: bytes)
    requires Width(b) > 0
    ensures EncodeChar(DecodeChar(b)) == b[..Width(b)]
  {
    hide EncodeScalar, Width, Value;
    EncodesValue(b);
  }

  lemma {:induction false} EncodeThenDecode(s: string)
    ensures Decode(Encode(s)) == Some(s)
  {
    hide EncodeChar, DecodeChar, Width;
    if s != [] {
      var b, rest := EncodeChar(s[0]), Encode(s[1..]);
      DecodesChar(s[0], rest);
      assert (b + rest)[|b|..] == rest;
      EncodeThenDecode(s[1..]);
      assert [s[0]] + s[1..] == s;
    }
  }

  lemma {:induction false} DecodeThenEncode(b: bytes)
    requires Decode(b).Some?
    ensures Encode(Decode(b).value) == b
    decreases |b|
  {
    hide EncodeChar, DecodeChar, Width;
    if b != [] {
      var w := Width(b);
      var s := Decode(b).value;
      EncodesBack(b);
      DecodeThenEncode(b[w..]);
      assert s[1..] == Decode(b[w..]).value;
    }
  }

  /** Strict decoding is exactly the inverse of encoding. */
  lemma DecodeIffEncode(b: bytes, s: string)
    ensures Decode(b) == Some(s) <==> Encode(s) == b
  {
    if Decode(b) == Some(s) {
      DecodeThenEncode(b);
    }
    EncodeThenDecode(s);
  }

  lemma {:induction false} EncodeAppends(s: string, t: string)
    ensures Encode(s + t) == Encode(s) + Encode(t)
  {
    hide EncodeChar;
    if s == [] {
      assert s + t == t;
    } else {
      EncodeAppends(s[1..], t);
      assert (s + t)[1..] == s[1..] + t;
    }
  }

  /** Bytes below 0x80 only come from ASCII characters, so a line break in the bytes is one in the text. */
  lemma {:induction false} FreeEncodes(s: string)
    requires Splitting.Free(s, '\r', '\n')
    ensures Splitting.Free(Encode(s), 13, 10)
  {
    if s != [] {
      var b, rest := EncodeChar(s[0]), Encode(s[1..]);
      forall j | 0 <= j && j + 2 <= |s[1..]|
        ensures !(s[1..][j] == '\r' && s[1..][j + 1] == '\n')
      {
        assert s[j + 1] == s[1..][j] && s[j + 2] == s[1..][j + 1];
      }
      FreeEncodes(s[1..]);
      forall j | 0 <= j && j + 2 <= |b + rest|
        ensures !((b + rest)[j] == 13 && (b + rest)[j + 1] == 10)
      {
        if j >= |b| {
          assert (b + rest)[j] == rest[j - |b|] && (b + rest)[j + 1] == rest[j - |b| + 1];
        } else if j == 0 && |b| == 1 {
          assert (b + rest)[1] == rest[0];
          FirstByte(s[1..]);
        }
      }
    }
  }

  lemma FirstByte(s: string)
    requires s != []
    ensures Encode(s)[0] < 0x80 ==> Encode(s)[0] == s[0] as int
  {
    assert Encode(s)[0] == EncodeChar(s[0])[0];
  }
}
