/**
 The bridge's CBOR subset and its frames (src/sandroid/adapters/mrcp/bridge.py): unsigned integers,
 text strings and maps of RFC 8949, section 3.1.
 */
module Cbor {
  import opened Bytes
  import BigEndian
  import Utf8

  /** A decoded value; a map is a Python dict, in insertion order. */
  datatype Value = UInt(n: nat) | Text(s: string) | Map(entries: seq<Entry>)

  datatype Entry = Entry(key: Value, value: Value)

  /** `Malformed` is `CBORError`, `Crashed` any exception the caller does not catch. */
  datatype Failure = Malformed | Crashed

  /** A value and how many bytes it says it took. */
  datatype Item = Item(value: Value, used: nat)

  datatype Head = Head(major: nat, argument: nat, used: nat)

  // ---------- Decoding ----------

  /** `data[from:]`. */
  function Drop(data: bytes, from: nat): bytes {
    if from <= |data| then data[from..] else []
  }

  /** `data[from:to]`. */
  function Slice(data: bytes, from: nat, to: nat): bytes {
    if to <= from then [] else if to <= |data| then data[from..to] else Drop(data, from)
  }

  /** How many bytes follow the initial byte, or `None` for reserved additional information. */
  function ArgumentWidth(info: nat): Option<nat> {
    if info < 24 then Some(0)
    else if info == 24 then Some(1)
    else if info == 25 then Some(2)
    else if info == 26 then Some(4)
    else if info == 27 then Some(8)
    else None
  }

  function DecodeHead(data: bytes): (r: Result<Head, Failure>)
    ensures r.Ok? ==> 1 <= r.value.used <= |data|
  {
    if data == [] then Err(Malformed)
    else
      var width := ArgumentWidth(data[0] % 32);
      if width == None then Err(Malformed)
      else if |data| < 1 + width.value then Err(Crashed)
      else
        Ok(Head(
          data[0] / 32, if width.value == 0 then data[0] % 32 else BigEndian.Read(data[1..1 + width.value]),
          1 + width.value))
  }

  /** Assignment to a dict: a known key keeps its place. */
  function Assign(entries: seq<Entry>, key: Value, value: Value): seq<Entry> {
    if entries == [] then [Entry(key, value)]
    else if entries[0].key == key then [Entry(key, value)] + entries[1..]
    else [entries[0]] + Assign(entries[1..], key, value)
  }

  function Decode(data: bytes): Result<Item, Failure>
    decreases |data|, 1, 0
  {
    var head := DecodeHead(data);
    if head.Err? then Err(head.error)
    else
      var (major, n, used) := (head.value.major, head.value.argument, head.value.used);
      if major == 0 then Ok(Item(UInt(n), used))
      else if major == 3 then
        var text := Utf8.Decode(Slice(data, used, used + n));
        if text == None then Err(Crashed) else Ok(Item(Text(text.value), used + n))
      else if major == 5 then DecodeEntries(data, used, n, [])
      else Err(Malformed)
  }

  /** The next `count` entries of a map; a map cannot be a key. */
  function DecodeEntries(data: bytes, pos: nat, count: nat, entries: seq<Entry>): Result<Item, Failure>
    requires 0 < pos && data != []
    decreases |data|, 0, count
  {
    if count == 0 then Ok(Item(Map(entries), pos))
    else
      var key := Decode(Drop(data, pos));
      if key.Err? then Err(key.error)
      else
        var value := Decode(Drop(data, pos + key.value.used));
        if value.Err? then Err(value.error)
        else if key.value.value.Map? then Err(Crashed)
        else
          DecodeEntries(data, pos + key.value.used + value.value.used, count - 1,
                        Assign(entries, key.value.value, value.value.value))
  }

  method CborDecode(data: bytes) returns (r: Result<Item, Failure>)
    ensures r == Decode(data)
    decreases |data|, 1
  {
    hide Utf8.Decode, BigEndian.Read, Slice, DecodeEntries;
    if data == [] {
      return Err(Malformed);
    }
    var major, info := data[0] / 32, data[0] % 32;
    var pos, val := 1, info;
    if 24 <= info < 28 {
      var width := ArgumentWidth(info).value;
      if |data| < 1 + width {
        return Err(Crashed);
      }
      val := BigEndian.Read(data[pos..pos + width]);
      pos := pos + width;
    } else if info >= 28 {
      return Err(Malformed);
    }
    if major == 0 {
      return Ok(Item(UInt(val), pos));
    }
    if major == 3 {
      var end := pos + val;
      var text := Utf8.Decode(Slice(data, pos, end));
      return if text == None then Err(Crashed) else Ok(Item(Text(text.value), end));
    }
    if major == 5 {
      r := CborDecodeEntries(data, pos, val);
      return;
    }
    return Err(Malformed);
  }

  /** The loop over a map's entries. */
  method CborDecodeEntries(data: bytes, start: nat, count: nat) returns (r: Result<Item, Failure>)
    requires 0 < start && data != []
    ensures r == DecodeEntries(data, start, count, [])
    decreases |data|, 0
  {
    hide Decode, Assign;
    var pos, out := start, [];
    for i := 0 to count
      invariant pos > 0 && DecodeEntries(data, start, count, []) == DecodeEntries(data, pos, count - i, out)
    {
      var key := CborDecode(Drop(data, pos));
      if key.Err? {
        return Err(key.error);
      }
      var value := CborDecode(Drop(data, pos + key.value.used));
      if value.Err? {
        return Err(value.error);
      }
      if key.value.value.Map? {
        return Err(Crashed);
      }
      pos := pos + key.value.used + value.value.used;
      out := Assign(out, key.value.value, value.value.value);
    }
    r := Ok(Item(Map(out), pos));
  }

  // ---------- Encoding ----------

  /** A value of a Python dict to encode; `Other` has an unsupported type. */
  datatype Field = Str(s: string) | Int(n: int) | Other

  datatype Pair = Pair(key: string, field: Field)

  /** Arguments `struct` and `bytearray` accept. */
  predicate Fits(n: int) {
    0 <= n < 0x1_0000_0000_0000_0000
  }

  function EncodeHead(major: nat, n: nat): (b: bytes)
    requires major < 8 && Fits(n)
  {
    if n < 24 then [major * 32 + n]
    else if n <= 0xFF then [major * 32 + 24] + BigEndian.Write(n, 1)
    else if n <= 0xFFFF then [major * 32 + 25] + BigEndian.Write(n, 2)
    else if n <= 0xFFFF_FFFF then [major * 32 + 26] + BigEndian.Write(n, 4)
    else [major * 32 + 27] + BigEndian.Write(n, 8)
  }

  predicate TextFits(s: string) {
    Fits(|Utf8.Encode(s)|)
  }

  function EncodeText(s: string): bytes
    requires TextFits(s)
  {
    EncodeHead(3, |Utf8.Encode(s)|) + Utf8.Encode(s)
  }

  predicate FieldFits(f: Field) {
    match f
    case Str(s) => TextFits(s)
    case Int(n) => Fits(n)
    case Other => false
  }

  function EncodeField(f: Field): bytes
    requires FieldFits(f)
  {
    match f
    case Str(s) => EncodeText(s)
    case Int(n) => EncodeHead(0, n)
  }

  predicate PairFits(p: Pair) {
    TextFits(p.key) && FieldFits(p.field)
  }

  predicate AllFit(m: seq<Pair>) {
    m == [] || (AllFit(m[..|m| - 1]) && PairFits(m[|m| - 1]))
  }

  function EncodePairs(m: seq<Pair>): bytes
    requires AllFit(m)
  {
    if m == [] then []
    else
      var n := |m| - 1;
      EncodePairs(m[..n]) + EncodeText(m[n].key) + EncodeField(m[n].field)
  }

  /** What `_cbor_encode_map` returns when it raises nothing. */
  function EncodeMap(m: seq<Pair>): bytes
    requires |m| < 256 && AllFit(m)
  {
    (if |m| < 24 then [0xA0 + |m|] else [0xB8, |m|]) + EncodePairs(m)
  }

  /** `None` is any of the exceptions of `struct.pack`, `bytearray.append` and the type check. */
  method CborEncodeMap(m: seq<Pair>) returns (r: Option<bytes>)
    ensures r == if |m| < 256 && AllFit(m) then Some(EncodeMap(m)) else None
  {
    hide TextFits, FieldFits, EncodeText, EncodeField, AllFit, EncodePairs;
    if |m| >= 256 {
      return None;
    }
    var buf: bytes := if |m| < 24 then [0xA0 + |m|] else [0xB8, |m|];
    ghost var head := buf;
    NoPairs();
    for i := 0 to |m|
      invariant AllFit(m[..i]) && buf == head + EncodePairs(m[..i])
    {
      PairsGrow(m, i);
      var field := AppendField(m[i].field);
      if !TextFits(m[i].key) || field == None {
        UnfitPrefix(m, i + 1);
        return None;
      }
      buf := buf + EncodeText(m[i].key) + field.value;
    }
    assert m[..|m|] == m;
    r := Some(buf);
  }

  lemma NoPairs()
    ensures AllFit([]) && EncodePairs([]) == []
  {
  }

  lemma PairsGrow(m: seq<Pair>, i: nat)
    requires i < |m|
    ensures AllFit(m[..i + 1]) <==> AllFit(m[..i]) && PairFits(m[i])
    ensures AllFit(m[..i + 1]) ==>
      EncodePairs(m[..i + 1]) == EncodePairs(m[..i]) + EncodeText(m[i].key) + EncodeField(m[i].field)
  {
    hide EncodeText, EncodeField, TextFits, FieldFits;
    assert m[..i + 1][..i] == m[..i];
  }

  lemma {:induction false} UnfitPrefix(m: seq<Pair>, n: nat)
    requires n <= |m| && !AllFit(m[..n])
    ensures !AllFit(m)
    decreases |m| - n
  {
    if n == |m| {
      assert m[..n] == m;
    } else {
      assert m[..n + 1][..n] == m[..n];
      UnfitPrefix(m, n + 1);
    }
  }

  method AppendField(f: Field) returns (r: Option<bytes>)
    ensures r == if FieldFits(f) then Some(EncodeField(f)) else None
  {
    if !FieldFits(f) {
      return None;
    }
    match f {
      case Str(s) => r := Some(EncodeText(s));
      case Int(n) => r := Some(EncodeHead(0, n));
    }
  }
}
