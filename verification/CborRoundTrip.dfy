/** What the bridge encodes it reads back, whatever follows; and heads take the shortest form. */
module CborRoundTrip {
  import opened Bytes
  import BigEndian
  import Utf8
  import opened Cbor

  lemma HeadRoundTrip(major: nat, n: nat, tail: bytes)
    requires major < 8 && Fits(n)
    ensures DecodeHead(EncodeHead(major, n) + tail) == Ok(Head(major, n, |EncodeHead(major, n)|))
  {
    hide BigEndian.Write, BigEndian.Read;
    BigEndian.Powers();
    var width := if n < 24 then 0 else if n <= 0xFF then 1 else if n <= 0xFFFF then 2 else if n <= 0xFFFF_FFFF then 4 else 8;
    var data := EncodeHead(major, n) + tail;
    if width > 0 {
      BigEndian.ReadWrite(n, width);
      assert data[1..1 + width] == BigEndian.Write(n, width);
    }
  }

  /** Section 4.1 of RFC 8949: no head that is read as the same major type and argument is shorter. */
  lemma HeadIsShortest(data: bytes)
    requires DecodeHead(data).Ok?
    ensures var head := DecodeHead(data).value;
      head.major < 8 && Fits(head.argument) && |EncodeHead(head.major, head.argument)| <= head.used
  {
    hide BigEndian.Write, BigEndian.Read;
    BigEndian.Powers();
    var width := ArgumentWidth(data[0] % 32).value;
    if width > 0 {
      BigEndian.WriteRead(data[1..1 + width]);
    }
  }

  lemma TextRoundTrip(s: string, tail: bytes)
    requires TextFits(s)
    ensures Decode(EncodeText(s) + tail) == Ok(Item(Text(s), |EncodeText(s)|))
  {
    hide EncodeHead, DecodeHead;
    var body := Utf8.Encode(s);
    var head := EncodeHead(3, |body|);
    assert head + body + tail == head + (body + tail);
    HeadRoundTrip(3, |body|, body + tail);
    assert Slice(head + (body + tail), |head|, |head| + |body|) == body;
    Utf8.EncodeThenDecode(s);
  }

  function ValueOf(f: Field): Value
    requires FieldFits(f)
  {
    match f
    case Str(s) => Text(s)
    case Int(n) => UInt(n)
  }

  lemma FieldRoundTrip(f: Field, tail: bytes)
    requires FieldFits(f)
    ensures Decode(EncodeField(f) + tail) == Ok(Item(ValueOf(f), |EncodeField(f)|))
  {
    match f {
      case Str(s) => TextRoundTrip(s, tail);
      case Int(n) => HeadRoundTrip(0, n, tail);
    }
  }

  /** The keys of a dict. */
  predicate KeysDiffer(m: seq<Pair>) {
    m == [] ||
    var n := |m| - 1;
    KeysDiffer(m[..n]) && forall p | p in m[..n] :: p.key != m[n].key
  }

  function AsEntries(m: seq<Pair>): (entries: seq<Entry>)
    requires AllFit(m)
    ensures |entries| == |m|
  {
    if m == [] then []
    else
      var n := |m| - 1;
      AsEntries(m[..n]) + [Entry(Text(m[n].key), ValueOf(m[n].field))]
  }

  lemma {:induction false} KeysAreTheirs(m: seq<Pair>, i: nat)
    requires AllFit(m) && i < |m|
    ensures AsEntries(m)[i].key == Text(m[i].key)
    decreases |m|
  {
    var n := |m| - 1;
    if i < n {
      KeysAreTheirs(m[..n], i);
    }
  }

  lemma {:induction false} AssignNew(entries: seq<Entry>, key: Value, value: Value)
    requires forall e | e in entries :: e.key != key
    ensures Assign(entries, key, value) == entries + [Entry(key, value)]
  {
    if entries != [] {
      AssignNew(entries[1..], key, value);
      assert [entries[0]] + entries[1..] == entries;
    }
  }

  lemma NewKey(m: seq<Pair>, key: string)
    requires AllFit(m) && forall p | p in m :: p.key != key
    ensures forall e | e in AsEntries(m) :: e.key != Text(key)
  {
    forall i | 0 <= i < |m|
      ensures AsEntries(m)[i].key != Text(key)
    {
      KeysAreTheirs(m, i);
      assert m[i] in m;
    }
  }

  /** One more entry, read at the position where it was written. */
  lemma EntryRoundTrip(data: bytes, pos: nat, p: Pair, tail: bytes, count: nat, entries: seq<Entry>)
    requires PairFits(p) && 0 < pos <= |data| && data[pos..] == EncodeText(p.key) + EncodeField(p.field) + tail
    requires forall e | e in entries :: e.key != Text(p.key)
    ensures DecodeEntries(data, pos, count + 1, entries) ==
      DecodeEntries(data, pos + |EncodeText(p.key)| + |EncodeField(p.field)|, count,
                    entries + [Entry(Text(p.key), ValueOf(p.field))])
  {
    hide Decode, EncodeText, EncodeField, TextFits, FieldFits, Assign, ValueOf;
    var k, f := EncodeText(p.key), EncodeField(p.field);
    TextRoundTrip(p.key, f + tail);
    assert k + f + tail == k + (f + tail);
    FieldRoundTrip(p.field, tail);
    assert Drop(data, pos + |k|) == f + tail;
    AssignNew(entries, Text(p.key), ValueOf(p.field));
  }

  lemma Regroup(pre: bytes, init: bytes, k: bytes, f: bytes, tail: bytes)
    ensures var data := pre + (init + k + f) + tail;
      data == pre + init + (k + f + tail) && data[|pre| + |init|..] == k + f + tail
  {
  }

  lemma {:induction false} EntriesRoundTrip(pre: bytes, m: seq<Pair>, tail: bytes, count: nat)
    requires pre != [] && AllFit(m) && KeysDiffer(m)
    ensures var data := pre + EncodePairs(m) + tail;
      DecodeEntries(data, |pre|, |m| + count, []) ==
      DecodeEntries(data, |pre| + |EncodePairs(m)|, count, AsEntries(m))
    decreases |m|
  {
    hide DecodeEntries, EncodeText, EncodeField, TextFits, FieldFits;
    if m != [] {
      var n := |m| - 1;
      var p, init := m[n], EncodePairs(m[..n]);
      var k, f := EncodeText(p.key), EncodeField(p.field);
      EntriesRoundTrip(pre, m[..n], k + f + tail, count + 1);
      var data := pre + EncodePairs(m) + tail;
      Regroup(pre, init, k, f, tail);
      NewKey(m[..n], p.key);
      EntryRoundTrip(data, |pre| + |init|, p, tail, count, AsEntries(m[..n]));
    }
  }

  function MapHead(n: nat): bytes
    requires n < 256
  {
    if n < 24 then [0xA0 + n] else [0xB8, n]
  }

  lemma MapHeadIsHead(n: nat)
    requires n < 256
    ensures MapHead(n) == EncodeHead(5, n)
  {
    assert n >= 24 ==> BigEndian.Write(n, 1) == [n];
  }

  lemma MapHeadDecodes(n: nat, tail: bytes)
    requires n < 256
    ensures Decode(MapHead(n) + tail) == DecodeEntries(MapHead(n) + tail, |MapHead(n)|, n, [])
  {
    hide DecodeEntries, DecodeHead, EncodeHead, MapHead, Utf8.Decode;
    MapHeadIsHead(n);
    HeadRoundTrip(5, n, tail);
  }

  /**
   Decoding what `_cbor_encode_map` returned gives the map back, in order, and the exact length,
   whatever bytes follow.
   */
  lemma MapRoundTrip(m: seq<Pair>, tail: bytes)
    requires |m| < 256 && AllFit(m) && KeysDiffer(m)
    ensures Decode(EncodeMap(m) + tail) == Ok(Item(Map(AsEntries(m)), |EncodeMap(m)|))
  {
    hide Decode, EncodePairs, AllFit, KeysDiffer, AsEntries;
    var pre, pairs := MapHead(|m|), EncodePairs(m);
    assert EncodeMap(m) == pre + pairs;
    assert pre + pairs + tail == pre + (pairs + tail);
    MapHeadDecodes(|m|, pairs + tail);
    EntriesRoundTrip(pre, m, tail, 0);
  }

  // ---------- What cannot be decoded ----------

  /** The initial byte and the bytes of its argument are there. */
  predicate HeadArrived(data: bytes) {
    data != [] &&
    match data[0] % 32
    case 24 => |data| >= 2
    case 25 => |data| >= 3
    case 26 => |data| >= 5
    case 27 => |data| >= 9
    case _ => true
  }

  /**
   The decoder refuses empty data, reserved additional information and the other major types; it crashes
   on a head that is cut off and on text that is not UTF-8; numbers and text it accepts.
   */
  lemma DecodeFaults(data: bytes)
    ensures data == [] ==> Decode(data) == Err(Malformed)
    ensures data != [] ==>
      var major, info := data[0] / 32, data[0] % 32;
      if info >= 28 then Decode(data) == Err(Malformed)
      else if !HeadArrived(data) then Decode(data) == Err(Crashed)
      else if major == 0 then Decode(data).Ok? && Decode(data).value.value.UInt?
      else if major == 3 then
        var head := DecodeHead(data).value;
        var text := Slice(data, head.used, head.used + head.argument);
        Decode(data) != Err(Malformed) &&
        forall s :: Decode(data) == Ok(Item(Text(s), head.used + head.argument)) <==> text == Utf8.Encode(s)
      else major != 5 ==> Decode(data) == Err(Malformed)
  {
    hide Utf8.Decode, Utf8.Encode, BigEndian.Read, Slice, DecodeEntries;
    if data != [] && DecodeHead(data).Ok? {
      var head := DecodeHead(data).value;
      var text := Slice(data, head.used, head.used + head.argument);
      forall s
        ensures Utf8.Decode(text) == Some(s) <==> text == Utf8.Encode(s)
      {
        Utf8.DecodeIffEncode(text, s);
      }
    }
  }

  /** A map cannot be a key: a map whose first key is one crashes the decoder. */
  lemma MapKeyCrashes(inner: seq<Pair>, f: Field, tail: bytes)
    requires |inner| < 256 && AllFit(inner) && KeysDiffer(inner) && FieldFits(f)
    ensures Decode(EncodeHead(5, 1) + EncodeMap(inner) + EncodeField(f) + tail) == Err(Crashed)
  {
    hide Decode, EncodeMap, EncodeField, AllFit, KeysDiffer, AsEntries, FieldFits, EncodeHead;
    var key, value := EncodeMap(inner), EncodeField(f);
    var data := EncodeHead(5, 1) + key + value + tail;
    MapHeadIsHead(1);
    assert data == MapHead(1) + (key + value + tail);
    MapHeadDecodes(1, key + value + tail);
    MapRoundTrip(inner, value + tail);
    FieldRoundTrip(f, tail);
    assert Drop(data, 1) == key + (value + tail) && Drop(data, 1 + |key|) == value + tail;
  }

  // ---------- Frames ----------

  /** What `read_frame` makes of the bytes: `IncompleteReadError`, `ValueError`, or a frame and the rest. */
  datatype Read = Short | BadSize | Frame(kind: byte, payload: bytes, rest: bytes)

  function ReadFrame(stream: bytes): Read {
    if |stream| < 5 then Short
    else
      var total := BigEndian.Read(stream[..4]);
      if total < 1 || total - 1 > 0x10_0000 then BadSize
      else if |stream| < 4 + total then Short
      else Frame(stream[4], stream[5..4 + total], stream[4 + total..])
  }

  function EncodeFrame(kind: byte, payload: bytes): bytes
    requires |payload| + 1 < 0x1_0000_0000
  {
    BigEndian.Write(|payload| + 1, 4) + [kind] + payload
  }

  /** A frame of up to 1 MiB is read back whole, and nothing after it is touched. */
  lemma FrameRoundTrip(kind: byte, payload: bytes, tail: bytes)
    requires |payload| < 0xFFFF_FFFF
    ensures ReadFrame(EncodeFrame(kind, payload) + tail) ==
      if |payload| <= 0x10_0000 then Frame(kind, payload, tail) else BadSize
  {
    hide BigEndian.Write, BigEndian.Read;
    var size := BigEndian.Write(|payload| + 1, 4);
    var stream := EncodeFrame(kind, payload) + tail;
    BigEndian.Powers();
    BigEndian.ReadWrite(|payload| + 1, 4);
    assert stream[..4] == size;
    if |payload| <= 0x10_0000 {
      assert stream[5..5 + |payload|] == payload && stream[5 + |payload|..] == tail;
    }
  }

  /** Only `encode_frame` output of that kind and payload is read as the frame. */
  lemma FrameIsEncoded(stream: bytes)
    requires ReadFrame(stream).Frame?
    ensures var f := ReadFrame(stream);
      |f.payload| <= 0x10_0000 && stream == EncodeFrame(f.kind, f.payload) + f.rest
  {
    hide BigEndian.Write, BigEndian.Read;
    BigEndian.WriteRead(stream[..4]);
  }
}
