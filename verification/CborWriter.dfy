/**
 The plugin's CBOR writer over a fixed buffer, and the START frame it prepares
 (native/unimrcp-plugin/src/bridge_client.c).
 */
module CborWriter {
  import opened Bytes
  import BigEndian
  import Utf8
  import Cbor
  import CborRoundTrip

  const START_KIND: byte := 0x01

  class Writer {
    const buf: array<byte>
    var len: nat

    ghost predicate Valid()
      reads this
    {
      len <= buf.Length
    }

    /** What has been written. */
    ghost function Contents(): bytes
      requires Valid()
      reads this, buf
    {
      buf[..len]
    }

    constructor (capacity: nat)
      ensures Valid() && fresh(buf) && buf.Length == capacity && Contents() == []
    {
      buf := new byte[capacity];
      len := 0;
    }

    /** `cbor_put`: all of `src`, or nothing and a negative value. */
    method Put(src: bytes) returns (rc: int)
      requires Valid()
      modifies this`len, buf
      ensures Valid()
      ensures old(len) + |src| <= buf.Length ==> rc == 0 && Contents() == old(Contents()) + src
      ensures old(len) + |src| > buf.Length ==> rc == -1 && Contents() == old(Contents())
    {
      if len + |src| > buf.Length {
        return -1;
      }
      for i := 0 to |src|
        invariant len == old(len) && buf[..len] == old(buf[..len])
        invariant buf[len..len + i] == src[..i]
      {
        buf[len + i] := src[i];
      }
      len := len + |src|;
      rc := 0;
    }

    /**
     `cbor_write_head`. When a head of more than one byte does not fit the result is 1, which the
     callers do not take for a failure; but then at most three bytes of the buffer are left.
     */
    method WriteHead(major: nat, val: nat) returns (rc: int)
      requires Valid() && major < 8 && val < 0x1_0000_0000_0000_0000
      modifies this`len, buf
      ensures Valid() && old(len) <= len
      ensures rc == 0 <==> val <= 0xFFFF_FFFF && old(len) + |Cbor.EncodeHead(major, val)| <= buf.Length
      ensures rc == 0 ==> Contents() == old(Contents()) + Cbor.EncodeHead(major, val)
      ensures rc > 0 ==> val >= 24 && buf.Length - len <= 3
    {
      if val < 24 {
        rc := Put([major * 32 + val]);
        return;
      }
      if val > 0xFFFF_FFFF {
        return -1;
      }
      var info, width := 26, 4;
      if val <= 0xFF {
        info, width := 24, 1;
      } else if val <= 0xFFFF {
        info, width := 25, 2;
      }
      rc := PutBoth(major * 32 + info, BigEndian.Write(val, width));
    }

    /** `cbor_put(w, &b, 1) || cbor_put(w, v, n)`. */
    method PutBoth(b: byte, v: bytes) returns (rc: int)
      requires Valid() && |v| <= 4
      modifies this`len, buf
      ensures Valid() && old(len) <= len
      ensures rc == if old(len) + 1 + |v| <= buf.Length then 0 else 1
      ensures rc == 0 ==> Contents() == old(Contents()) + ([b] + v)
      ensures rc == 1 ==> buf.Length - len <= 3
    {
      rc := Put([b]);
      if rc != 0 {
        return 1;
      }
      rc := Put(v);
      if rc != 0 {
        return 1;
      }
    }

    /** `cbor_tstr`: negative exactly when the text does not fit. */
    method WriteText(s: bytes) returns (rc: int)
      requires Valid() && |s| < 0x1_0000_0000_0000_0000
      requires buf.Length <= 0xFFFF_FFFF
      modifies this`len, buf
      ensures Valid() && old(len) <= len
      ensures rc == 0 || rc < 0
      ensures rc == 0 <==> old(len) + |TextItem(s)| <= buf.Length
      ensures rc == 0 ==> Contents() == old(Contents()) + TextItem(s)
    {
      rc := WriteHead(3, |s|);
      if rc < 0 {
        return -1;
      }
      rc := Put(s);
    }

    /** A key and its text, as one condition of `sbr_send_start` writes them. */
    method WriteTextPair(key: bytes, value: bytes) returns (ok: bool)
      requires Valid() && Cbor.Fits(|key|) && Cbor.Fits(|value|) && buf.Length <= 0xFFFF_FFFF
      modifies this`len, buf
      ensures Valid() && old(len) <= len
      ensures ok <==> old(len) + |TextItem(key)| + |TextItem(value)| <= buf.Length
      ensures ok ==> Contents() == old(Contents()) + TextItem(key) + TextItem(value)
    {
      hide TextItem;
      var rc := WriteText(key);
      if rc < 0 {
        return false;
      }
      rc := WriteText(value);
      ok := !(rc < 0);
    }

    /** A key and its number. When the number did not fit this goes on, with hardly any room left. */
    method WriteNumberPair(key: bytes, value: nat) returns (ok: bool)
      requires Valid() && Cbor.Fits(|key|) && value <= 0xFFFF_FFFF && buf.Length <= 0xFFFF_FFFF
      modifies this`len, buf
      ensures Valid() && old(len) <= len
      ensures var fits := old(len) + |TextItem(key)| + |Cbor.EncodeHead(0, value)| <= buf.Length;
        (fits ==> ok && Contents() == old(Contents()) + TextItem(key) + Cbor.EncodeHead(0, value)) &&
        (!fits && ok ==> buf.Length - len <= 3)
    {
      hide TextItem, Cbor.EncodeHead;
      var rc := WriteText(key);
      if rc < 0 {
        return false;
      }
      rc := WriteHead(0, value);
      ok := !(rc < 0);
    }
  }

  /** A text string of these bytes. */
  function TextItem(s: bytes): bytes
    requires Cbor.Fits(|s|)
  {
    Cbor.EncodeHead(3, |s|) + s
  }

  /** A C string, or the default for a null pointer. */
  function OrElse(s: Option<bytes>, otherwise: bytes): bytes {
    if s == None then otherwise else s.value
  }

  predicate IsAscii(s: string) {
    forall i | 0 <= i < |s| :: s[i] as int < 0x80
  }

  /** The bytes of a C literal. */
  function Literal(s: string): (b: bytes)
    requires IsAscii(s)
    ensures |b| == |s|
  {
    seq(|s|, i requires 0 <= i < |s| => s[i] as int)
  }

  const CHANNEL_ID := Literal("channel_id")
  const SESSION_ID := Literal("session_id")
  const SAMPLE_RATE := Literal("sample_rate")
  const CODEC := Literal("codec")
  const LPCM := Literal("LPCM")

  /** The whole START payload, however long. */
  function StartPayload(channel: bytes, session: bytes, rate: nat, codec: bytes): bytes
    requires Cbor.Fits(|channel|) && Cbor.Fits(|session|) && Cbor.Fits(rate) && Cbor.Fits(|codec|)
  {
    Cbor.EncodeHead(5, 4) +
    TextItem(CHANNEL_ID) + TextItem(channel) + TextItem(SESSION_ID) + TextItem(session) +
    TextItem(SAMPLE_RATE) + Cbor.EncodeHead(0, rate) + TextItem(CODEC) + TextItem(codec)
  }

  predicate CString(s: Option<bytes>) {
    s.Some? ==> Cbor.Fits(|s.value|)
  }

  /**
   `sbr_send_start`: what it hands to its writes, or `None` when it gives up before them. It gets
   there exactly when the complete payload fits in 512 bytes.
   */
  method SendStart(channel: Option<bytes>, session: Option<bytes>, rate: nat, codec: Option<bytes>)
    returns (r: Option<bytes>)
    requires CString(channel) && CString(session) && CString(codec) && rate <= 0xFFFF_FFFF
    ensures var payload := StartPayload(OrElse(channel, []), OrElse(session, []), rate, OrElse(codec, LPCM));
      r == if |payload| <= 512 then Some(CborRoundTrip.EncodeFrame(START_KIND, payload)) else None
  {
    hide TextItem, Cbor.EncodeHead, Literal, BigEndian.Write;
    CodecTakesSix();
    MapHeadTakesOne();
    var w := new Writer(512);
    var rc := w.WriteHead(5, 4);
    if rc < 0 {
      return None;
    }
    assert [] + Cbor.EncodeHead(5, 4) == Cbor.EncodeHead(5, 4);
    var ok := w.WriteTextPair(CHANNEL_ID, OrElse(channel, []));
    if !ok {
      return None;
    }
    ok := w.WriteTextPair(SESSION_ID, OrElse(session, []));
    if !ok {
      return None;
    }
    ok := w.WriteNumberPair(SAMPLE_RATE, rate);
    if !ok {
      return None;
    }
    ok := w.WriteTextPair(CODEC, OrElse(codec, LPCM));
    if !ok {
      return None;
    }
    r := Some(BigEndian.Write(w.len + 1, 4) + [START_KIND] + w.buf[..w.len]);
  }

  lemma CodecTakesSix()
    ensures |TextItem(CODEC)| == 6
  {
  }

  lemma MapHeadTakesOne()
    ensures |Cbor.EncodeHead(5, 4)| == 1
  {
  }

  // ---------- What the bridge reads ----------

  /** The START map, as the bridge's own encoder would be given it. */
  function StartPairs(channel: string, session: string, rate: nat, codec: string): seq<Cbor.Pair> {
    [Cbor.Pair("channel_id", Cbor.Str(channel)), Cbor.Pair("session_id", Cbor.Str(session)),
     Cbor.Pair("sample_rate", Cbor.Int(rate)), Cbor.Pair("codec", Cbor.Str(codec))]
  }

  lemma {:induction false} LiteralEncodes(s: string)
    requires IsAscii(s)
    ensures Utf8.Encode(s) == Literal(s)
  {
    if s != [] {
      assert IsAscii(s[1..]) by {
        assert forall i | 0 <= i < |s[1..]| :: s[1..][i] == s[i + 1];
      }
      LiteralEncodes(s[1..]);
      assert Literal(s) == [s[0] as int] + Literal(s[1..]);
    }
  }

  lemma NoPairs()
    ensures Cbor.AllFit([]) && CborRoundTrip.KeysDiffer([]) && Cbor.EncodePairs([]) == []
  {
  }

  lemma FourTakeOne()
    ensures Cbor.EncodeHead(5, 4) == [0xA0 + 4]
  {
  }

  lemma Snoc(head: bytes, m: seq<Cbor.Pair>, p: Cbor.Pair)
    requires Cbor.AllFit(m) && Cbor.PairFits(p) && CborRoundTrip.KeysDiffer(m)
    requires forall q | q in m :: q.key != p.key
    ensures Cbor.AllFit(m + [p]) && CborRoundTrip.KeysDiffer(m + [p])
    ensures head + Cbor.EncodePairs(m + [p]) ==
      head + Cbor.EncodePairs(m) + Cbor.EncodeText(p.key) + Cbor.EncodeField(p.field)
  {
    hide Cbor.EncodeText, Cbor.EncodeField, Cbor.TextFits, Cbor.FieldFits;
    assert (m + [p])[..|m|] == m;
    var pairs, key, field := Cbor.EncodePairs(m), Cbor.EncodeText(p.key), Cbor.EncodeField(p.field);
    assert head + (pairs + key + field) == head + pairs + key + field;
  }

  lemma NamesDiffer()
    ensures var c, s, r, d := "channel_id", "session_id", "sample_rate", "codec";
      c != s && c != r && c != d && s != r && s != d && r != d
  {
    assert "channel_id"[0] != "session_id"[0];
    assert |"sample_rate"| == 11 && |"codec"| == 5;
  }

  /** With ids in UTF-8, the plugin's writer and the bridge's encoder produce the same bytes. */
  lemma SameBytes(channel: string, session: string, rate: nat, codec: string)
    requires Cbor.TextFits(channel) && Cbor.TextFits(session) && Cbor.TextFits(codec) && Cbor.Fits(rate)
    ensures var m := StartPairs(channel, session, rate, codec);
      Cbor.AllFit(m) && CborRoundTrip.KeysDiffer(m) &&
      StartPayload(Utf8.Encode(channel), Utf8.Encode(session), rate, Utf8.Encode(codec)) == Cbor.EncodeMap(m)
  {
    hide Utf8.Encode, Cbor.EncodeHead, Cbor.EncodePairs, Cbor.AllFit, CborRoundTrip.KeysDiffer, Literal;
    LiteralEncodes("channel_id");
    LiteralEncodes("session_id");
    LiteralEncodes("sample_rate");
    LiteralEncodes("codec");
    NoPairs();
    NamesDiffer();
    FourTakeOne();
    var m := StartPairs(channel, session, rate, codec);
    var head := Cbor.EncodeHead(5, 4);
    assert head + [] == head;
    Snoc(head, [], m[0]);
    assert [] + [m[0]] == [m[0]];
    Snoc(head, [m[0]], m[1]);
    assert [m[0]] + [m[1]] == [m[0], m[1]];
    Snoc(head, [m[0], m[1]], m[2]);
    assert [m[0], m[1]] + [m[2]] == [m[0], m[1], m[2]];
    Snoc(head, [m[0], m[1], m[2]], m[3]);
    assert [m[0], m[1], m[2]] + [m[3]] == m;
  }

  /** So the bridge reads back exactly the four entries, whatever follows the payload. */
  lemma StartIsRead(channel: string, session: string, rate: nat, codec: string, tail: bytes)
    requires Cbor.TextFits(channel) && Cbor.TextFits(session) && Cbor.TextFits(codec) && Cbor.Fits(rate)
    ensures var payload := StartPayload(Utf8.Encode(channel), Utf8.Encode(session), rate, Utf8.Encode(codec));
      var m := StartPairs(channel, session, rate, codec);
      Cbor.AllFit(m) &&
      Cbor.Decode(payload + tail) == Ok(Cbor.Item(Cbor.Map(CborRoundTrip.AsEntries(m)), |payload|))
  {
    hide Cbor.Decode, Cbor.EncodeMap, StartPayload, Cbor.AllFit, CborRoundTrip.KeysDiffer, CborRoundTrip.AsEntries;
    SameBytes(channel, session, rate, codec);
    CborRoundTrip.MapRoundTrip(StartPairs(channel, session, rate, codec), tail);
  }
}
