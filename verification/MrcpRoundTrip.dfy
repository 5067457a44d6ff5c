/** The events that were serialized are the events that are read, whatever their bodies hold. */
module MrcpRoundTrip {
  import opened Bytes
  import opened Text
  import opened Mrcp
  import opened MrcpReader
  import Splitting
  import Utf8

  // ---------- The start line ----------

  /** A word without white space, as the tokens of a start line have to be. */
  predicate Token(s: string) {
    Solid(s, IsSpace)
  }

  lemma DigitsAreToken(n: nat)
    ensures Token(Decimal(n))
  {
    hide Decimal;
    assert forall c | IsDigit(c) :: !IsSpace(c);
  }

  lemma NumberIsToken(n: int)
    ensures Token(Number(n))
  {
    if n < 0 {
      DigitsAreToken(-n);
      assert forall i | 0 < i < |Number(n)| :: Number(n)[i] == Decimal(-n)[i - 1];
    } else {
      DigitsAreToken(n);
    }
  }

  lemma StartLineWords(length: nat, e: Event)
    requires Token(e.name) && Token(e.state)
    ensures Words(StartLine(length, e.name, Fourth(e)), IsSpace) ==
      ["MRCP/2.0", Decimal(length), e.name, Number(e.requestId), e.state]
  {
    hide Words, Decimal, Number, IsSpace;
    var d, n := Decimal(length), Number(e.requestId);
    DigitsAreToken(length);
    NumberIsToken(e.requestId);
    SpaceIsSpace();
    VersionIsToken();
    WordLast(e.state, IsSpace);
    WordFirst(n, ' ', e.state, IsSpace);
    WordFirst(e.name, ' ', n + [' '] + e.state, IsSpace);
    WordFirst(d, ' ', e.name + [' '] + (n + [' '] + e.state), IsSpace);
    WordFirst("MRCP/2.0", ' ', d + [' '] + (e.name + [' '] + (n + [' '] + e.state)), IsSpace);
    assert StartLine(length, e.name, Fourth(e)) ==
      "MRCP/2.0" + [' '] + (d + [' '] + (e.name + [' '] + (n + [' '] + e.state)));
  }

  lemma SpaceIsSpace()
    ensures IsSpace(' ')
  {
  }

  lemma VersionIsToken()
    ensures Token("MRCP/2.0")
  {
  }

  // ---------- Lines without a line break ----------

  predicate OneLine(s: string) {
    Splitting.Free(s, '\r', '\n')
  }

  lemma NoFeedIsOneLine(s: string)
    requires '\n' !in s
    ensures OneLine(s)
  {
  }

  lemma {:induction false} StartLineIsOneLine(length: nat, e: Event)
    requires Token(e.name) && Token(e.state)
    ensures OneLine(StartLine(length, e.name, Fourth(e)))
  {
    hide Decimal, Number;
    DigitsAreToken(length);
    NumberIsToken(e.requestId);
    TokenHasNoFeed(Decimal(length));
    TokenHasNoFeed(Number(e.requestId));
    TokenHasNoFeed(e.name);
    TokenHasNoFeed(e.state);
    NoFeedIsOneLine(StartLine(length, e.name, Fourth(e)));
  }

  lemma TokenHasNoFeed(s: string)
    requires Token(s)
    ensures '\n' !in s
  {
    assert IsSpace('\n');
  }

  predicate HeaderOk(h: Header) {
    Trimmed(h.name) && Trimmed(h.value) && OneLine(h.name) && OneLine(h.value) && ':' !in h.name
  }

  lemma HeaderLineIsOneLine(h: Header)
    requires HeaderOk(h)
    ensures OneLine(HeaderLine(h)) && HeaderLine(h) != []
  {
    var line := HeaderLine(h);
    var n := |h.name|;
    forall j | 0 <= j && j + 2 <= |line|
      ensures !(line[j] == '\r' && line[j + 1] == '\n')
    {
      if j + 1 < n {
        assert line[j] == h.name[j] && line[j + 1] == h.name[j + 1];
      } else if j >= n + 2 {
        assert line[j] == h.value[j - n - 2] && line[j + 1] == h.value[j - n - 1];
      } else {
        assert line[n] == ':' && line[n + 1] == ' ';
      }
    }
  }

  // ---------- Headers ----------

  predicate NamesDiffer(headers: seq<Header>) {
    headers == [] ||
    var n := |headers| - 1;
    NamesDiffer(headers[..n]) && forall h | h in headers[..n] :: h.name != headers[n].name
  }

  predicate HeadersOk(headers: seq<Header>) {
    NamesDiffer(headers) && forall h | h in headers :: HeaderOk(h)
  }

  lemma {:induction false} ColonAfterName(name: string, rest: string)
    requires ':' !in name
    ensures ColonAt(name + [':'] + rest) == |name|
  {
    if name == [] {
      assert name + [':'] + rest == [':'] + rest;
    } else {
      assert name[0] in name;
      assert (name + [':'] + rest)[1..] == name[1..] + [':'] + rest;
      ColonAfterName(name[1..], rest);
    }
  }

  lemma ParsesHeader(headers: seq<Header>, h: Header)
    requires HeaderOk(h)
    ensures ParseHeader(headers, HeaderLine(h)) == Assign(headers, h.name, h.value)
  {
    hide Strip, ColonAt;
    var line := HeaderLine(h);
    assert line == h.name + [':'] + ([' '] + h.value);
    ColonAfterName(h.name, [' '] + h.value);
    assert line[..|h.name|] == h.name && line[|h.name| + 1..] == [' '] + h.value;
    StripsLead(h.name);
    StripsLead(h.value);
  }

  lemma {:induction false} AssignNew(headers: seq<Header>, name: string, value: string)
    requires forall h | h in headers :: h.name != name
    ensures Assign(headers, name, value) == headers + [Header(name, value)]
  {
    if headers != [] {
      AssignNew(headers[1..], name, value);
      assert [headers[0]] + headers[1..] == headers;
    }
  }

  function HeaderLines(headers: seq<Header>): (lines: seq<string>)
    ensures |lines| == |headers|
  {
    seq(|headers|, i requires 0 <= i < |headers| => HeaderLine(headers[i]))
  }

  lemma {:induction false} ParsesHeaders(headers: seq<Header>)
    requires HeadersOk(headers)
    ensures ParseHeaders(HeaderLines(headers)) == headers
  {
    hide ParseHeader, HeaderLine;
    if headers != [] {
      var n := |headers| - 1;
      assert HeaderLines(headers)[..n] == HeaderLines(headers[..n]);
      assert headers[n] in headers;
      ParsesHeaders(headers[..n]);
      ParsesHeader(headers[..n], headers[n]);
      AssignNew(headers[..n], headers[n].name, headers[n].value);
    }
  }

  lemma OneMoreIsOk(headers: seq<Header>, h: Header)
    requires HeadersOk(headers) && HeaderOk(h) && !Has(headers, h.name)
    ensures HeadersOk(headers + [h])
  {
    hide HeaderOk;
    assert (headers + [h])[..|headers|] == headers;
    forall g | g in headers
      ensures g.name != h.name
    {
      var i :| 0 <= i < |headers| && headers[i] == g;
    }
  }

  lemma MergedIsOk(headers: seq<Header>, body: bytes)
    requires HeadersOk(headers)
    ensures HeadersOk(Merged(headers, body))
  {
    hide HeadersOk, HeaderOk, Has, Decimal;
    LengthHeaderOk(|body|);
    if !Has(headers, "Content-Length") {
      OneMoreIsOk(headers, Header("Content-Length", Decimal(|body|)));
    }
  }

  lemma LengthHeaderOk(n: nat)
    ensures HeaderOk(Header("Content-Length", Decimal(n)))
  {
    hide Decimal, OneLine, Trimmed, Solid;
    DigitsAreToken(n);
    TokenIsPlain(Decimal(n));
    ContentLengthIsPlain();
  }

  lemma TokenIsPlain(s: string)
    requires Token(s)
    ensures Trimmed(s) && OneLine(s)
  {
    hide OneLine;
    TokenHasNoFeed(s);
    NoFeedIsOneLine(s);
  }

  lemma ContentLengthIsPlain()
    ensures Trimmed("Content-Length") && OneLine("Content-Length") && ':' !in "Content-Length"
  {
    hide OneLine;
    NoFeedIsOneLine("Content-Length");
  }

  // ---------- The head ----------

  function Encoded(lines: seq<string>): (b: seq<bytes>)
    ensures |b| == |lines|
  {
    seq(|lines|, i requires 0 <= i < |lines| => Utf8.Encode(lines[i]))
  }

  /** Lines, each with its line break. */
  function Terminated(lines: seq<bytes>): bytes {
    if lines == [] then [] else lines[0] + CRLF + Terminated(lines[1..])
  }

  predicate Lines(lines: seq<bytes>) {
    forall i | 0 <= i < |lines| :: lines[i] != [] && Splitting.Free(lines[i], 13, 10)
  }

  lemma {:induction false} JoinIsTerminated(lines: seq<bytes>)
    requires lines != []
    ensures Terminated(lines) == Splitting.Join(lines, 13, 10) + CRLF
  {
    if |lines| == 1 {
      assert lines[1..] == [];
      assert lines[0] + CRLF + [] == lines[0] + CRLF;
    } else {
      JoinIsTerminated(lines[1..]);
      var rest := Splitting.Join(lines[1..], 13, 10);
      assert lines[0] + CRLF + (rest + CRLF) == lines[0] + [13, 10] + rest + CRLF;
    }
  }

  lemma {:induction false} EncodesJoin(lines: seq<string>)
    ensures Utf8.Encode(Splitting.Join(lines, '\r', '\n')) == Splitting.Join(Encoded(lines), 13, 10)
  {
    hide Utf8.Encode;
    if |lines| > 1 {
      var rest := Splitting.Join(lines[1..], '\r', '\n');
      EncodesJoin(lines[1..]);
      assert Encoded(lines)[1..] == Encoded(lines[1..]);
      Utf8.EncodeAppends(lines[0] + ['\r', '\n'], rest);
      Utf8.EncodeAppends(lines[0], ['\r', '\n']);
      BreakEncodes();
    } else if lines == [] {
      BreakEncodes();
    }
  }

  lemma BreakEncodes()
    ensures Utf8.Encode(['\r', '\n']) == CRLF && Utf8.Encode([]) == []
  {
    assert ['\r', '\n'][1..] == ['\n'];
  }

  lemma BlankNotHere(raw: bytes)
    requires raw != [] && (|raw| >= 4 ==> raw[..4] != CRLF + CRLF)
    ensures FindBlank(raw) == if FindBlank(raw[1..]) == -1 then -1 else FindBlank(raw[1..]) + 1
  {
  }

  lemma {:induction false} BlankHere(p: bytes, body: bytes)
    requires Splitting.Free(p, 13, 10)
    ensures FindBlank(p + CRLF + CRLF + body) == |p|
    decreases p
  {
    var raw := p + CRLF + CRLF + body;
    if p != [] {
      hide FindBlank, Splitting.Free;
      FreeTail(p);
      assert raw[1..] == p[1..] + CRLF + CRLF + body;
      BlankHere(p[1..], body);
      assert raw[0] == p[0] && raw[1] == (p + CRLF)[1];
      assert |p| >= 2 ==> raw[1] == p[1];
      assert raw[..4][0] == raw[0] && raw[..4][1] == raw[1];
      BlankNotHere(raw);
    } else {
      assert raw[..4] == CRLF + CRLF;
    }
  }

  lemma FreeTail(p: bytes)
    requires p != [] && Splitting.Free(p, 13, 10)
    ensures Splitting.Free(p[1..], 13, 10) && (|p| >= 2 ==> !(p[0] == 13 && p[1] == 10))
  {
    forall j | 0 <= j && j + 2 <= |p[1..]|
      ensures !(p[1..][j] == 13 && p[1..][j + 1] == 10)
    {
      assert p[j + 1] == p[1..][j] && p[j + 2] == p[1..][j + 1];
    }
  }

  /** Past a line that is followed by another. */
  lemma {:induction false} BlankLater(p: bytes, rest: bytes)
    requires Splitting.Free(p, 13, 10) && |rest| >= 2 && rest[..2] != CRLF
    ensures FindBlank(p + CRLF + rest) == if FindBlank(rest) == -1 then -1 else |p| + 2 + FindBlank(rest)
    decreases p
  {
    hide FindBlank, Splitting.Free;
    var raw := p + CRLF + rest;
    if p == [] {
      assert raw[1..] == [10] + rest && ([10] + rest)[1..] == rest;
      assert |raw| >= 4 ==> raw[..4][2..] == rest[..2];
      BlankNotHere(raw);
      assert |rest| >= 3 ==> ([10] + rest)[..4][0] == 10;
      BlankNotHere([10] + rest);
    } else {
      FreeTail(p);
      assert raw[1..] == p[1..] + CRLF + rest;
      BlankLater(p[1..], rest);
      assert raw[0] == p[0] && raw[1] == (p + CRLF)[1];
      assert |p| >= 2 ==> raw[1] == p[1];
      assert raw[..4][0] == raw[0] && raw[..4][1] == raw[1];
      BlankNotHere(raw);
    }
  }

  lemma {:induction false} BlankAfterLines(lines: seq<bytes>, body: bytes)
    requires Lines(lines) && lines != []
    ensures FindBlank(Terminated(lines) + CRLF + body) == |Terminated(lines)| - 2
  {
    hide FindBlank, Splitting.Free;
    var p, after := lines[0], Terminated(lines[1..]);
    assert Terminated(lines) == p + CRLF + after;
    assert p + CRLF + after + CRLF + body == p + CRLF + (after + CRLF + body);
    if |lines| == 1 {
      assert lines[1..] == [];
      assert p + CRLF + ([] + CRLF + body) == p + CRLF + CRLF + body;
      BlankHere(p, body);
    } else {
      BlankAfterLines(lines[1..], body);
      NoBreakAhead(lines[1..], body);
      BlankLater(p, after + CRLF + body);
    }
  }

  lemma NoBreakAhead(lines: seq<bytes>, body: bytes)
    requires Lines(lines) && lines != []
    ensures var raw := Terminated(lines) + CRLF + body; |raw| >= 2 && raw[..2] != CRLF
  {
    hide Splitting.Free;
    var after := Terminated(lines[1..]);
    assert lines[0] + CRLF + after + CRLF + body == lines[0] + CRLF + (after + CRLF + body);
    NoBreakFirst(lines[0], after + CRLF + body);
  }

  lemma NoBreakFirst(p: bytes, rest: bytes)
    requires p != [] && Splitting.Free(p, 13, 10)
    ensures (p + CRLF + rest)[..2] != CRLF
  {
    var s := p + CRLF + rest;
    assert s[0] == p[0] && s[1] == (p + CRLF)[1];
    if |p| >= 2 {
      FreeTail(p);
      assert s[1] == p[1];
    }
    assert s[..2][0] == s[0] && s[..2][1] == s[1];
  }

  // ---------- One event ----------

  /** What `serialize_event` can write so that it is understood. */
  predicate Writable(e: Event) {
    Token(e.name) && Token(e.state) && HeadersOk(e.headers)
  }

  /** `raw` is the event's message around its own size. */
  predicate Serialized(e: Event, raw: bytes) {
    raw == Candidate(|raw|, e.name, Fourth(e), e.headers, e.body) &&
    |Utf8.Encode(StartLine(|raw|, e.name, Fourth(e)))| <= LIMIT
  }

  /** The event with the header the writer added. */
  function AsRead(e: Event): Event {
    e.(headers := Merged(e.headers, e.body))
  }

  function TextLines(length: nat, e: Event): seq<string> {
    [StartLine(length, e.name, Fourth(e))] + HeaderLines(Merged(e.headers, e.body))
  }

  lemma {:induction false} BlockIsTerminated(headers: seq<Header>)
    ensures HeaderBlock(headers) == Terminated(Encoded(HeaderLines(headers)))
  {
    hide HeaderLine, Utf8.Encode;
    if headers != [] {
      BlockIsTerminated(headers[1..]);
      assert Encoded(HeaderLines(headers))[1..] == Encoded(HeaderLines(headers[1..]));
    }
  }

  lemma CandidateIsLines(length: nat, e: Event)
    ensures Candidate(length, e.name, Fourth(e), e.headers, e.body) ==
      Terminated(Encoded(TextLines(length, e))) + CRLF + e.body
  {
    hide StartLine, HeaderLine, Utf8.Encode, HeaderBlock, Merged;
    var headers := Merged(e.headers, e.body);
    BlockIsTerminated(headers);
    assert Encoded(TextLines(length, e))[1..] == Encoded(HeaderLines(headers));
    assert Encoded(TextLines(length, e))[0] == Utf8.Encode(StartLine(length, e.name, Fourth(e)));
  }

  lemma LinesAreLines(length: nat, e: Event)
    requires Writable(e)
    ensures Lines(Encoded(TextLines(length, e)))
    ensures forall line | line in TextLines(length, e) :: OneLine(line)
  {
    hide StartLine, HeaderLine, Utf8.Encode, Merged, OneLine, HeaderOk, Token;
    var lines, headers := TextLines(length, e), Merged(e.headers, e.body);
    MergedIsOk(e.headers, e.body);
    forall i | 0 <= i < |lines|
      ensures lines[i] != [] && OneLine(lines[i])
    {
      if i == 0 {
        StartLineIsOneLine(length, e);
        StartLineIsThere(length, e);
      } else {
        assert headers[i - 1] in headers;
        HeaderLineIsOneLine(headers[i - 1]);
      }
    }
    forall i | 0 <= i < |lines|
      ensures Utf8.Encode(lines[i]) != [] && Splitting.Free(Utf8.Encode(lines[i]), 13, 10)
    {
      LineEncodes(lines[i]);
    }
  }

  lemma StartLineIsThere(length: nat, e: Event)
    ensures StartLine(length, e.name, Fourth(e)) != []
  {
  }

  lemma LineEncodes(line: string)
    requires line != [] && OneLine(line)
    ensures Utf8.Encode(line) != [] && Splitting.Free(Utf8.Encode(line), 13, 10)
  {
    hide Splitting.Free;
    Utf8.FreeEncodes(line);
  }

  lemma ParsesFrame(e: Event, raw: bytes)
    requires Writable(e) && Serialized(e, raw)
    ensures ParseFrame(raw) == Some(AsRead(e))
  {
    hide Candidate, StartLine, Utf8.Encode, Utf8.Decode, FindBlank, Words, Merged, HeadersOk, Token, OneLine, Lines;
    hide Terminated, Encoded, Splitting.Join, Splitting.Split, ParseNumber, ParseHeaders, HeaderLines, Number, Decimal;
    var lines := TextLines(|raw|, e);
    var b := Encoded(lines);
    var head := Splitting.Join(b, 13, 10);
    CandidateIsLines(|raw|, e);
    LinesAreLines(|raw|, e);
    BlankAfterLines(b, e.body);
    JoinIsTerminated(b);
    assert raw == head + CRLF + CRLF + e.body;
    assert raw[..|head|] == head && raw[|head| + 4..] == e.body;
    EncodesJoin(lines);
    Utf8.EncodeThenDecode(Splitting.Join(lines, '\r', '\n'));
    SplitsBack(lines);
    StartLineWords(|raw|, e);
    ParsesNumber(e.requestId);
    MergedIsOk(e.headers, e.body);
    ParsesHeaders(Merged(e.headers, e.body));
    assert lines[1..] == HeaderLines(Merged(e.headers, e.body));
  }

  lemma SplitsBack(lines: seq<string>)
    requires lines != [] && forall line | line in lines :: OneLine(line)
    ensures Splitting.Split(Splitting.Join(lines, '\r', '\n'), '\r', '\n') == lines
  {
    Splitting.SplitJoin(lines, '\r', '\n');
  }

  // ---------- The stream ----------

  lemma ParsesBytes(n: nat)
    ensures Solid(Utf8.Encode(Decimal(n)), IsSpaceByte) && ParseBytes(Utf8.Encode(Decimal(n))) == Some(n)
  {
    hide Decimal, ParseNumber, Utf8.Encode;
    var s := Decimal(n);
    AsciiBytes(s);
    var b := Utf8.Encode(s);
    assert seq(|b|, i requires 0 <= i < |b| => if b[i] < 0x80 then b[i] as char else '?') == s;
    ParsesNumber(n);
    NumberOfNat(n);
  }

  lemma NumberOfNat(n: nat)
    ensures Number(n) == Decimal(n)
  {
  }

  lemma {:induction false} AsciiBytes(s: string)
    requires forall i | 0 <= i < |s| :: s[i] as int < 0x80
    ensures |Utf8.Encode(s)| == |s| && forall i | 0 <= i < |s| :: Utf8.Encode(s)[i] == s[i] as int
  {
    if s != [] {
      assert forall i | 0 <= i < |s[1..]| :: s[1..][i] == s[i + 1];
      AsciiBytes(s[1..]);
    }
  }

  /** The client's view of the start line: its second word is the length. */
  lemma LengthToken(length: nat, e: Event)
    ensures var tokens := Words(Utf8.Encode(StartLine(length, e.name, Fourth(e))) + CRLF, IsSpaceByte);
      |tokens| >= 2 && ParseBytes(tokens[1]) == Some(length)
  {
    hide Words, Decimal, Utf8.Encode, ParseBytes, Number;
    var version, rest := "MRCP/2.0", e.name + " " + Fourth(e);
    var v, d, r := Utf8.Encode(version), Utf8.Encode(Decimal(length)), Utf8.Encode(rest);
    ParsesBytes(length);
    VersionBytes();
    GapEncodes();
    assert StartLine(length, e.name, Fourth(e)) == version + [' '] + (Decimal(length) + [' '] + rest);
    Utf8.EncodeAppends(version + [' '], Decimal(length) + [' '] + rest);
    Utf8.EncodeAppends(version, [' ']);
    Utf8.EncodeAppends(Decimal(length) + [' '], rest);
    Utf8.EncodeAppends(Decimal(length), [' ']);
    assert v + [32] + (d + [32] + r) + CRLF == v + [32] + (d + [32] + (r + CRLF));
    WordFirst(v, 32, d + [32] + (r + CRLF), IsSpaceByte);
    WordFirst(d, 32, r + CRLF, IsSpaceByte);
  }

  lemma VersionBytes()
    ensures Solid(Utf8.Encode("MRCP/2.0"), IsSpaceByte)
  {
    AsciiBytes("MRCP/2.0");
  }

  lemma GapEncodes()
    ensures Utf8.Encode([' ']) == [32]
  {
  }

  /** A message is its start line and the rest. */
  function AfterStart(e: Event): bytes {
    HeaderBlock(Merged(e.headers, e.body)) + CRLF + e.body
  }

  lemma CandidateStarts(length: nat, e: Event)
    ensures Candidate(length, e.name, Fourth(e), e.headers, e.body) ==
      Utf8.Encode(StartLine(length, e.name, Fourth(e))) + CRLF + AfterStart(e)
  {
    hide StartLine, Utf8.Encode, HeaderBlock, Merged, Fourth;
  }

  lemma Cut(start: bytes, after: bytes, tail: bytes)
    ensures var raw := start + CRLF + after;
      raw + tail == start + CRLF + (after + tail) && (raw + tail)[..|start| + 2] == start + CRLF &&
      (raw + tail)[..|raw|] == raw && (raw + tail)[|raw|..] == tail
  {
  }

  lemma ReadsMessage(e: Event, raw: bytes, tail: bytes)
    requires Writable(e) && Serialized(e, raw)
    ensures ReadMessage(raw + tail) == Ok(Piece(raw, tail))
  {
    hide StartLine, Utf8.Encode, Candidate, AfterStart, Words, ParseBytes, Writable, Splitting.Find, Splitting.Free,
      Fourth;
    var start := Utf8.Encode(StartLine(|raw|, e.name, Fourth(e)));
    StartIsLine(|raw|, e);
    CandidateStarts(|raw|, e);
    Cut(start, AfterStart(e), tail);
    Splitting.FindAfter(start, 13, 10, AfterStart(e) + tail);
    LengthToken(|raw|, e);
  }

  lemma StartIsLine(length: nat, e: Event)
    requires Writable(e)
    ensures Splitting.Free(Utf8.Encode(StartLine(length, e.name, Fourth(e))), 13, 10)
  {
    hide StartLine, Utf8.Encode, Splitting.Free, Token, HeadersOk;
    StartLineIsOneLine(length, e);
    StartLineIsThere(length, e);
    LineEncodes(StartLine(length, e.name, Fourth(e)));
  }

  /** Events and their messages, one after the other. */
  predicate AllSerialized(events: seq<Event>, raws: seq<bytes>) {
    |events| == |raws| && forall i | 0 <= i < |events| :: Writable(events[i]) && Serialized(events[i], raws[i])
  }

  function Concatenated(raws: seq<bytes>): bytes {
    if raws == [] then [] else raws[0] + Concatenated(raws[1..])
  }

  /** The events as read, up to and with the first RECOGNITION-COMPLETE; all of them if there is none. */
  function UpToComplete(events: seq<Event>): seq<Event> {
    if events == [] then []
    else if events[0].name == COMPLETE then [AsRead(events[0])]
    else [AsRead(events[0])] + UpToComplete(events[1..])
  }

  predicate Completes(events: seq<Event>) {
    exists i :: 0 <= i < |events| && events[i].name == COMPLETE
  }

  lemma {:induction false} ReadsAll(events: seq<Event>, raws: seq<bytes>, tail: bytes, sofar: seq<Event>)
    requires AllSerialized(events, raws)
    ensures ReadEvents(Concatenated(raws) + tail, sofar) ==
      if Completes(events) then Ok(sofar + UpToComplete(events))
      else ReadEvents(tail, sofar + UpToComplete(events))
    decreases |events|
  {
    hide ReadMessage, ParseFrame, Writable, Serialized, AsRead;
    if events == [] {
      assert [] + tail == tail && sofar + [] == sofar;
    } else {
      var e, rest := events[0], Concatenated(raws[1..]);
      assert Concatenated(raws) + tail == raws[0] + (rest + tail);
      ReadsMessage(e, raws[0], rest + tail);
      ParsesFrame(e, raws[0]);
      NameIsRead(e);
      if e.name != COMPLETE {
        ReadsAll(events[1..], raws[1..], tail, sofar + [AsRead(e)]);
        CompletesLater(events);
        assert sofar + [AsRead(e)] + UpToComplete(events[1..]) == sofar + UpToComplete(events);
      }
    }
  }

  lemma NameIsRead(e: Event)
    ensures AsRead(e).name == e.name
  {
  }

  lemma CompletesLater(events: seq<Event>)
    requires events != [] && events[0].name != COMPLETE
    ensures Completes(events) <==> Completes(events[1..])
  {
    if Completes(events) {
      var i :| 0 <= i < |events| && events[i].name == COMPLETE;
      assert events[1..][i - 1].name == COMPLETE;
    }
    if Completes(events[1..]) {
      var i :| 0 <= i < |events[1..]| && events[1..][i].name == COMPLETE;
      assert events[i + 1].name == COMPLETE;
    }
  }

  /**
   From the concatenation of any serialized events, with anything after it, the client recovers the
   events up to the first RECOGNITION-COMPLETE, with the Content-Length that was added, whatever
   bytes the bodies hold.
   */
  lemma EventsRoundTrip(events: seq<Event>, raws: seq<bytes>, tail: bytes)
    requires AllSerialized(events, raws) && Completes(events)
    ensures ReadEvents(Concatenated(raws) + tail, []) == Ok(UpToComplete(events))
  {
    hide ReadEvents, AllSerialized, Completes, UpToComplete;
    ReadsAll(events, raws, tail, []);
    assert [] + UpToComplete(events) == UpToComplete(events);
  }

  /**
   The event as the client has it: the same, except that one with a body and without a Content-Length
   has gained that header, last, and its value is the size of the body.
   */
  predicate ComesBack(e: Event, back: Event) {
    back.name == e.name && back.requestId == e.requestId && back.state == e.state && back.body == e.body &&
    if e.body == [] || Has(e.headers, "Content-Length") then back.headers == e.headers
    else
      var n := |e.headers|;
      |back.headers| == n + 1 && back.headers[..n] == e.headers &&
      back.headers[n].name == "Content-Length" && ParseNumber(back.headers[n].value) == Some(|e.body|)
  }

  lemma ReadComesBack(e: Event)
    ensures ComesBack(e, AsRead(e))
  {
    hide Decimal, ParseNumber, Has;
    ParsesNumber(|e.body|);
    var h := Header("Content-Length", Decimal(|e.body|));
    assert (e.headers + [h])[..|e.headers|] == e.headers;
  }

  lemma {:induction false} CompletesAt(events: seq<Event>) returns (n: nat)
    requires Completes(events)
    ensures n < |events| && events[n].name == COMPLETE && forall k | 0 <= k < n :: events[k].name != COMPLETE
    ensures UpToComplete(events) == seq(n + 1, k requires 0 <= k <= n => AsRead(events[k]))
  {
    hide AsRead;
    if events[0].name == COMPLETE {
      n := 0;
    } else {
      CompletesLater(events);
      n := CompletesAt(events[1..]);
      n := n + 1;
    }
  }

  /** The events that the client gets are those that were written, up to the first RECOGNITION-COMPLETE. */
  ghost predicate Received(events: seq<Event>, back: seq<Event>) {
    0 < |back| <= |events| && events[|back| - 1].name == COMPLETE &&
    (forall k | 0 <= k < |back| - 1 :: events[k].name != COMPLETE) &&
    forall k | 0 <= k < |back| :: ComesBack(events[k], back[k])
  }

  /** `EventsRoundTrip`, event by event. */
  lemma EventsComeBack(events: seq<Event>, raws: seq<bytes>, tail: bytes)
    requires AllSerialized(events, raws) && Completes(events)
    ensures var r := ReadEvents(Concatenated(raws) + tail, []); r.Ok? && Received(events, r.value)
  {
    hide ReadEvents, AllSerialized, Completes, UpToComplete, ComesBack, AsRead;
    EventsRoundTrip(events, raws, tail);
    var n := CompletesAt(events);
    forall k | 0 <= k <= n
      ensures ComesBack(events[k], AsRead(events[k]))
    {
      ReadComesBack(events[k]);
    }
  }

  // ---------- A stream that is cut off ----------

  lemma CutStart(start: bytes, after: bytes, n: nat)
    requires Splitting.Free(start, 13, 10) && n < |start + CRLF + after|
    ensures Splitting.Find((start + CRLF + after)[..n], 13, 10) == if n < |start| + 2 then -1 else |start|
    ensures n >= |start| + 2 ==> (start + CRLF + after)[..n][..|start| + 2] == start + CRLF
  {
    hide Splitting.Free;
    var raw := start + CRLF + after;
    Splitting.FindAfter(start, 13, 10, after);
    if n >= |start| + 2 {
      assert raw[..n] == start + CRLF + after[..n - |start| - 2];
      Splitting.FindAfter(start, 13, 10, after[..n - |start| - 2]);
    }
  }

  lemma CutMessage(e: Event, raw: bytes, n: nat)
    requires Writable(e) && Serialized(e, raw) && n < |raw|
    ensures ReadMessage(raw[..n]) == Err(Starved)
  {
    hide StartLine, Utf8.Encode, Candidate, AfterStart, Words, ParseBytes, Writable, Splitting.Find, Splitting.Free,
      Fourth;
    var start := Utf8.Encode(StartLine(|raw|, e.name, Fourth(e)));
    StartIsLine(|raw|, e);
    CandidateStarts(|raw|, e);
    CutStart(start, AfterStart(e), n);
    LengthToken(|raw|, e);
  }

  /** Wherever a stream ends before the first RECOGNITION-COMPLETE is whole, the client notices that it ended. */
  lemma {:induction false} CutStreamStarves(events: seq<Event>, raws: seq<bytes>, n: nat, sofar: seq<Event>)
    requires AllSerialized(events, raws) && (forall i | 0 <= i < |events| - 1 :: events[i].name != COMPLETE)
    requires n < |Concatenated(raws)|
    ensures ReadEvents(Concatenated(raws)[..n], sofar) == Err(Starved)
    decreases |events|
  {
    hide ReadMessage, ParseFrame, Writable, Serialized, AsRead;
    var e, raw, rest := events[0], raws[0], Concatenated(raws[1..]);
    if n < |raw| {
      assert (raw + rest)[..n] == raw[..n];
      CutMessage(e, raw, n);
    } else {
      var m := n - |raw|;
      assert (raw + rest)[..n] == raw + rest[..m];
      ReadsMessage(e, raw, rest[..m]);
      ParsesFrame(e, raw);
      NameIsRead(e);
      CutStreamStarves(events[1..], raws[1..], m, sofar + [AsRead(e)]);
    }
  }
}
