/**
 Reading MRCPv2 events off a byte stream (src/sandroid/adapters/mrcp/client_sim.py), and why the
 events that were written are read back whatever their bodies hold.
 */
module MrcpReader {
  import opened Bytes
  import opened Text
  import opened Mrcp
  import Splitting
  import Utf8

  /** `Starved` is a stream that ends too early, `BadMessage` any parse error. */
  datatype ReadError = Starved | LineTooLong | BadMessage

  /** The buffer limit of an asyncio stream. */
  const LIMIT := 65536

  // ---------- One message ----------

  /** The first CRLF CRLF, or -1. */
  function FindBlank(raw: bytes): (i: int)
    ensures i == -1 || 0 <= i <= |raw| - 4
  {
    if |raw| < 4 then -1
    else if raw[..4] == CRLF + CRLF then 0
    else
      var i := FindBlank(raw[1..]);
      if i == -1 then -1 else i + 1
  }

  /** Assignment to a dict: a known name keeps its place. */
  function Assign(headers: seq<Header>, name: string, value: string): seq<Header> {
    if headers == [] then [Header(name, value)]
    else if headers[0].name == name then [Header(name, value)] + headers[1..]
    else [headers[0]] + Assign(headers[1..], name, value)
  }

  /** `line.partition(":")`, without the separator. */
  function ColonAt(line: string): (n: nat)
    ensures n <= |line|
  {
    if line == [] || line[0] == ':' then 0 else 1 + ColonAt(line[1..])
  }

  function ParseHeader(headers: seq<Header>, line: string): seq<Header> {
    if line == [] then headers
    else
      var n := ColonAt(line);
      Assign(headers, Strip(line[..n]), if n < |line| then Strip(line[n + 1..]) else "")
  }

  function ParseHeaders(lines: seq<string>): seq<Header> {
    if lines == [] then []
    else
      var n := |lines| - 1;
      ParseHeader(ParseHeaders(lines[..n]), lines[n])
  }

  function ParseFrame(raw: bytes): Option<Event> {
    var end := FindBlank(raw);
    if end == -1 then None
    else
      var head := Utf8.Decode(raw[..end]);
      if head == None then None
      else
        var lines := Splitting.Split(head.value, '\r', '\n');
        var tokens := Words(lines[0], IsSpace);
        if |tokens| != 5 then None
        else
          var id := ParseNumber(tokens[3]);
          if id == None then None
          else Some(Event(tokens[2], id.value, tokens[4], ParseHeaders(lines[1..]), raw[end + 4..]))
  }

  method ParseEventFrame(raw: bytes) returns (r: Option<Event>)
    ensures r == ParseFrame(raw)
  {
    hide Utf8.Decode, Splitting.Split, Words, ParseNumber, ParseHeader;
    var headEnd := FindBlank(raw);
    if headEnd == -1 {
      return None;
    }
    var head := Utf8.Decode(raw[..headEnd]);
    if head == None {
      return None;
    }
    var lines := Splitting.Split(head.value, '\r', '\n');
    var tokens := Words(lines[0], IsSpace);
    if |tokens| != 5 {
      return None;
    }
    var headers: seq<Header> := [];
    for i := 1 to |lines|
      invariant headers == ParseHeaders(lines[1..i])
    {
      assert lines[1..i + 1][..i - 1] == lines[1..i];
      headers := ParseHeader(headers, lines[i]);
    }
    assert lines[1..|lines|] == lines[1..];
    var id := ParseNumber(tokens[3]);
    if id == None {
      return None;
    }
    r := Some(Event(tokens[2], id.value, tokens[4], headers, raw[headEnd + 4..]));
  }

  /** `int` of a byte string. */
  function ParseBytes(b: bytes): Option<int> {
    ParseNumber(seq(|b|, i requires 0 <= i < |b| => if b[i] < 0x80 then b[i] as char else '?'))
  }

  /** A start line, and the message it announces: the raw bytes and what is left of the stream. */
  datatype Piece = Piece(raw: bytes, rest: bytes)

  function ReadMessage(stream: bytes): Result<Piece, ReadError> {
    var i := Splitting.Find(stream, 13, 10);
    if i > LIMIT || (i == -1 && |stream| > LIMIT + 1) then Err(LineTooLong)
    else if i == -1 then Err(Starved)
    else
      var tokens := Words(stream[..i + 2], IsSpaceByte);
      if |tokens| < 2 then Err(BadMessage)
      else
        var length := ParseBytes(tokens[1]);
        if length == None || length.value < i + 2 then Err(BadMessage)
        else if length.value > |stream| then Err(Starved)
        else Ok(Piece(stream[..length.value], stream[length.value..]))
  }

  // ---------- The client's loop ----------

  const COMPLETE := "RECOGNITION-COMPLETE"

  /** The events up to the first RECOGNITION-COMPLETE, after those in `events`. */
  function ReadEvents(stream: bytes, events: seq<Event>): Result<seq<Event>, ReadError>
    decreases |stream|
  {
    var piece := ReadMessage(stream);
    if piece.Err? then Err(piece.error)
    else
      var event := ParseFrame(piece.value.raw);
      if event == None then Err(BadMessage)
      else if event.value.name == COMPLETE then Ok(events + [event.value])
      else
        PieceShrinks(stream);
        ReadEvents(piece.value.rest, events + [event.value])
  }

  lemma PieceShrinks(stream: bytes)
    requires ReadMessage(stream).Ok?
    ensures |ReadMessage(stream).value.rest| < |stream|
  {
  }

  method RecognizeOnce(stream: bytes) returns (r: Result<seq<Event>, ReadError>)
    ensures r == ReadEvents(stream, [])
  {
    hide ReadMessage, ParseFrame;
    var left, events := stream, [];
    var complete := false;
    while !complete
      invariant !complete ==> ReadEvents(stream, []) == ReadEvents(left, events)
      invariant complete ==> ReadEvents(stream, []) == Ok(events)
      decreases !complete, |left|
    {
      var piece := ReadMessage(left);
      if piece.Err? {
        return Err(piece.error);
      }
      PieceShrinks(left);
      left := piece.value.rest;
      var event := ParseEventFrame(piece.value.raw);
      if event == None {
        return Err(BadMessage);
      }
      events := events + [event.value];
      complete := event.value.name == COMPLETE;
    }
    r := Ok(events);
  }
}
