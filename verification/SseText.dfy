/**
  The event stream as text: written by the server, read line by line by the e-ink node.
 */
module SseText {
  import opened Ring
  import Text

  // ----- writing

  /** Every "\r\n" becomes "\n". */
  function Normalize(data: string): string {
    if |data| < 2 then data
    else if data[0] == '\r' && data[1] == '\n' then "\n" + Normalize(data[2..])
    else [data[0]] + Normalize(data[1..])
  }

  function FormatOf(e: Event): string {
    "event: " + e.kind + "\n" + (if e.id != "" then "id: " + e.id + "\n" else "") + "data: " + Normalize(e.data) + "\n\n"
  }

  /** The text of an event; for a transmittable one, a line for each of kind, id and data and an empty line. */
  method Format(e: Event) returns (buf: string)
    ensures buf == FormatOf(e)
    ensures Transmittable(e) ==> Lines(buf) == BlockLines(e) + [""]
    ensures Transmittable(e) ==> buf == "event: " + e.kind + "\nid: " + e.id + "\ndata: " + e.data + "\n\n"
  {
    hide Lines, BlockLines, Transmittable, Normalize;
    buf := "event: ";
    buf := buf + e.kind;
    buf := buf + "\n";
    if e.id != "" {
      buf := buf + "id: ";
      buf := buf + e.id;
      buf := buf + "\n";
    }
    buf := buf + "data: ";
    buf := buf + Normalize(e.data);
    buf := buf + "\n\n";
    assert buf == FormatOf(e);
    if Transmittable(e) {
      CleanText(e);
      EventLines(e, "");
      NothingLeft(buf, BlockLines(e) + [""]);
    }
  }

  lemma CleanText(e: Event)
    requires Transmittable(e)
    ensures FormatOf(e) == "event: " + e.kind + "\nid: " + e.id + "\ndata: " + e.data + "\n\n"
  {
    hide Normalize;
    NormalizeClean(e.data);
    assert "\nid: " == "\n" + "id: " && "\ndata: " == "\n" + "data: ";
  }

  lemma NothingLeft(text: string, lines: seq<string>)
    requires Lines(text + "") == lines + Lines("")
    ensures Lines(text) == lines
  {
    assert text + "" == text && lines + [] == lines;
  }

  function FormatPing(unixSeconds: nat): string {
    ": ping " + Text.Decimal(unixSeconds) + "\n\n"
  }

  datatype Item = Message(event: Event) | Ping(unixSeconds: nat)

  function Written(items: seq<Item>): string {
    if items == [] then ""
    else (match items[0] case Message(e) => FormatOf(e) case Ping(t) => FormatPing(t)) + Written(items[1..])
  }

  // ----- reading: lines

  /** The position of the first line feed, or the length. */
  function LineEnd(s: string): (n: nat)
    ensures n <= |s| && (n < |s| ==> s[n] == '\n') && forall i :: 0 <= i < n ==> s[i] != '\n'
  {
    if s == "" || s[0] == '\n' then 0 else 1 + LineEnd(s[1..])
  }

  /** The lines of a text, without their line feeds; the text may end in the middle of a line. */
  function Lines(s: string): seq<string> {
    if s == "" then []
    else
      var n := LineEnd(s);
      if n == |s| then [s] else [s[..n]] + Lines(s[n + 1..])
  }

  /** The line without trailing carriage returns and line feeds. */
  function StripEnd(s: string): (r: string)
    ensures r <= s && (r == "" || (r[|r| - 1] != '\r' && r[|r| - 1] != '\n'))
    ensures s == "" || (s[|s| - 1] != '\r' && s[|s| - 1] != '\n') ==> r == s
  {
    if s != "" && (s[|s| - 1] == '\r' || s[|s| - 1] == '\n') then StripEnd(s[..|s| - 1]) else s
  }

  // ----- reading: blocks

  datatype Option<+T> = None | Some(value: T)

  datatype Field = Field(name: string, value: string)

  function ColonAt(line: string): (n: nat)
    ensures n <= |line| && (n < |line| ==> line[n] == ':')
    ensures forall i :: 0 <= i < n ==> line[i] != ':'
  {
    if line == "" || line[0] == ':' then 0 else 1 + ColonAt(line[1..])
  }

  /** The field a line sets; one space after the colon is not part of the value. */
  function FieldOf(line: string): Field {
    var n := ColonAt(line);
    if n == |line| then Field(line, "")
    else
      var value := line[n + 1..];
      Field(line[..n], if value != "" && value[0] == ' ' then value[1..] else value)
  }

  /** What the lines of a block have set so far. */
  datatype Block = Block(kind: Option<string>, id: Option<string>, data: seq<string>)

  const EMPTY_BLOCK := Block(None, None, [])

  function ReadLine(b: Block, rawLine: string): Block {
    var line := StripEnd(rawLine);
    if line == "" || line[0] == ':' then b
    else
      var f := FieldOf(line);
      if f.name == "event" then b.(kind := Some(f.value))
      else if f.name == "id" then b.(id := Some(f.value))
      else if f.name == "data" then b.(data := b.data + [f.value])
      else b
  }

  function ReadBlock(lines: seq<string>): Block {
    if lines == [] then EMPTY_BLOCK else ReadLine(ReadBlock(lines[..|lines| - 1]), lines[|lines| - 1])
  }

  function Join(parts: seq<string>): string {
    if parts == [] then ""
    else if |parts| == 1 then parts[0]
    else Join(parts[..|parts| - 1]) + "\n" + parts[|parts| - 1]
  }

  /** An event as the listener hands it on. */
  datatype Received = Received(kind: string, id: Option<string>, data: string)

  predicate HasContent(b: Block) {
    b.kind.Some? || b.data != [] || b.id.Some?
  }

  function AsReceived(b: Block): Received {
    Received(if b.kind.Some? then b.kind.value else "message", b.id, Join(b.data))
  }

  method ParseSseBlock(lines: seq<string>) returns (hasContent: bool, r: Received)
    ensures hasContent == HasContent(ReadBlock(lines)) && r == AsReceived(ReadBlock(lines))
  {
    var eventType, eventId, dataParts := "message", None, [];
    var hasEvent, hasData, hasId := false, false, false;
    for i := 0 to |lines|
      invariant ReadBlock(lines[..i]) == Block(if hasEvent then Some(eventType) else None, eventId, dataParts)
      invariant !hasEvent ==> eventType == "message"
      invariant hasData <==> dataParts != []
      invariant hasId <==> eventId.Some?
    {
      assert lines[..i + 1][..i] == lines[..i];
      var line := StripEnd(lines[i]);
      if line == "" || line[0] == ':' {
        continue;
      }
      var f := FieldOf(line);
      if f.name == "event" {
        eventType, hasEvent := f.value, true;
      } else if f.name == "id" {
        eventId, hasId := Some(f.value), true;
      } else if f.name == "data" {
        dataParts, hasData := dataParts + [f.value], true;
      }
    }
    assert lines[..|lines|] == lines;
    return hasEvent || hasData || hasId, Received(eventType, eventId, Join(dataParts));
  }

  // ----- reading: the stream

  datatype Reader = Reader(buffer: seq<string>, lastId: Option<string>, received: seq<Received>)

  function Dispatch(st: Reader): Reader {
    var b := ReadBlock(st.buffer);
    if st.buffer == [] || !HasContent(b) then st.(buffer := [])
    else Reader([], if b.id.Some? then b.id else st.lastId, st.received + [AsReceived(b)])
  }

  function ReadStreamLine(st: Reader, line: string): Reader {
    if StripEnd(line) == "" then Dispatch(st) else st.(buffer := st.buffer + [StripEnd(line)])
  }

  function ReadLines(st: Reader, lines: seq<string>): Reader
    decreases |lines|
  {
    if lines == [] then st else ReadLines(ReadStreamLine(st, lines[0]), lines[1..])
  }

  class SSEListener {
    var lineBuffer: seq<string>
    var lastEventId: Option<string>
    var received: seq<Received>

    constructor ()
      ensures lineBuffer == [] && lastEventId == None && received == []
    {
      lineBuffer, lastEventId, received := [], None, [];
    }

    /** One connection's worth of lines: the buffer starts empty, the last event id is kept. */
    method Listen(lines: seq<string>)
      modifies this
      ensures Reader(lineBuffer, lastEventId, received) == ReadLines(Reader([], old(lastEventId), old(received)), lines)
    {
      lineBuffer := [];
      ghost var start := Reader(lineBuffer, lastEventId, received);
      for i := 0 to |lines|
        invariant ReadLines(start, lines) == ReadLines(Reader(lineBuffer, lastEventId, received), lines[i..])
      {
        var stripped := StripEnd(lines[i]);
        assert lines[i..][1..] == lines[i + 1..];
        if stripped == "" {
          if lineBuffer != [] {
            var hasContent, r := ParseSseBlock(lineBuffer);
            lineBuffer := [];
            if !hasContent {
              continue;
            }
            if r.id.Some? {
              lastEventId := r.id;
            }
            received := received + [r];
          }
          continue;
        }
        lineBuffer := lineBuffer + [stripped];
      }
    }
  }

  // ----- round trip

  /** A field that survives being written on a line of its own. */
  predicate Clean(s: string) {
    '\n' !in s && (s == "" || s[|s| - 1] != '\r')
  }

  predicate Transmittable(e: Event) {
    e.id != "" && Clean(e.kind) && Clean(e.id) && Clean(e.data)
  }

  function Expected(items: seq<Item>): seq<Received> {
    if items == [] then []
    else (match items[0] case Message(e) => [Received(e.kind, Some(e.id), e.data)] case Ping(_) => []) + Expected(items[1..])
  }

  lemma {:induction false} NormalizeClean(data: string)
    requires '\n' !in data
    ensures Normalize(data) == data
  {
    if |data| >= 2 {
      assert data == [data[0]] + data[1..];
      NormalizeClean(data[1..]);
    }
  }

  lemma FirstLine(line: string, rest: string)
    requires '\n' !in line
    ensures Lines(line + "\n" + rest) == [line] + Lines(rest)
  {
    hide LineEnd;
    var s := line + "\n" + rest;
    assert forall i :: 0 <= i < |line| ==> s[i] == line[i];
    assert s[|line|] == '\n';
    var n := LineEnd(s);
    assert n == |line|;
    assert s[..n] == line && s[n + 1..] == rest;
  }

  lemma TwoLines(a: string, b: string, rest: string)
    requires '\n' !in a && '\n' !in b
    ensures Lines(a + "\n" + b + "\n" + rest) == [a, b] + Lines(rest)
  {
    hide Lines;
    FirstLine(a, b + "\n" + rest);
    FirstLine(b, rest);
    assert a + "\n" + b + "\n" + rest == a + "\n" + (b + "\n" + rest);
    assert [a] + ([b] + Lines(rest)) == [a, b] + Lines(rest);
  }

  function Line(name: string, value: string): string {
    name + ": " + value
  }

  lemma LineShape(name: string, value: string)
    ensures |Line(name, value)| == |name| + 2 + |value| && Line(name, value)[..|name|] == name
    ensures Line(name, value)[|name|] == ':' && Line(name, value)[|name| + 1] == ' ' && Line(name, value)[|name| + 2..] == value
  {}

  predicate PlainName(name: string) {
    name != "" && forall i :: 0 <= i < |name| ==> name[i] != ':' && name[i] != '\n'
  }

  lemma PlainNames()
    ensures PlainName("event") && PlainName("id") && PlainName("data")
  {}

  lemma FieldOfLine(name: string, value: string)
    requires PlainName(name)
    ensures FieldOf(Line(name, value)) == Field(name, value) && Line(name, value)[0] != ':'
  {
    hide ColonAt, Line;
    LineShape(name, value);
    var line := Line(name, value);
    assert forall i :: 0 <= i < |name| ==> line[i] == line[..|name|][i];
    assert ColonAt(line) == |name|;
    assert line[|name| + 1..][1..] == line[|name| + 2..];
  }

  lemma LineIsKept(name: string, value: string)
    requires PlainName(name) && Clean(value)
    ensures Line(name, value) != "" && StripEnd(Line(name, value)) == Line(name, value) && '\n' !in Line(name, value)
  {
    hide StripEnd, Line;
    LineShape(name, value);
    var line := Line(name, value);
    var n := |name| + 2;
    assert line == line[..|name|] + [line[|name|], line[|name| + 1]] + line[n..];
    assert value != "" ==> line[|line| - 1] == line[n..][|value| - 1];
  }

  /** A clean value written after a field name is read back as that field. */
  lemma FieldReadsBack(name: string, value: string)
    requires name == "event" || name == "id" || name == "data"
    requires Clean(value)
    ensures Line(name, value) != "" && StripEnd(Line(name, value)) == Line(name, value)
    ensures Line(name, value)[0] != ':' && FieldOf(Line(name, value)) == Field(name, value)
    ensures '\n' !in Line(name, value)
  {
    hide StripEnd, FieldOf, Line, PlainName, Clean;
    PlainNames();
    LineIsKept(name, value);
    FieldOfLine(name, value);
  }

  /** The lines of a transmittable event, before the empty one. */
  function BlockLines(e: Event): seq<string> {
    [Line("event", e.kind), Line("id", e.id), Line("data", e.data)]
  }

  lemma FourLines(a: string, b: string, c: string, rest: string)
    requires '\n' !in a && '\n' !in b && '\n' !in c
    ensures Lines(a + "\n" + (b + "\n" + (c + "\n" + ("" + "\n" + rest)))) == [a, b, c] + [""] + Lines(rest)
  {
    hide Lines;
    FirstLine("", rest);
    FirstLine(c, "" + "\n" + rest);
    FirstLine(b, c + "\n" + ("" + "\n" + rest));
    FirstLine(a, b + "\n" + (c + "\n" + ("" + "\n" + rest)));
  }

  lemma EventLines(e: Event, rest: string)
    requires Transmittable(e)
    ensures Lines(FormatOf(e) + rest) == BlockLines(e) + [""] + Lines(rest)
  {
    hide Lines, Normalize, Line, FormatOf;
    NormalizeClean(e.data);
    FieldReadsBack("event", e.kind);
    FieldReadsBack("id", e.id);
    FieldReadsBack("data", e.data);
    FourLines(Line("event", e.kind), Line("id", e.id), Line("data", e.data), rest);
    FormatIsFourLines(e, rest);
  }

  lemma FormatIsFourLines(e: Event, rest: string)
    requires e.id != "" && Normalize(e.data) == e.data
    ensures FormatOf(e) + rest ==
              Line("event", e.kind) + "\n" + (Line("id", e.id) + "\n" + (Line("data", e.data) + "\n" + ("" + "\n" + rest)))
  {
    hide Normalize;
  }

  lemma FieldLine(b: Block, name: string, value: string)
    requires name == "event" || name == "id" || name == "data"
    requires Clean(value)
    ensures ReadLine(b, Line(name, value)) ==
              if name == "event" then b.(kind := Some(value)) else if name == "id" then b.(id := Some(value))
              else b.(data := b.data + [value])
  {
    hide StripEnd, FieldOf, Line;
    FieldReadsBack(name, value);
  }

  lemma AppendLine(lines: seq<string>, line: string)
    ensures ReadBlock(lines + [line]) == ReadLine(ReadBlock(lines), line)
  {
    assert (lines + [line])[..|lines|] == lines;
  }

  lemma ThreeLinesRead(a: string, b: string, c: string, one: Block, two: Block, three: Block)
    requires ReadLine(EMPTY_BLOCK, a) == one && ReadLine(one, b) == two && ReadLine(two, c) == three
    ensures ReadBlock([a, b, c]) == three
  {
    hide ReadLine, ReadBlock;
    NoLines();
    AppendLine([], a);
    AppendLine([a], b);
    AppendLine([a, b], c);
    assert [] + [a] == [a] && [a] + [b] == [a, b] && [a, b] + [c] == [a, b, c];
  }

  /** The lines of a block give back kind, id and data. */
  lemma BlockReadsBack(e: Event)
    requires Transmittable(e)
    ensures ReadBlock(BlockLines(e)) == Block(Some(e.kind), Some(e.id), [e.data])
    ensures forall i :: 0 <= i < 3 ==> BlockLines(e)[i] != "" && StripEnd(BlockLines(e)[i]) == BlockLines(e)[i]
  {
    hide ReadLine, ReadBlock, StripEnd, FieldOf, Line;
    FieldReadsBack("event", e.kind);
    FieldReadsBack("id", e.id);
    FieldReadsBack("data", e.data);
    var one, two := Block(Some(e.kind), None, []), Block(Some(e.kind), Some(e.id), []);
    FieldLine(EMPTY_BLOCK, "event", e.kind);
    FieldLine(one, "id", e.id);
    FieldLine(two, "data", e.data);
    assert [] + [e.data] == [e.data];
    ThreeLinesRead(Line("event", e.kind), Line("id", e.id), Line("data", e.data), one, two, Block(Some(e.kind), Some(e.id), [e.data]));
  }

  lemma NoLines()
    ensures ReadBlock([]) == EMPTY_BLOCK
  {}

  /** Non-empty stripped lines are buffered. */
  lemma {:induction false} Buffered(st: Reader, lines: seq<string>, rest: seq<string>)
    requires forall i :: 0 <= i < |lines| ==> lines[i] != "" && StripEnd(lines[i]) == lines[i]
    ensures ReadLines(st, lines + rest) == ReadLines(st.(buffer := st.buffer + lines), rest)
    decreases |lines|
  {
    hide Dispatch, StripEnd, ReadLines;
    if lines == [] {
      assert [] + rest == rest && st.buffer + [] == st.buffer;
    } else {
      assert lines + rest == [lines[0]] + (lines[1..] + rest);
      ReadOne(st, lines[0], lines[1..] + rest);
      Buffered(st.(buffer := st.buffer + [lines[0]]), lines[1..], rest);
      assert st.buffer + [lines[0]] + lines[1..] == st.buffer + lines;
    }
  }

  lemma BlockIsDispatched(st: Reader, lines: seq<string>, rest: seq<string>)
    requires st.buffer == [] && forall i :: 0 <= i < |lines| ==> lines[i] != "" && StripEnd(lines[i]) == lines[i]
    ensures ReadLines(st, lines + [""] + rest) == ReadLines(Dispatch(st.(buffer := lines)), rest)
  {
    hide Dispatch, StripEnd, ReadLines;
    assert lines + [""] + rest == lines + ([""] + rest) && [] + lines == lines;
    Buffered(st, lines, [""] + rest);
    ReadOne(st.(buffer := lines), "", rest);
  }

  lemma EventIsReceived(st: Reader, e: Event, rest: seq<string>)
    requires Transmittable(e) && st.buffer == []
    ensures ReadLines(st, BlockLines(e) + [""] + rest) ==
              ReadLines(Reader([], Some(e.id), st.received + [Received(e.kind, Some(e.id), e.data)]), rest)
  {
    hide ReadBlock, ReadLines, StripEnd, BlockLines;
    BlockReadsBack(e);
    assert |BlockLines(e)| == 3 by { ThreeLinesLong(e); }
    BlockIsDispatched(st, BlockLines(e), rest);
  }

  lemma ThreeLinesLong(e: Event)
    ensures |BlockLines(e)| == 3
  {}

  lemma ReadOne(st: Reader, line: string, rest: seq<string>)
    ensures ReadLines(st, [line] + rest) == ReadLines(ReadStreamLine(st, line), rest)
  {
    assert ([line] + rest)[1..] == rest;
  }

  lemma {:induction false} DecimalDigits(n: nat)
    ensures Text.Decimal(n) != "" && forall i :: 0 <= i < |Text.Decimal(n)| ==> '0' <= Text.Decimal(n)[i] <= '9'
  {
    if n >= 10 {
      DecimalDigits(n / 10);
    }
  }

  /** A ping is a comment: nothing is received. */
  lemma PingIsSkipped(st: Reader, t: nat, rest: string)
    requires st.buffer == []
    ensures ReadLines(st, Lines(FormatPing(t) + rest)) == ReadLines(st, Lines(rest))
  {
    hide Lines, StripEnd, FieldOf, Text.Decimal;
    DecimalDigits(t);
    var line := ": ping " + Text.Decimal(t);
    assert line[|line| - 1] == Text.Decimal(t)[|Text.Decimal(t)| - 1];
    TwoLines(line, "", rest);
    assert FormatPing(t) + rest == line + "\n" + "" + "\n" + rest;
    assert StripEnd(line) == line;
    ReadOne(st, line, [""] + Lines(rest));
    ReadOne(st.(buffer := [line]), "", Lines(rest));
    assert [line, ""] + Lines(rest) == [line] + ([""] + Lines(rest));
    assert ReadBlock([line]) == ReadLine(EMPTY_BLOCK, line) by { assert [line][..0] == []; }
  }

  /** Round trip: whatever the events and pings, the listener recovers exactly the events, in order. */
  lemma {:induction false} RoundTrip(items: seq<Item>, st: Reader)
    requires st.buffer == []
    requires forall i :: 0 <= i < |items| && items[i].Message? ==> Transmittable(items[i].event)
    ensures ReadLines(st, Lines(Written(items))).received == st.received + Expected(items)
    ensures ReadLines(st, Lines(Written(items))).buffer == []
    decreases |items|
  {
    hide ReadLines, Lines, Transmittable, FormatOf, FormatPing, BlockLines;
    if items == [] {
      NothingRead(st);
    } else {
      var rest := Written(items[1..]);
      match items[0] {
        case Message(e) =>
          EventIsRead(st, e, rest);
          var r := Received(e.kind, Some(e.id), e.data);
          RoundTrip(items[1..], Reader([], Some(e.id), st.received + [r]));
          assert st.received + [r] + Expected(items[1..]) == st.received + ([r] + Expected(items[1..]));
        case Ping(t) =>
          PingIsSkipped(st, t, rest);
          RoundTrip(items[1..], st);
          assert [] + Expected(items[1..]) == Expected(items[1..]);
      }
    }
  }

  lemma EventIsRead(st: Reader, e: Event, rest: string)
    requires Transmittable(e) && st.buffer == []
    ensures ReadLines(st, Lines(FormatOf(e) + rest)) ==
              ReadLines(Reader([], Some(e.id), st.received + [Received(e.kind, Some(e.id), e.data)]), Lines(rest))
  {
    hide ReadLines, Lines, FormatOf, BlockLines;
    EventLines(e, rest);
    EventIsReceived(st, e, Lines(rest));
  }

  lemma NothingRead(st: Reader)
    ensures ReadLines(st, Lines("")) == st
  {}
}
