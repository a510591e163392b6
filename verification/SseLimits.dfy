/** Which events the event stream can carry: the condition of the round trip is exact. */
module SseLimits {
  import opened Ring
  import opened SseText

  // ----- what is received has no line feeds

  predicate OneLine(s: string) {
    '\n' !in s
  }

  predicate OneLineEach(lines: seq<string>) {
    forall i :: 0 <= i < |lines| ==> OneLine(lines[i])
  }

  lemma {:induction false} LinesAreSingle(s: string)
    ensures OneLineEach(Lines(s))
  {
    if s != "" {
      var n := LineEnd(s);
      if n < |s| {
        LinesAreSingle(s[n + 1..]);
      }
    }
  }

  predicate CleanBlock(b: Block) {
    (b.kind.Some? ==> Clean(b.kind.value)) && (b.id.Some? ==> Clean(b.id.value))
  }

  lemma ValueIsClean(line: string)
    requires OneLine(line) && (line == "" || line[|line| - 1] != '\r')
    ensures Clean(FieldOf(line).value)
  {
    hide ColonAt;
    var v := FieldOf(line).value;
    var n := ColonAt(line);
    if v != "" {
      assert v == line[|line| - |v|..];
    }
  }

  lemma StripIsSingle(line: string)
    requires OneLine(line)
    ensures OneLine(StripEnd(line)) && (StripEnd(line) == "" || StripEnd(line)[|StripEnd(line)| - 1] != '\r')
  {
    hide StripEnd;
  }

  lemma ReadLineIsClean(b: Block, line: string)
    requires OneLine(line) && CleanBlock(b)
    ensures CleanBlock(ReadLine(b, line))
  {
    hide StripEnd, FieldOf, Clean, OneLine;
    StripIsSingle(line);
    ValueIsClean(StripEnd(line));
  }

  lemma {:induction false} ReadBlockIsClean(lines: seq<string>)
    requires OneLineEach(lines)
    ensures CleanBlock(ReadBlock(lines))
  {
    hide ReadLine, OneLine;
    if lines != [] {
      ReadBlockIsClean(lines[..|lines| - 1]);
      ReadLineIsClean(ReadBlock(lines[..|lines| - 1]), lines[|lines| - 1]);
    }
  }

  predicate CleanReceived(rs: seq<Received>) {
    forall i :: 0 <= i < |rs| ==> Clean(rs[i].kind) && (rs[i].id.Some? ==> Clean(rs[i].id.value))
  }

  lemma LineKeepsClean(st: Reader, line: string)
    requires OneLineEach(st.buffer) && CleanReceived(st.received) && OneLine(line)
    ensures OneLineEach(ReadStreamLine(st, line).buffer) && CleanReceived(ReadStreamLine(st, line).received)
  {
    hide StripEnd, ReadBlock, OneLine;
    StripIsSingle(line);
    ReadBlockIsClean(st.buffer);
    assert Clean("message");
  }

  /** Whatever the lines are, the kinds and ids received are clean. */
  lemma {:induction false} ReceivedIsClean(st: Reader, lines: seq<string>)
    requires OneLineEach(st.buffer) && CleanReceived(st.received) && OneLineEach(lines)
    ensures CleanReceived(ReadLines(st, lines).received)
    decreases |lines|
  {
    hide ReadStreamLine, OneLine, CleanReceived;
    if lines != [] {
      LineKeepsClean(st, lines[0]);
      ReceivedIsClean(ReadStreamLine(st, lines[0]), lines[1..]);
    }
  }

  // ----- what is received is not longer than what was sent

  /** The length of the data a line sets, plus one for the line feed that joins it; zero if it sets none. */
  function DataSize(line: string): nat {
    Size(ReadLine(EMPTY_BLOCK, line).data)
  }

  function Size(parts: seq<string>): nat {
    if parts == [] then 0 else Size(parts[..|parts| - 1]) + |parts[|parts| - 1]| + 1
  }

  function Budget(lines: seq<string>): nat {
    if lines == [] then 0 else Budget(lines[..|lines| - 1]) + DataSize(lines[|lines| - 1])
  }

  lemma BudgetAppend(lines: seq<string>, line: string)
    ensures Budget(lines + [line]) == Budget(lines) + DataSize(line)
  {
    hide DataSize;
    assert (lines + [line])[..|lines|] == lines;
  }

  lemma {:induction false} BudgetAdds(a: seq<string>, b: seq<string>)
    ensures Budget(a + b) == Budget(a) + Budget(b)
    decreases |b|
  {
    hide DataSize;
    if b == [] {
      assert a + b == a;
    } else {
      BudgetAdds(a, b[..|b| - 1]);
      assert a + b == (a + b[..|b| - 1]) + [b[|b| - 1]];
      BudgetAppend(a + b[..|b| - 1], b[|b| - 1]);
    }
  }

  lemma {:induction false} JoinedSize(parts: seq<string>)
    ensures parts != [] ==> |Join(parts)| + 1 == Size(parts)
  {
    if |parts| > 1 {
      JoinedSize(parts[..|parts| - 1]);
    } else if |parts| == 1 {
      assert parts[..0] == [];
    }
  }

  lemma SizeAppend(parts: seq<string>, part: string)
    ensures Size(parts + [part]) == Size(parts) + |part| + 1
  {
    assert (parts + [part])[..|parts|] == parts;
  }

  lemma ReadLineSize(b: Block, line: string)
    ensures Size(ReadLine(b, line).data) == Size(b.data) + DataSize(line)
  {
    hide StripEnd, FieldOf, Size;
    var v := FieldOf(StripEnd(line)).value;
    SizeAppend(b.data, v);
    SizeAppend([], v);
    SizeOfNothing();
    assert [] + [v] == [v];
  }

  lemma SizeOfNothing()
    ensures Size([]) == 0
  {}

  lemma {:induction false} BlockSize(lines: seq<string>)
    ensures Size(ReadBlock(lines).data) == Budget(lines)
  {
    hide ReadLine, Size, DataSize;
    SizeOfNothing();
    if lines != [] {
      BlockSize(lines[..|lines| - 1]);
      ReadLineSize(ReadBlock(lines[..|lines| - 1]), lines[|lines| - 1]);
    }
  }

  function Weight(rs: seq<Received>): nat {
    if rs == [] then 0
    else Weight(rs[..|rs| - 1]) + if rs[|rs| - 1].data == "" then 0 else |rs[|rs| - 1].data| + 1
  }

  lemma WeightAppend(rs: seq<Received>, r: Received)
    ensures Weight(rs + [r]) == Weight(rs) + if r.data == "" then 0 else |r.data| + 1
  {
    assert (rs + [r])[..|rs|] == rs;
  }

  lemma StripTwice(line: string)
    ensures DataSize(StripEnd(line)) == DataSize(line)
  {
    hide StripEnd, FieldOf, Size;
    assert StripEnd(StripEnd(line)) == StripEnd(line);
  }

  lemma LineSpends(st: Reader, line: string)
    ensures Weight(ReadStreamLine(st, line).received) + Budget(ReadStreamLine(st, line).buffer)
            <= Weight(st.received) + Budget(st.buffer) + DataSize(line)
  {
    hide StripEnd, ReadBlock, Size, Budget, DataSize, Join, Weight;
    StripTwice(line);
    BudgetAppend(st.buffer, StripEnd(line));
    BlockSize(st.buffer);
    JoinedSize(ReadBlock(st.buffer).data);
    WeightAppend(st.received, AsReceived(ReadBlock(st.buffer)));
    assert Join([]) == "" by { JoinOfNothing(); }
    NoBudget();
  }

  lemma JoinOfNothing()
    ensures Join([]) == ""
  {}

  lemma NoBudget()
    ensures Budget([]) == 0
  {}

  /** The data received is paid for by the lines read. */
  lemma {:induction false} LinesSpend(st: Reader, lines: seq<string>)
    ensures Weight(ReadLines(st, lines).received) <= Weight(st.received) + Budget(st.buffer) + Budget(lines)
    decreases |lines|
  {
    hide ReadStreamLine, Budget, DataSize, Weight;
    if lines != [] {
      LineSpends(st, lines[0]);
      LinesSpend(ReadStreamLine(st, lines[0]), lines[1..]);
      assert lines == [lines[0]] + lines[1..];
      BudgetAdds([lines[0]], lines[1..]);
      BudgetAppend([], lines[0]);
      assert [] + [lines[0]] == [lines[0]];
      NoBudget();
    }
  }

  // ----- what an event's text can pay for

  lemma DataSizeOf(line: string)
    ensures DataSize(line) ==
              if StripEnd(line) != "" && StripEnd(line)[0] != ':' && FieldOf(StripEnd(line)).name == "data"
              then |FieldOf(StripEnd(line)).value| + 1 else 0
  {
    hide StripEnd, FieldOf, Size;
    var v := FieldOf(StripEnd(line)).value;
    SizeAppend([], v);
    SizeOfNothing();
    assert [] + [v] == [v];
  }

  lemma DataSizeIsSmall(line: string)
    ensures DataSize(line) <= |line|
  {
    hide StripEnd, DataSize, ColonAt;
    DataSizeOf(line);
    assert |StripEnd(line)| <= |line|;
  }

  lemma {:induction false} TextBudget(t: string)
    ensures Budget(Lines(t + "\n\n")) <= |t|
    decreases |t|
  {
    hide Lines, Budget, DataSize;
    var n := LineEnd(t);
    var line := t[..n];
    assert OneLine(line);
    DataSizeIsSmall(line);
    if n < |t| {
      var rest := t[n + 1..];
      assert t + "\n\n" == line + "\n" + (rest + "\n\n");
      FirstLine(line, rest + "\n\n");
      TextBudget(rest);
      LineBudget(line, Lines(rest + "\n\n"));
    } else {
      assert line == t;
      LastLines(t);
    }
  }

  lemma LineBudget(line: string, rest: seq<string>)
    ensures Budget([line] + rest) == DataSize(line) + Budget(rest)
  {
    hide Budget, DataSize;
    BudgetAdds([line], rest);
    BudgetAppend([], line);
    assert [] + [line] == [line];
    NoBudget();
  }

  lemma LastLines(t: string)
    requires OneLine(t)
    ensures Lines(t + "\n\n") == [t, ""] && Budget(Lines(t + "\n\n")) == DataSize(t)
  {
    hide Budget, DataSize, Lines;
    assert t + "\n\n" == t + "\n" + "" + "\n" + "";
    TwoLines(t, "", "");
    NoLinesLeft();
    assert [t, ""] + [] == [t, ""] && [t] + [""] == [t, ""];
    LineBudget(t, [""]);
    assert [""] == [""] + [];
    LineBudget("", []);
    NoBudget();
    DataSizeIsSmall("");
  }

  lemma NoLinesLeft()
    ensures Lines("") == []
  {}

  /** A data line sets no more than what follows its name. */
  lemma DataLineSize(value: string)
    ensures DataSize(Line("data", value)) <= |value| + 1
    ensures value != "" && value[|value| - 1] == '\r' ==> DataSize(Line("data", value)) <= |value|
  {
    hide StripEnd, DataSize, ColonAt;
    var line := Line("data", value);
    var r := StripEnd(line);
    DataSizeOf(line);
    assert line[4] == ':' && line[5] == ' ' && |line| == |value| + 6;
    assert forall i :: 0 <= i < |r| ==> r[i] == line[i];
    if value != "" && value[|value| - 1] == '\r' {
      assert line[|line| - 1] == '\r';
      assert |r| < |line|;
    }
    if |r| >= 6 && FieldOf(r).name == "data" {
      DataName(r);
    } else if FieldOf(r).name == "data" {
      ShortData(r);
    }
  }

  lemma DataName(r: string)
    requires |r| >= 6 && r[4] == ':' && r[5] == ' ' && FieldOf(r).name == "data"
    ensures |FieldOf(r).value| == |r| - 6
  {
    hide ColonAt;
    assert ColonAt(r) == 4;
  }

  lemma ShortData(r: string)
    requires |r| < 6 && FieldOf(r).name == "data"
    ensures FieldOf(r).value == ""|| |FieldOf(r).value| <= |r| - 5
  {
    hide ColonAt;
  }

  lemma {:induction false} NormalizeShrinks(data: string)
    ensures |Normalize(data)| <= |data| && ('\n' in data ==> '\n' in Normalize(data))
  {
    if |data| >= 2 {
      if data[0] == '\r' && data[1] == '\n' {
        NormalizeShrinks(data[2..]);
        assert Normalize(data)[0] == '\n';
      } else {
        NormalizeShrinks(data[1..]);
        assert data == [data[0]] + data[1..];
      }
    }
  }

  /** Data that is not clean cannot be paid for by the text that is written for it. */
  lemma DirtyDataBudget(data: string)
    requires !Clean(data)
    ensures Budget(Lines(Line("data", Normalize(data)) + "\n\n")) <= |data|
  {
    hide Lines, Budget, DataSize, Normalize, Line;
    NormalizeShrinks(data);
    var n := Normalize(data);
    if '\n' in data {
      var k := LineEnd(n);
      assert k < |n|;
      var first, rest := n[..k], n[k + 1..];
      DataLineSize(first);
      SplitDataLine(n, k);
      DataLineIsSingle(first);
      FirstLine(Line("data", first), rest + "\n\n");
      TextBudget(rest);
      LineBudget(Line("data", first), Lines(rest + "\n\n"));
    } else {
      NormalizeClean(data);
      DataLineIsSingle(data);
      DataLineSize(data);
      LastLines(Line("data", data));
    }
  }

  lemma SplitDataLine(n: string, k: nat)
    requires k < |n| && n[k] == '\n'
    ensures Line("data", n) + "\n\n" == Line("data", n[..k]) + "\n" + (n[k + 1..] + "\n\n")
  {
    assert n == n[..k] + "\n" + n[k + 1..];
  }

  lemma DataLineIsSingle(value: string)
    requires OneLine(value)
    ensures OneLine(Line("data", value))
  {}

  // ----- the exact condition

  const START := Reader([], None, [])

  /** The lines an event starts with: its kind, and its id if it has one. */
  function HeadLines(e: Event): seq<string> {
    if e.id == "" then [Line("event", e.kind)] else [Line("event", e.kind), Line("id", e.id)]
  }

  lemma EventText(e: Event)
    requires OneLine(e.kind) && OneLine(e.id)
    ensures Lines(FormatOf(e)) == HeadLines(e) + Lines(Line("data", Normalize(e.data)) + "\n\n")
  {
    hide Lines, Normalize, Line, FormatOf;
    var tail := Line("data", Normalize(e.data)) + "\n\n";
    FormatParts(e);
    HeadLinesAreSingle(e);
    if e.id == "" {
      FirstLine(Line("event", e.kind), tail);
    } else {
      TwoLines(Line("event", e.kind), Line("id", e.id), tail);
    }
  }

  lemma FormatParts(e: Event)
    ensures var tail := Line("data", Normalize(e.data)) + "\n\n";
            FormatOf(e) == if e.id == "" then Line("event", e.kind) + "\n" + tail
                           else Line("event", e.kind) + "\n" + Line("id", e.id) + "\n" + tail
  {
    hide Normalize;
  }

  lemma HeadLinesAreSingle(e: Event)
    requires OneLine(e.kind) && OneLine(e.id)
    ensures OneLine(Line("event", e.kind)) && OneLine(Line("id", e.id))
  {}

  lemma HeadLinesPayNothing(e: Event)
    requires Clean(e.kind) && Clean(e.id)
    ensures Budget(HeadLines(e)) == 0
  {
    hide Line, Budget, DataSize, StripEnd, FieldOf;
    FieldReadsBack("event", e.kind);
    FieldReadsBack("id", e.id);
    DataSizeOf(Line("event", e.kind));
    DataSizeOf(Line("id", e.id));
    LineBudget(Line("event", e.kind), []);
    LineBudget(Line("id", e.id), []);
    LineBudget(Line("event", e.kind), [Line("id", e.id)]);
    assert [Line("event", e.kind)] + [] == [Line("event", e.kind)] && [Line("id", e.id)] + [] == [Line("id", e.id)];
    assert [Line("event", e.kind)] + [Line("id", e.id)] == [Line("event", e.kind), Line("id", e.id)];
    NoBudget();
  }

  /** Data that is not clean is never received as it was. */
  lemma DirtyDataIsLost(e: Event, rs: seq<Received>, r: Received)
    requires Clean(e.kind) && Clean(e.id) && !Clean(e.data)
    requires rs == ReadLines(START, Lines(FormatOf(e))).received && rs == [r]
    ensures r.data != e.data
  {
    hide ReadLines, Lines, Budget, DataSize, Normalize, Line, FormatOf, Weight, HeadLines;
    EventText(e);
    LinesSpend(START, Lines(FormatOf(e)));
    BudgetAdds(HeadLines(e), Lines(Line("data", Normalize(e.data)) + "\n\n"));
    HeadLinesPayNothing(e);
    DirtyDataBudget(e.data);
    WeightAppend([], r);
    assert [] + [r] == [r];
    NoWeight();
    NoBudget();
  }

  lemma NoWeight()
    ensures Weight([]) == 0
  {}

  /** An event without an id is received without one. */
  lemma NoIdIsReceived(e: Event)
    requires e.id == "" && Clean(e.kind) && Clean(e.data)
    ensures ReadLines(START, Lines(FormatOf(e))).received == [Received(e.kind, None, e.data)]
  {
    hide ReadLines, ReadLine, ReadBlock, Lines, Normalize, Line, FormatOf, StripEnd, FieldOf, Join;
    EventText(e);
    NormalizeClean(e.data);
    FieldReadsBack("event", e.kind);
    FieldReadsBack("data", e.data);
    LastLines(Line("data", e.data));
    var a, b := Line("event", e.kind), Line("data", e.data);
    FieldLine(EMPTY_BLOCK, "event", e.kind);
    FieldLine(Block(Some(e.kind), None, []), "data", e.data);
    NoLines();
    AppendLine([], a);
    AppendLine([a], b);
    assert [] + [a] == [a] && [a] + [b] == [a, b] && [] + [e.data] == [e.data];
    BlockIsDispatched(START, [a, b], []);
    assert [a] + [b, ""] == [a, b] + [""] + [];
    assert Join([e.data]) == e.data by { JoinOne(e.data); }
    NothingMore(Dispatch(START.(buffer := [a, b])));
    assert [] + [Received(e.kind, None, e.data)] == [Received(e.kind, None, e.data)];
  }

  lemma JoinOne(s: string)
    ensures Join([s]) == s
  {}

  lemma NothingMore(st: Reader)
    ensures ReadLines(st, []) == st
  {}

  /** An event arrives unchanged if and only if it has an id and kind, id and data are clean. */
  lemma SurvivesIff(e: Event)
    ensures ReadLines(START, Lines(FormatOf(e))).received == [Received(e.kind, Some(e.id), e.data)] <==> Transmittable(e)
  {
    hide ReadLines, Lines, FormatOf, Clean, FormatPing;
    if Transmittable(e) {
      RoundTrip([Message(e)], START);
      OneMessage(e);
    } else if ReadLines(START, Lines(FormatOf(e))).received == [Received(e.kind, Some(e.id), e.data)] {
      LinesAreSingle(FormatOf(e));
      ReceivedIsClean(START, Lines(FormatOf(e)));
      var r := ReadLines(START, Lines(FormatOf(e))).received[0];
      if !Clean(e.data) {
        DirtyDataIsLost(e, [r], r);
      } else {
        NoIdIsReceived(e);
      }
      assert false;
    }
  }

  lemma OneMessage(e: Event)
    ensures Written([Message(e)]) == FormatOf(e) && Expected([Message(e)]) == [Received(e.kind, Some(e.id), e.data)]
  {
    hide FormatOf;
    assert [Message(e)][1..] == [];
    assert FormatOf(e) + "" == FormatOf(e);
  }
}
