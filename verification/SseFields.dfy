/**
  How the listener reads lines in general, as section 9.2.6 of the WHATWG HTML Living Standard asks for it: one data
  field for each line of the data, values with and without a space, names without a value, names it does not know.
 */
module SseFields {
  import opened SseText

  // ----- data of several lines

  lemma JoinOneMore(parts: seq<string>, last: string)
    requires parts != []
    ensures Join(parts + [last]) == Join(parts) + "\n" + last
  {
    assert (parts + [last])[..|parts|] == parts;
  }

  lemma {:induction false} LinesAppend(text: string, rest: string)
    ensures Lines(text + "\n" + rest) == Lines(text + "\n") + Lines(rest)
    decreases |text|
  {
    hide LineEnd, Lines;
    var n := LineEnd(text);
    if n == |text| {
      FirstLine(text, rest);
      FirstLine(text, "");
      NoLines();
      assert text + "\n" + "" == text + "\n" && [text] + [] == [text];
    } else {
      var line, more := text[..n], text[n + 1..];
      assert text == line + "\n" + more;
      LinesAppend(more, rest);
      FirstLine(line, more + "\n" + rest);
      FirstLine(line, more + "\n");
      Regroup(line, more, rest);
      assert [line] + (Lines(more + "\n") + Lines(rest)) == [line] + Lines(more + "\n") + Lines(rest);
    }
  }

  lemma Regroup(line: string, more: string, rest: string)
    ensures line + "\n" + more + "\n" + rest == line + "\n" + (more + "\n" + rest)
    ensures line + "\n" + more + "\n" == line + "\n" + (more + "\n")
  {}

  /** Joined lines are the text with exactly these lines. */
  lemma {:induction false} JoinSplits(parts: seq<string>)
    requires parts != [] && forall i :: 0 <= i < |parts| ==> '\n' !in parts[i]
    ensures Lines(Join(parts) + "\n") == parts
  {
    hide Lines;
    var n := |parts| - 1;
    var last := parts[n];
    FirstLine(last, "");
    assert last + "\n" + "" == last + "\n" && Lines("") == [] by { NoLines(); }
    if n == 0 {
      assert parts == [last];
    } else {
      JoinSplits(parts[..n]);
      JoinOneMore(parts[..n], last);
      assert parts == parts[..n] + [last];
      LinesAppend(Join(parts[..n]), last + "\n");
      assert Join(parts) + "\n" == Join(parts[..n]) + "\n" + (last + "\n");
    }
  }

  lemma NoLines()
    ensures Lines("") == []
  {}

  function DataLines(parts: seq<string>): (r: seq<string>)
    ensures |r| == |parts| && forall i :: 0 <= i < |parts| ==> r[i] == "data: " + parts[i]
  {
    seq(|parts|, i requires 0 <= i < |parts| => "data: " + parts[i])
  }

  /** A block of data fields only: a message of the default kind, without an id, whose data has these lines. */
  lemma {:induction false} ManyDataLines(parts: seq<string>)
    requires forall i :: 0 <= i < |parts| ==> Clean(parts[i])
    ensures ReadBlock(DataLines(parts)) == Block(None, None, parts)
  {
    hide ReadLine;
    if parts != [] {
      var n := |parts| - 1;
      ManyDataLines(parts[..n]);
      assert DataLines(parts)[..n] == DataLines(parts[..n]);
      DataLineAdds(Block(None, None, parts[..n]), parts[n]);
      assert parts == parts[..n] + [parts[n]];
    }
  }

  lemma DataLineAdds(b: Block, value: string)
    requires Clean(value)
    ensures ReadLine(b, "data: " + value) == b.(data := b.data + [value])
  {
    hide StripEnd, FieldOf;
    assert Line("data", value) == "data: " + value by { assert "data: " == "data" + ": "; }
    FieldReadsBack("data", value);
  }

  /** Such a block is handed on with its lines joined. */
  lemma ManyLinesArrive(parts: seq<string>)
    requires parts != [] && forall i :: 0 <= i < |parts| ==> Clean(parts[i])
    ensures var r := AsReceived(ReadBlock(DataLines(parts)));
            r.kind == "message" && r.id == None && Lines(r.data + "\n") == parts
  {
    hide Lines, Join, ReadBlock;
    ManyDataLines(parts);
    JoinSplits(parts);
  }

  // ----- forms of a line

  /** The value begins right behind the colon or one space after it; a line without a colon is a name with no value. */
  lemma FieldForms(name: string, value: string)
    requires PlainName(name)
    ensures FieldOf(name + ": " + value) == Field(name, value)
    ensures value == "" || value[0] != ' ' ==> FieldOf(name + ":" + value) == Field(name, value)
    ensures FieldOf(name) == Field(name, "")
  {
    hide ColonAt, Line;
    FieldOfLine(name, value);
    LineIs(name, value);
    var line := name + ":" + value;
    assert forall i :: 0 <= i < |name| ==> line[i] == name[i];
    assert line[|name|] == ':';
    assert ColonAt(line) == |name| && line[..|name|] == name && line[|name| + 1..] == value;
    assert ColonAt(name) == |name|;
  }

  lemma LineIs(name: string, value: string)
    ensures Line(name, value) == name + ": " + value
  {}

  /** Comments and fields the listener does not know change nothing. */
  lemma OtherLinesAreIgnored(b: Block, line: string)
    requires line != "" && line[|line| - 1] != '\r' && line[|line| - 1] != '\n'
    requires line[0] == ':' || FieldOf(line).name !in {"event", "id", "data"}
    ensures ReadLine(b, line) == b
  {
    hide StripEnd, FieldOf;
  }

  // ----- the id to resume from

  /** The id of the last event that had one. */
  function LastId(default: Option<string>, received: seq<Received>): Option<string> {
    if received == [] then default
    else if received[|received| - 1].id.Some? then received[|received| - 1].id
    else LastId(default, received[..|received| - 1])
  }

  /** Whatever lines arrive, the remembered id is that of the last event received that had one. */
  lemma {:induction false} RemembersLastId(st: Reader, lines: seq<string>, default: Option<string>)
    requires st.lastId == LastId(default, st.received)
    ensures ReadLines(st, lines).lastId == LastId(default, ReadLines(st, lines).received)
    decreases |lines|
  {
    hide ReadStreamLine;
    if lines != [] {
      LineKeepsId(st, lines[0], default);
      RemembersLastId(ReadStreamLine(st, lines[0]), lines[1..], default);
    }
  }

  lemma LineKeepsId(st: Reader, line: string, default: Option<string>)
    requires st.lastId == LastId(default, st.received)
    ensures ReadStreamLine(st, line).lastId == LastId(default, ReadStreamLine(st, line).received)
  {
    hide ReadBlock, StripEnd, Join;
    var r := AsReceived(ReadBlock(st.buffer));
    assert (st.received + [r])[..|st.received|] == st.received;
  }
}
