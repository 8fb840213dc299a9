/**
 The upstream reader of the live board (board_stream.go): a line scanner that decides which project
 events make the board dirty, compared with the event-stream interpretation of sections 9.2.5 and
 9.2.6 of the WHATWG HTML Standard.
 */
module BoardDrain {
  import opened Options
  import opened Text
  import opened Slices
  import opened Sse

  /** The `entity` of a JSON payload, None when the payload does not decode; nothing else about JSON is
      modelled. */
  type EntityOf = string -> Option<string>

  predicate BoardEvent(event: string) {
    event == "entity.created" || event == "entity.updated" || event == "entity.deleted" ||
    event == "entity.status_changed" || event == "entity.assigned" || event == "entity.batch"
  }

  /** boardStreamEventRelevant. */
  predicate Relevant(entityOf: EntityOf, event: string, data: string) {
    BoardEvent(event) && (entityOf(data) == Some("graph_object") || entityOf(data) == Some("agent_run"))
  }

  // ----- the scanner -----

  /** bufio.ScanLines drops one carriage return at the end of a line. */
  function DropCr(line: string): string {
    if line != "" && line[|line| - 1] == '\r' then line[..|line| - 1] else line
  }

  /** The tokens of bufio.ScanLines; the rest after the last line feed is a token unless it is empty. */
  function ScanLines(s: string): seq<string>
    decreases |s|
  {
    if s == "" then []
    else
      var cut := Cut(s, "\n");
      [DropCr(cut.before)] + if cut.found then ScanLines(cut.after) else []
  }

  /** Joining one more data line; an empty buffer takes the line as it is. */
  function Joined(data: string, chunk: string): string {
    if data == "" then chunk else data + "\n" + chunk
  }

  /** One line that is not blank. */
  function Field(b: Buffers, line: string): Buffers {
    if "event:" <= line then b.(event := TrimSpace(line[6..]))
    else if "data:" <= line then b.(data := Joined(b.data, TrimSpace(line[5..])))
    else b
  }

  /** The events the reader signals, in order, from the buffers b on. */
  function Signalled(lines: seq<string>, b: Buffers, entityOf: EntityOf): seq<Message> {
    if lines == [] then []
    else if lines[0] == "" then
      (if Relevant(entityOf, b.event, b.data) then [Message(b.event, b.data)] else []) + Signalled(lines[1..], CLEAN, entityOf)
    else Signalled(lines[1..], Field(b, lines[0]), entityOf)
  }

  /** boardStreamDrain over a body that has ended; each signal is one attempt to fill the dirty slot. */
  method BoardStreamDrain(body: string, entityOf: EntityOf) returns (signals: seq<Message>)
    ensures signals == Signalled(ScanLines(body), CLEAN, entityOf)
  {
    hide Relevant, TrimSpace, ScanLines;
    var lines := ScanLines(body);
    var event, data := "", "";
    signals := [];
    for i := 0 to |lines|
      invariant signals + Signalled(lines[i..], Buffers(event, data), entityOf) == Signalled(lines, CLEAN, entityOf)
    {
      var line := lines[i];
      ghost var rest := lines[i..];
      assert rest[0] == line && rest[1..] == lines[i + 1..];
      if line == "" {
        if Relevant(entityOf, event, data) {
          signals := signals + [Message(event, data)];
        }
        event, data := "", "";
      } else if "event:" <= line {
        event := TrimSpace(line[6..]);
      } else if "data:" <= line {
        var chunk := TrimSpace(line[5..]);
        if data == "" {
          data := chunk;
        } else {
          data := data + "\n" + chunk;
        }
      }
    }
    assert lines[|lines|..] == [];
  }

  // ----- agreement with the Standard -----

  /** A line on which the two readings agree: an `event` or `data` field has its colon and a value
      without surrounding spaces, and a data line is not blank. Comments and other fields are free. */
  predicate Tidy(line: string) {
    var cut := Cut(line, ":");
    cut.before == "event" || cut.before == "data" ==>
      cut.found && Trimmed(FieldValue(cut.after)) && (cut.before == "data" ==> FieldValue(cut.after) != "")
  }

  /** Carriage returns only in front of line feeds. */
  predicate CrLfOnly(s: string) {
    forall i :: 0 <= i < |s| && s[i] == '\r' ==> i + 1 < |s| && s[i + 1] == '\n'
  }

  /** The Standard's data buffer ends every line with a line feed; the reader's does not. */
  function Closed(b: Buffers): Buffers {
    b.(data := if b.data == "" then "" else b.data + "\n")
  }

  lemma PrefixIsCut(line: string, name: string)
    requires name == "event" || name == "data"
    ensures name + ":" <= line <==> Cut(line, ":").found && Cut(line, ":").before == name
    ensures name + ":" <= line ==> Cut(line, ":").after == line[|name| + 1..]
  {
    hide Cut, Contains;
    CutParts(line, ":");
    if name + ":" <= line {
      var after := line[|name| + 1..];
      assert line == name + ":" + after;
      forall i | 0 <= i < |name|
        ensures !(":" <= line[i..])
      {
        assert line[i..][0] == name[i];
      }
      CutAt(name, ":", after);
    }
  }

  lemma ValueTrims(after: string)
    requires Trimmed(FieldValue(after))
    ensures TrimSpace(after) == FieldValue(after)
  {
    hide TrimSpace;
    var v := FieldValue(after);
    if after != "" && after[0] == ' ' {
      TrimPadded(" ", v, "");
      assert " " + v + "" == after;
    } else {
      TrimTrimmed(v);
    }
  }

  /** The reader's prefixes are the Standard's field names. */
  lemma FieldByName(b: Buffers, line: string)
    ensures var cut := Cut(line, ":");
            Field(b, line) ==
            if cut.found && cut.before == "event" then b.(event := TrimSpace(cut.after))
            else if cut.found && cut.before == "data" then b.(data := Joined(b.data, TrimSpace(cut.after)))
            else b
  {
    hide Cut, TrimSpace, Joined;
    PrefixIsCut(line, "event");
    PrefixIsCut(line, "data");
    assert "event" + ":" == "event:" && "data" + ":" == "data:";
  }

  /** On a tidy line the two readings take the same step. */
  lemma SameField(b: Buffers, line: string)
    requires line != "" && Tidy(line)
    ensures ProcessLine(Closed(b), line) == Closed(Field(b, line))
  {
    hide Cut, TrimSpace, FieldValue, IsSpace, Field;
    var cut := Cut(line, ":");
    FieldByName(b, line);
    if cut.found && (cut.before == "event" || cut.before == "data") {
      ValueTrims(cut.after);
    }
  }

  /** Tidiness is exactly that: on any other line the two readings part, from some state of the buffers. */
  lemma TidyIsExact(line: string)
    requires line != ""
    ensures Tidy(line) <==> forall b :: ProcessLine(Closed(b), line) == Closed(Field(b, line))
  {
    hide Cut, TrimSpace, IsSpace, ProcessLine, Closed, Field, Tidy, Trimmed, FieldValue;
    forall b | Tidy(line)
      ensures ProcessLine(Closed(b), line) == Closed(Field(b, line))
    {
      SameField(b, line);
    }
    if !Tidy(line) {
      var b := Buffers("x", "");
      UntidyParts(line, b);
      assert ProcessLine(Closed(b), line) != Closed(Field(b, line));
    }
  }

  lemma NoAfter(line: string)
    ensures !Cut(line, ":").found ==> FieldValue(Cut(line, ":").after) == ""
  {
    hide Cut;
    CutParts(line, ":");
  }

  lemma LineFeedInjective(a: string, b: string)
    ensures a != b ==> a + "\n" != b + "\n"
    ensures a + "\n" != ""
  {
    assert (a + "\n")[..|a|] == a && (b + "\n")[..|b|] == b;
  }

  lemma UntidyParts(line: string, b: Buffers)
    requires line != "" && !Tidy(line) && b == Buffers("x", "")
    ensures ProcessLine(Closed(b), line) != Closed(Field(b, line))
  {
    hide Cut, TrimSpace, IsSpace, Contains, Field;
    var cut := Cut(line, ":");
    FieldByName(b, line);
    hide Trimmed;
    var value, chunk := FieldValue(cut.after), TrimSpace(cut.after);
    NoAfter(line);
    hide FieldValue;
    LineFeedInjective(value, chunk);
  }

  /** The two line splitters agree where carriage returns only come before line feeds. */
  lemma {:induction false} SameLine(s: string)
    requires CrLfOnly(s) && s != ""
    ensures var cut := Cut(s, "\n");
            && (cut.found ==> NextLine(s) == Line(DropCr(cut.before), cut.after) && CrLfOnly(cut.after))
            && (!cut.found ==> NextLine(s) == Unfinished)
  {
    hide Contains, CrLfOnly;
    TailCrLf(s);
    CutLineFeed(s);
    hide Cut;
    if s[0] != '\n' && s[0] != '\r' && |s| > 1 {
      SameLine(s[1..]);
      DropCrCons(s[0], Cut(s[1..], "\n").before);
    }
  }

  lemma TailCrLf(s: string)
    requires CrLfOnly(s) && s != ""
    ensures CrLfOnly(s[1..])
    ensures s[0] == '\r' ==> |s| > 1 && s[1] == '\n' && s[2..] == s[1..][1..] && CrLfOnly(s[2..])
  {
    assert forall i :: 0 <= i < |s[1..]| ==> s[1..][i] == s[i + 1];
    if s[0] == '\r' {
      assert forall i :: 0 <= i < |s[2..]| ==> s[2..][i] == s[i + 2];
    }
  }

  /** Cutting at a line feed, one character at a time. */
  lemma CutLineFeed(s: string)
    requires s != ""
    ensures Cut(s, "\n") ==
            if s[0] == '\n' then CutResult("", s[1..], true)
            else if |s| == 1 then CutResult(s, "", false)
            else var rest := Cut(s[1..], "\n"); CutResult([s[0]] + rest.before, rest.after, rest.found)
    ensures s[0] == '\r' && |s| > 1 && s[1] == '\n' ==> Cut(s, "\n") == CutResult("\r", s[2..], true)
  {
    hide Contains;
    if s[0] == '\n' {
      assert "\n" <= s;
    } else {
      assert !("\n" <= s);
      assert |s| == 1 ==> s[1..] == "" && [s[0]] == s;
    }
    if |s| > 1 && s[1] == '\n' {
      assert "\n" <= s[1..] && s[1..][1..] == s[2..];
    }
  }

  lemma DropCrCons(c: char, line: string)
    ensures c != '\r' ==> DropCr([c] + line) == [c] + DropCr(line)
  {
  }

  lemma SignalledStep(s: string, b: Buffers, entityOf: EntityOf)
    requires s != ""
    ensures var cut := Cut(s, "\n");
            var line := DropCr(cut.before);
            var rest := if cut.found then ScanLines(cut.after) else [];
            && ScanLines(s) == [line] + rest
            && Signalled(ScanLines(s), b, entityOf) ==
               if line == ""
               then (if Relevant(entityOf, b.event, b.data) then [Message(b.event, b.data)] else []) + Signalled(rest, CLEAN, entityOf)
               else Signalled(rest, Field(b, line), entityOf)
  {
    hide Cut, Relevant, Field;
    var cut := Cut(s, "\n");
    var rest := if cut.found then ScanLines(cut.after) else [];
    assert ([DropCr(cut.before)] + rest)[1..] == rest;
  }

  lemma EmptyBody(b: Buffers, entityOf: EntityOf)
    ensures Signalled([], b, entityOf) == [] && Parse("", b) == [] && ScanLines("") == []
  {
  }

  /** A body that ends inside a line ends without a dispatch. */
  lemma UnfinishedBody(s: string, b: Buffers, entityOf: EntityOf)
    requires s != "" && CrLfOnly(s) && !Cut(s, "\n").found
    ensures Parse(s, Closed(b)) == [] && Signalled(ScanLines(s), b, entityOf) == []
  {
    hide Cut, Relevant, Field;
    SameLine(s);
    SignalledStep(s, b, entityOf);
    CutParts(s, "\n");
    assert s[|s| - 1] != '\r';
  }

  /** At a blank line the Standard dispatches whatever has data; of that the reader signals what is
      relevant, and nothing without data is. */
  lemma DispatchRelevant(b: Buffers, entityOf: EntityOf)
    requires entityOf("").None?
    ensures Filter(Dispatch(Closed(b)), (m: Message) => Relevant(entityOf, m.event, m.data)) ==
            if Relevant(entityOf, b.event, b.data) then [Message(b.event, b.data)] else []
  {
    hide BoardEvent;
    var keep := (m: Message) => Relevant(entityOf, m.event, m.data);
    if b.data != "" {
      assert Closed(b).data[..|Closed(b).data| - 1] == b.data;
      assert Dispatch(Closed(b)) == [Message(b.event, b.data)];
      assert [Message(b.event, b.data)][..0] == [];
    }
  }

  /** From any state of the buffers on, the reader signals the relevant events of what follows. */
  lemma {:induction false} SignalsFrom(s: string, b: Buffers, entityOf: EntityOf)
    requires CrLfOnly(s) && forall l | l in ScanLines(s) :: Tidy(l)
    requires entityOf("").None?
    ensures Signalled(ScanLines(s), b, entityOf) ==
            Filter(Parse(s, Closed(b)), (m: Message) => Relevant(entityOf, m.event, m.data))
    decreases |s|
  {
    assert Closed(CLEAN) == CLEAN;
    hide Cut, Relevant, Field, Tidy, ProcessLine, Filter, CrLfOnly, DropCr, Closed, ScanLines, Signalled;
    var keep := (m: Message) => Relevant(entityOf, m.event, m.data);
    if s == "" {
      EmptyBody(b, entityOf);
      FilterEmpty(Parse(s, Closed(b)), keep);
    } else {
      SameLine(s);
      SignalledStep(s, b, entityOf);
      var cut := Cut(s, "\n");
      var line := DropCr(cut.before);
      assert line in ScanLines(s);
      if !cut.found {
        UnfinishedBody(s, b, entityOf);
        FilterEmpty(Parse(s, Closed(b)), keep);
      } else if line == "" {
        SignalsFrom(cut.after, CLEAN, entityOf);
        DispatchRelevant(b, entityOf);
        FilterConcat(Dispatch(Closed(b)), Parse(cut.after, CLEAN), keep);
      } else {
        SignalsFrom(cut.after, Field(b, line), entityOf);
        SameField(b, line);
      }
    }
  }

  predicate ReadField(line: string) {
    Cut(line, ":").before == "event" || Cut(line, ":").before == "data"
  }

  /** The Standard ignores a byte order mark in front of a stream; the reader keeps it on the first line,
      which is then no field. */
  ghost predicate BomHarmless(s: string) {
    s != "" && s[0] == BOM ==> ScanLines(s)[0] != "" && !ReadField(ScanLines(s)[0][1..])
  }

  /** The reader signals exactly the relevant events of the stream as the Standard reads it, in order,
      whatever comments and other fields it carries and whether or not its last event is complete. */
  lemma SignalsRelevantEvents(s: string, entityOf: EntityOf)
    requires CrLfOnly(s) && forall l | l in ScanLines(s) :: Tidy(l)
    requires BomHarmless(s) && entityOf("").None?
    ensures Signalled(ScanLines(s), CLEAN, entityOf) ==
            Filter(Read(s), (m: Message) => Relevant(entityOf, m.event, m.data))
  {
    assert Closed(CLEAN) == CLEAN;
    hide Relevant, Tidy, Filter, Closed, Parse, ScanLines, Signalled, Cut, ReadField, CrLfOnly;
    if s != "" && s[0] == BOM {
      BomSkipsFirstLine(s, entityOf);
    } else {
      SignalsFrom(s, CLEAN, entityOf);
    }
  }

  lemma BomSkipsFirstLine(s: string, entityOf: EntityOf)
    requires s != "" && s[0] == BOM && BomHarmless(s)
    requires CrLfOnly(s) && (forall l | l in ScanLines(s) :: Tidy(l)) && entityOf("").None?
    ensures Signalled(ScanLines(s), CLEAN, entityOf) ==
            Filter(Parse(s[1..], CLEAN), (m: Message) => Relevant(entityOf, m.event, m.data))
  {
    assert Closed(CLEAN) == CLEAN && Dispatch(CLEAN) == [];
    hide Relevant, Tidy, Filter, Closed, ScanLines, Signalled, Cut, CrLfOnly, Field, Dispatch;
    var keep := (m: Message) => Relevant(entityOf, m.event, m.data);
    var t := s[1..];
    SignalledStep(s, CLEAN, entityOf);
    CutLineFeed(s);
    TailCrLf(s);
    var cut := Cut(s, "\n");
    if !cut.found {
      UnfinishedBody(s, CLEAN, entityOf);
      if t != "" {
        SameLine(t);
      }
      assert Parse(t, CLEAN) == [];
      FilterEmpty(Parse(t, CLEAN), keep);
    } else {
      SameLine(t);
      var line := DropCr(Cut(t, "\n").before);
      DropCrCons(s[0], Cut(t, "\n").before);
      BomLine(CLEAN, line);
      SignalsFrom(cut.after, CLEAN, entityOf);
      assert [] + Parse(cut.after, CLEAN) == Parse(cut.after, CLEAN);
    }
  }

  lemma BomLine(b: Buffers, line: string)
    ensures Field(b, [BOM] + line) == b
    ensures !ReadField(line) ==> ProcessLine(b, line) == b
  {
    hide Cut;
    assert ([BOM] + line)[0] == BOM;
  }

  /** Behind a mark the two readings of a line part exactly on the fields that matter. */
  lemma BomIsExact(line: string)
    ensures !ReadField(line) <==> forall b :: ProcessLine(b, line) == Field(b, [BOM] + line)
  {
    hide Cut, FieldValue, Field;
    var value := FieldValue(Cut(line, ":").after);
    forall b
      ensures Field(b, [BOM] + line) == b && (!ReadField(line) ==> ProcessLine(b, line) == b)
    {
      BomLine(b, line);
    }
    if ReadField(line) {
      var b := Buffers(value + "x", "");
      CutParts(line, ":");
      assert Cut(line, ":").before != "";
      assert |value + "x"| != |value| && |"" + value + "\n"| != 0;
      assert ProcessLine(b, line) != b;
    }
  }

  /** An entity lookup for the example: the payload "x" is an object. */
  const SOME_OBJECT: EntityOf := payload => if payload == "x" then Some("graph_object") else None

  /** A body of one event with one data line. */
  function OneEvent(name: string, value: string): string {
    ("event:" + name) + "\n" + DataPart(value)
  }

  function DataPart(value: string): string {
    ("data:" + value) + "\n" + "\n"
  }

  /** Off tidy lines the two do part: by the Standard this event's name ends in a space and the board does
      not care; the reader trims it and signals. */
  lemma UntidyEventSignalled()
    ensures CrLfOnly(OneEvent("entity.created ", "x")) && SOME_OBJECT("").None?
    ensures Signalled(ScanLines(OneEvent("entity.created ", "x")), CLEAN, SOME_OBJECT) == [Message("entity.created", "x")]
    ensures Filter(Parse(OneEvent("entity.created ", "x"), CLEAN), (m: Message) => Relevant(SOME_OBJECT, m.event, m.data)) == []
  {
    hide OneEvent, TrimSpace, ScanLines, Parse, Signalled;
    TrimPadded("", "entity.created", " ");
    assert "" + "entity.created" + " " == "entity.created ";
    TrimTrimmed("x");
    ReaderReads("entity.created ", "x", SOME_OBJECT);
    StandardReads("entity.created ", "x");
    NoReturns("entity.created ", "x");
    var m := Message("entity.created ", "x");
    assert [m][..0] == [];
  }

  lemma NoReturns(name: string, value: string)
    requires '\r' !in name && '\r' !in value
    ensures CrLfOnly(OneEvent(name, value))
  {
  }

  lemma FieldCut(field: string, value: string)
    requires field == "event" || field == "data"
    ensures Cut(field + ":" + value, ":") == CutResult(field, value, true)
  {
    hide Cut;
    var line := field + ":" + value;
    PrefixIsCut(line, field);
    assert field + ":" <= line && line[|field| + 1..] == value;
  }

  lemma CutLine(line: string, rest: string)
    requires '\n' !in line
    ensures Cut(line + "\n" + rest, "\n") == CutResult(line, rest, true)
  {
    hide Cut, Contains;
    CutAtChar(line, "\n", rest);
  }

  lemma ReaderReads(name: string, value: string, entityOf: EntityOf)
    requires '\n' !in name && '\n' !in value && '\r' !in name && '\r' !in value
    ensures var m := Message(TrimSpace(name), TrimSpace(value));
            Signalled(ScanLines(OneEvent(name, value)), CLEAN, entityOf) ==
            if Relevant(entityOf, m.event, m.data) then [m] else []
  {
    hide Cut, TrimSpace, Relevant, ScanLines, Signalled, Field, DataPart;
    var line := "event:" + name;
    var b := Buffers(TrimSpace(name), "");
    assert line == "event" + ":" + name;
    FieldCut("event", name);
    CutLine(line, DataPart(value));
    FieldByName(CLEAN, line);
    SignalledStep(OneEvent(name, value), CLEAN, entityOf);
    ReaderReadsData(value, b, entityOf);
  }

  lemma ReaderReadsData(value: string, b: Buffers, entityOf: EntityOf)
    requires '\n' !in value && '\r' !in value && b.data == ""
    ensures var m := Message(b.event, TrimSpace(value));
            Signalled(ScanLines(DataPart(value)), b, entityOf) == if Relevant(entityOf, m.event, m.data) then [m] else []
  {
    hide Cut, TrimSpace, Relevant, ScanLines, Signalled, Field;
    var line := "data:" + value;
    assert line == "data" + ":" + value;
    FieldCut("data", value);
    CutLine(line, "\n");
    FieldByName(b, line);
    SignalledStep(DataPart(value), b, entityOf);
    CutLine("", "");
    assert "" + "\n" + "" == "\n";
    SignalledStep("\n", b.(data := TrimSpace(value)), entityOf);
    EmptyBody(CLEAN, entityOf);
  }

  /** Which events make the board dirty: the six entity events, of an object or an agent run. An event of
      any other name, or of any other or no entity, is read and dropped. */
  lemma OneEventSignalled(name: string, value: string, entityOf: EntityOf)
    requires '\n' !in name && '\n' !in value && '\r' !in name && '\r' !in value && Trimmed(name) && Trimmed(value)
    ensures var wanted := name in ["entity.created", "entity.updated", "entity.deleted", "entity.status_changed",
                                   "entity.assigned", "entity.batch"];
            var about := entityOf(value) in {Some("graph_object"), Some("agent_run")};
            Signalled(ScanLines(OneEvent(name, value)), CLEAN, entityOf) ==
            if wanted && about then [Message(name, value)] else []
  {
    hide Signalled, ScanLines, OneEvent, TrimSpace;
    TrimTrimmed(name);
    TrimTrimmed(value);
    ReaderReads(name, value, entityOf);
  }

  lemma StandardReads(name: string, value: string)
    requires '\n' !in name && '\n' !in value && '\r' !in name && '\r' !in value
    ensures Parse(OneEvent(name, value), CLEAN) == [Message(FieldValue(name), FieldValue(value))]
  {
    hide Cut, Parse, FieldValue, Dispatch;
    var l1, l2 := "event:" + name, "data:" + value;
    assert l1 == "event" + ":" + name && l2 == "data" + ":" + value;
    FieldCut("event", name);
    FieldCut("data", value);
    ParseLine(l1, DataPart(value), CLEAN);
    ParseLine(l2, "\n", Buffers(FieldValue(name), ""));
    assert "" + FieldValue(value) + "\n" == FieldValue(value) + "\n";
    var full := Buffers(FieldValue(name), FieldValue(value) + "\n");
    assert "" + "\n" + "" == "\n";
    ParseLine("", "", full);
    EmptyBody(CLEAN, _ => None);
    DispatchFull(full, FieldValue(value));
  }

  lemma DispatchFull(b: Buffers, value: string)
    ensures Dispatch(b.(data := value + "\n")) == [Message(b.event, value)]
  {
    assert (value + "\n")[..|value|] == value;
  }

  /** A mark in front of an event makes the reader miss it. */
  lemma BomHidesFirstEvent()
    ensures var s := [BOM] + OneEvent("entity.created", "x");
            && Signalled(ScanLines(s), CLEAN, SOME_OBJECT) == []
            && Read(s) == [Message("entity.created", "x")]
            && Relevant(SOME_OBJECT, "entity.created", "x")
  {
    hide TrimSpace, ScanLines, Signalled, Parse, Cut, Field, DataPart;
    var line, rest := "event:entity.created", DataPart("x");
    var s := [BOM] + OneEvent("entity.created", "x");
    assert s == ([BOM] + line) + "\n" + rest && s[1..] == OneEvent("entity.created", "x");
    CutLine([BOM] + line, rest);
    SignalledStep(s, CLEAN, SOME_OBJECT);
    BomLine(CLEAN, line);
    ReaderReadsData("x", CLEAN, SOME_OBJECT);
    StandardReads("entity.created", "x");
  }
}
