/**
 The wire format of the live board (board_stream.go): one server-sent event per hx-partial directive,
 read back by the event-stream interpretation of sections 9.2.5 and 9.2.6 of the WHATWG HTML Standard.
 */
module Sse {
  import opened Text

  // ----- writing -----

  function FrameText(target: string, swap: string, html: string): string {
    "<hx-partial hx-target=\"" + target + "\" hx-swap=\"" + swap + "\">" + html + "</hx-partial>"
  }

  /** One `data: ` line per line of the frame, then a blank line. */
  function DataLines(lines: seq<string>): string {
    if lines == [] then "\n" else "data: " + lines[0] + "\n" + DataLines(lines[1..])
  }

  const HEARTBEAT := ": heartbeat\n\n"

  /** writeSSEPartial. */
  method WriteSsePartial(target: string, swap: string, html: string) returns (out: string)
    ensures out == DataLines(Split(FrameText(target, swap, html), '\n'))
  {
    hide Split, DataLines;
    var frame := "<hx-partial hx-target=\"";
    frame := frame + target;
    frame := frame + "\" hx-swap=\"";
    frame := frame + swap;
    frame := frame + "\">";
    frame := frame + html;
    frame := frame + "</hx-partial>";
    assert frame == FrameText(target, swap, html);
    var lines := Split(frame, '\n');
    SplitNonEmpty(frame, '\n');
    out := "";
    for i := 0 to |lines|
      invariant i > 0 ==> out + "\n" + DataLines(lines[i..]) == DataLines(lines)
      invariant i == 0 ==> out == ""
    {
      if i > 0 {
        out := out + "\n";
      }
      ghost var before := out;
      out := out + "data: ";
      out := out + lines[i];
      DataLinesFrom(lines, i);
      assert out + "\n" + DataLines(lines[i + 1..]) == before + DataLines(lines[i..]);
      assert lines[0..] == lines;
    }
    DataLinesEnd(lines);
    out := out + "\n\n";
  }

  lemma DataLinesFrom(lines: seq<string>, i: nat)
    requires i < |lines|
    ensures DataLines(lines[i..]) == "data: " + lines[i] + "\n" + DataLines(lines[i + 1..])
  {
    assert lines[i..][1..] == lines[i + 1..];
  }

  lemma DataLinesEnd(lines: seq<string>)
    ensures DataLines(lines[|lines|..]) == "\n"
  {
  }

  // ----- reading: sections 9.2.5 and 9.2.6 -----

  /** The first line of a stream and what follows it; a line ends with CR LF, LF or CR. */
  datatype Line = Line(text: string, rest: string) | Unfinished

  function NextLine(s: string): (r: Line)
    ensures r.Line? ==> |r.rest| < |s| && '\n' !in r.text && '\r' !in r.text
  {
    if s == "" then Unfinished
    else if s[0] == '\r' && |s| > 1 && s[1] == '\n' then Line("", s[2..])
    else if s[0] == '\r' || s[0] == '\n' then Line("", s[1..])
    else
      var r := NextLine(s[1..]);
      if r.Line? then Line([s[0]] + r.text, r.rest) else Unfinished
  }

  /** The buffers of the interpretation and a dispatched event. */
  datatype Buffers = Buffers(event: string, data: string)
  datatype Message = Message(event: string, data: string)

  const CLEAN := Buffers("", "")

  function FieldValue(after: string): string {
    if after != "" && after[0] == ' ' then after[1..] else after
  }

  function ProcessField(b: Buffers, field: string, value: string): Buffers {
    if field == "event" then b.(event := value)
    else if field == "data" then b.(data := b.data + value + "\n")
    else b
  }

  /** A non-blank line. */
  function ProcessLine(b: Buffers, line: string): Buffers {
    var cut := Cut(line, ":");
    if cut.found && cut.before == "" then b
    else ProcessField(b, cut.before, FieldValue(cut.after))
  }

  /** A blank line: dispatches unless the data buffer is empty. */
  function Dispatch(b: Buffers): seq<Message> {
    if b.data == "" then []
    else [Message(b.event, if b.data[|b.data| - 1] == '\n' then b.data[..|b.data| - 1] else b.data)]
  }

  /** All events of a stream; what no blank line follows is discarded. */
  function Parse(s: string, b: Buffers): seq<Message>
    decreases |s|
  {
    var l := NextLine(s);
    if l.Unfinished? then []
    else if l.text == "" then Dispatch(b) + Parse(l.rest, CLEAN)
    else Parse(l.rest, ProcessLine(b, l.text))
  }

  const BOM: char := '\U{FEFF}'

  /** A whole stream: one byte order mark in front of it is ignored. */
  function Read(s: string): seq<Message> {
    Parse(if s != "" && s[0] == BOM then s[1..] else s, CLEAN)
  }

  // ----- the round trip -----

  lemma {:induction false} NextLineIs(line: string, rest: string)
    requires '\n' !in line && '\r' !in line
    ensures NextLine(line + "\n" + rest) == Line(line, rest)
  {
    var s := line + "\n" + rest;
    if line == "" {
      assert s[0] == '\n' && s[1..] == rest;
    } else {
      assert s[0] == line[0] && line[0] in line && s[1..] == line[1..] + "\n" + rest;
      NextLineIs(line[1..], rest);
      assert [line[0]] + line[1..] == line;
    }
  }

  lemma {:induction false} ParseLine(line: string, rest: string, b: Buffers)
    requires '\n' !in line && '\r' !in line
    ensures Parse(line + "\n" + rest, b) ==
            if line == "" then Dispatch(b) + Parse(rest, CLEAN) else Parse(rest, ProcessLine(b, line))
  {
    hide ProcessLine, NextLine, Dispatch;
    NextLineIs(line, rest);
  }

  lemma DataLineReads(b: Buffers, line: string)
    ensures ProcessLine(b, "data: " + line) == b.(data := b.data + line + "\n")
  {
    hide Contains;
    var before, after := "data", " " + line;
    assert "data: " + line == before + ":" + after;
    CutAtChar(before, ":", after);
    assert after[1..] == line;
  }

  /** Each data line adds itself and a line feed to the data buffer; the blank line dispatches. */
  lemma {:induction false} DataLinesRead(lines: seq<string>, rest: string, b: Buffers)
    requires forall l | l in lines :: '\n' !in l && '\r' !in l
    ensures Parse(DataLines(lines) + rest, b) == Dispatch(b.(data := b.data + Lines(lines))) + Parse(rest, CLEAN)
  {
    hide ProcessLine, Cut, Parse, Dispatch;
    if lines == [] {
      assert "" + "\n" + rest == DataLines(lines) + rest;
      ParseLine("", rest, b);
      assert b.data + "" == b.data;
    } else {
      assert lines[0] in lines && forall l | l in lines[1..] :: l in lines;
      var b' := b.(data := b.data + lines[0] + "\n");
      FirstDataLineReads(lines, rest, b);
      DataLinesRead(lines[1..], rest, b');
      assert b'.data + Lines(lines[1..]) == b.data + Lines(lines);
    }
  }

  lemma FirstDataLineReads(lines: seq<string>, rest: string, b: Buffers)
    requires lines != [] && '\n' !in lines[0] && '\r' !in lines[0]
    ensures Parse(DataLines(lines) + rest, b) ==
            Parse(DataLines(lines[1..]) + rest, b.(data := b.data + lines[0] + "\n"))
  {
    hide ProcessLine, Parse, Dispatch;
    var line, tail := "data: " + lines[0], DataLines(lines[1..]) + rest;
    assert DataLines(lines) + rest == line + "\n" + tail;
    ParseLine(line, tail, b);
    DataLineReads(b, lines[0]);
  }

  /** The lines, each closed by a line feed. */
  function Lines(lines: seq<string>): string {
    if lines == [] then "" else lines[0] + "\n" + Lines(lines[1..])
  }

  lemma {:induction false} LinesJoin(lines: seq<string>)
    requires lines != []
    ensures Lines(lines) == Join(lines, '\n') + "\n"
  {
    if |lines| > 1 {
      LinesJoin(lines[1..]);
    } else {
      assert lines[1..] == [];
    }
  }

  /** One frame on the wire is one event, whose data is the directive itself, blank lines and leading
      spaces included; the stream goes on cleanly behind it. */
  lemma FrameReads(frame: string, rest: string)
    requires '\r' !in frame && frame != ""
    ensures Parse(DataLines(Split(frame, '\n')) + rest, CLEAN) == [Message("", frame)] + Parse(rest, CLEAN)
  {
    hide Split, Parse, NextLine;
    var lines := Split(frame, '\n');
    SplitLacks(frame, '\n', '\r');
    SplitLacksSep(frame, '\n');
    SplitNonEmpty(frame, '\n');
    DataLinesRead(lines, rest, CLEAN);
    LinesJoin(lines);
    JoinSplit(frame, '\n');
    var data := frame + "\n";
    assert "" + Lines(lines) == data && data[..|data| - 1] == frame;
  }

  lemma HeartbeatReads(rest: string)
    ensures Parse(HEARTBEAT + rest, CLEAN) == Parse(rest, CLEAN)
  {
    hide NextLine, Cut, Contains;
    var line, tail := ": heartbeat", "\n" + rest;
    assert HEARTBEAT + rest == line + "\n" + tail;
    NextLineIs(line, tail);
    assert line == "" + ":" + " heartbeat";
    CutAt("", ":", " heartbeat");
    assert tail == "" + "\n" + rest;
    NextLineIs("", rest);
    assert Dispatch(CLEAN) + Parse(rest, CLEAN) == Parse(rest, CLEAN);
  }

  // ----- the whole stream -----

  /** What the loop writes: frames and heartbeat comments. */
  datatype Output = Frame(target: string, swap: string, html: string) | Beat

  function Wire(outs: seq<Output>): string {
    if outs == [] then ""
    else
      (match outs[0]
       case Frame(t, w, h) => DataLines(Split(FrameText(t, w, h), '\n'))
       case Beat => HEARTBEAT) + Wire(outs[1..])
  }

  function Frames(outs: seq<Output>): seq<Message> {
    if outs == [] then []
    else (match outs[0]
          case Frame(t, w, h) => [Message("", FrameText(t, w, h))]
          case Beat => []) + Frames(outs[1..])
  }

  /** Everything the connection ever carries reads back as exactly its frames, in order: heartbeats
      are invisible and no frame bleeds into another. */
  lemma StreamReads(outs: seq<Output>)
    requires forall o | o in outs && o.Frame? :: '\r' !in FrameText(o.target, o.swap, o.html)
    ensures Read(Wire(outs)) == Frames(outs)
  {
    assert Wire(outs) == "" || Wire(outs)[0] != BOM;
    hide Wire, Parse;
    OutputsRead(outs);
  }

  lemma {:induction false} OutputsRead(outs: seq<Output>)
    requires forall o | o in outs && o.Frame? :: '\r' !in FrameText(o.target, o.swap, o.html)
    ensures Parse(Wire(outs), CLEAN) == Frames(outs)
  {
    hide Split, FrameText, DataLines;
    if outs == [] {
    } else {
      assert outs[0] in outs && forall o | o in outs[1..] :: o in outs;
      OutputsRead(outs[1..]);
      match outs[0] {
        case Frame(t, w, h) =>
          FrameNotEmpty(t, w, h);
          FrameReads(FrameText(t, w, h), Wire(outs[1..]));
        case Beat =>
          HeartbeatReads(Wire(outs[1..]));
      }
    }
  }

  /** The directive names its target and its swap style in that order: both read back from the frame, and
      what follows the tag is the markup to the letter. */
  lemma FrameNames(target: string, swap: string, html: string)
    requires '"' !in target && '"' !in swap
    ensures var frame := FrameText(target, swap, html);
            var parts := Split(frame, '"');
            && |parts| >= 5 && parts[0] == "<hx-partial hx-target=" && parts[1] == target
            && parts[2] == " hx-swap=" && parts[3] == swap
            && Join(parts[4..], '"') == ">" + html + "</hx-partial>"
  {
    hide Split, Join;
    var tail := ">" + html + "</hx-partial>";
    var q := ['"'];
    var c := swap + q + tail;
    var b := " hx-swap=" + q + c;
    var a := target + q + b;
    assert FrameText(target, swap, html) == "<hx-partial hx-target=" + q + a;
    SplitFirst("<hx-partial hx-target=", a, '"');
    SplitFirst(target, b, '"');
    SplitFirst(" hx-swap=", c, '"');
    SplitFirst(swap, tail, '"');
    SplitNonEmpty(tail, '"');
    JoinSplit(tail, '"');
    assert Split(FrameText(target, swap, html), '"')[4..] == Split(tail, '"');
  }

  lemma FrameNotEmpty(t: string, w: string, h: string)
    ensures FrameText(t, w, h) != ""
  {
  }

  /** No event ever carries a carriage return in its data ... */
  lemma {:induction false} DataLacksCr(s: string, b: Buffers)
    requires '\r' !in b.data
    ensures forall m | m in Parse(s, b) :: '\r' !in m.data
    decreases |s|
  {
    hide Contains;
    var l := NextLine(s);
    if l.Line? {
      if l.text == "" {
        DataLacksCr(l.rest, CLEAN);
      } else {
        CutParts(l.text, ":");
        DataLacksCr(l.rest, ProcessLine(b, l.text));
      }
    }
  }

  /** ... so a frame survives the wire exactly when it contains none. */
  lemma FrameSurvives(target: string, swap: string, html: string)
    ensures var frame := FrameText(target, swap, html);
            Read(DataLines(Split(frame, '\n'))) == [Message("", frame)] <==> '\r' !in frame
  {
    assert Parse("", CLEAN) == [];
    assert forall lines :: DataLines(lines) != "" && DataLines(lines)[0] != BOM;
    assert FrameText(target, swap, html) != "";
    hide Split, Parse, FrameText, DataLines;
    var frame := FrameText(target, swap, html);
    var wire := DataLines(Split(frame, '\n'));
    if '\r' !in frame {
      FrameReads(frame, "");
      assert wire + "" == wire;
    } else {
      DataLacksCr(wire, CLEAN);
      assert Message("", frame) in [Message("", frame)];
    }
  }
}
