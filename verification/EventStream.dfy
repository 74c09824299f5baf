// The status stream's frames as text, and the event-stream format they must be read back by:
// sections 9.2.5 ("Parsing an event stream") and 9.2.6 ("Interpreting an event stream") of the
// WHATWG HTML Living Standard.

module EventStream {
  import Json
  import opened Basics

  // ---- the format ---------------------------------------------------------------------

  datatype Event = Event(name: string, data: string)

  datatype Parser = Parser(eventType: string, data: string, lastEventId: string, events: seq<Event>)

  const START := Parser("", "", "", [])

  /** The terminated lines of a stream; a line ends with LF, CR or CRLF. */
  function Lines(s: string, acc: string): seq<string>
    decreases |s|
  {
    if s == [] then []
    else if s[0] == '\n' then [acc] + Lines(s[1..], "")
    else if s[0] == '\r' then
      if |s| > 1 && s[1] == '\n' then [acc] + Lines(s[2..], "") else [acc] + Lines(s[1..], "")
    else Lines(s[1..], acc + [s[0]])
  }

  /** The length of the part of a line before its first colon. */
  function NameLength(line: string): (n: nat)
    ensures n <= |line|
    ensures n < |line| ==> line[n] == ':'
  {
    if line == [] || line[0] == ':' then 0 else 1 + NameLength(line[1..])
  }

  function ProcessField(p: Parser, name: string, value: string): Parser {
    if name == "event" then p.(eventType := value)
    else if name == "data" then p.(data := p.data + value + "\n")
    else if name == "id" && (0 as char) !in value then p.(lastEventId := value)
    else p
  }

  function Dispatch(p: Parser): Parser {
    if p.data == "" then p.(eventType := "")
    else
      var data := if p.data[|p.data| - 1] == '\n' then p.data[..|p.data| - 1] else p.data;
      var name := if p.eventType != "" then p.eventType else "message";
      p.(eventType := "", data := "", events := p.events + [Event(name, data)])
  }

  function ProcessLine(p: Parser, line: string): Parser {
    if line == "" then Dispatch(p) else
      var n := NameLength(line);
      if n == 0 then p
      else if n == |line| then ProcessField(p, line, "")
      else
        var value := line[n + 1..];
        ProcessField(p, line[..n], if value != "" && value[0] == ' ' then value[1..] else value)
  }

  function ProcessLines(p: Parser, lines: seq<string>): Parser
    decreases |lines|
  {
    if lines == [] then p else ProcessLines(ProcessLine(p, lines[0]), lines[1..])
  }

  /** The events a client sees for a stream; one leading byte order mark is ignored. */
  function Parse(stream: string): seq<Event> {
    var s := if stream != [] && stream[0] as int == 0xFEFF then stream[1..] else stream;
    ProcessLines(START, Lines(s, "")).events
  }

  // ---- the printer --------------------------------------------------------------------

  datatype Frame = Message(event: string, payload: Json.Value) | Keepalive

  /** What the generator yields for one frame. */
  function Render(f: Frame): string {
    match f
    case Message(event, payload) => "event: " + event + "\n" + ("data: " + Json.Dumps(payload) + "\n") + "\n"
    case Keepalive => ":keepalive\n" + "\n"
  }

  function RenderAll(fs: seq<Frame>): string {
    if fs == [] then [] else Render(fs[0]) + RenderAll(fs[1..])
  }

  /** The events the emitted frames stand for. */
  function Intended(fs: seq<Frame>): seq<Event> {
    if fs == [] then []
    else if fs[0].Message? then [Event(fs[0].event, Json.Dumps(fs[0].payload))] + Intended(fs[1..])
    else Intended(fs[1..])
  }

  predicate OneLine(s: string) {
    forall i :: 0 <= i < |s| ==> s[i] != '\n' && s[i] != '\r'
  }

  /** Event names the stream uses are nonempty and hold no line break. */
  ghost predicate Nameable(f: Frame) {
    f.Message? ==> f.event != "" && OneLine(f.event)
  }

  // ---- reading back -------------------------------------------------------------------

  lemma {:induction false} LineStep(line: string, rest: string, acc: string)
    requires OneLine(line)
    ensures Lines(line + "\n" + rest, acc) == [acc + line] + Lines(rest, "")
  {
    var s := line + "\n" + rest;
    if line == [] {
      assert s == "\n" + rest && s[1..] == rest;
      assert acc + line == acc;
    } else {
      assert s[1..] == line[1..] + "\n" + rest;
      assert acc + [line[0]] + line[1..] == acc + line;
      LineStep(line[1..], rest, acc + [line[0]]);
    }
  }

  lemma ProcessField2(p: Parser, name: string, value: string)
    requires name == "event" || name == "data"
    ensures ProcessLine(p, name + ": " + value) == ProcessField(p, name, value)
  {
    var line := name + ": " + value;
    NameLengthOf(name, ": " + value);
    assert line == name + (": " + value);
    assert line[..|name|] == name && line[|name| + 1..] == " " + value;
    assert (" " + value)[1..] == value;
  }

  lemma {:induction false} NameLengthOf(name: string, tail: string)
    requires ':' !in name && tail != [] && tail[0] == ':'
    ensures NameLength(name + tail) == |name|
  {
    if name == [] {
      assert name + tail == tail;
    } else {
      assert (name + tail)[1..] == name[1..] + tail;
      NameLengthOf(name[1..], tail);
    }
  }

  lemma LinesOfMessage(l0: string, l1: string, rest: string)
    requires OneLine(l0) && OneLine(l1)
    ensures Lines(l0 + "\n" + (l1 + "\n") + "\n" + rest, "") == [l0] + ([l1] + ([""] + Lines(rest, "")))
  {
    var r2 := "" + "\n" + rest;
    var r1 := l1 + "\n" + r2;
    assert l0 + "\n" + (l1 + "\n") + "\n" + rest == l0 + "\n" + r1;
    LineStep(l0, r1, "");
    LineStep(l1, r2, "");
    LineStep("", rest, "");
    assert "" + l0 == l0 && "" + l1 == l1 && "" + "" == "";
  }

  lemma ProcessCons(p: Parser, line: string, lines: seq<string>)
    ensures ProcessLines(p, [line] + lines) == ProcessLines(ProcessLine(p, line), lines)
  {
    assert ([line] + lines)[1..] == lines;
  }

  lemma FieldLines(event: string, data: string)
    ensures "event" + ": " + event == "event: " + event
    ensures "data" + ": " + data == "data: " + data
  {
  }

  lemma DispatchMessage(p: Parser, event: string, data: string)
    requires p.eventType == "" && p.data == "" && event != ""
    ensures var q := ProcessField(ProcessField(p, "event", event), "data", data);
            ProcessLine(q, "") == p.(events := p.events + [Event(event, data)])
  {
    var q := p.(eventType := event, data := "" + data + "\n");
    assert q.data == data + "\n";
    assert q.data[..|q.data| - 1] == data;
  }

  lemma ProcessMessage(p: Parser, event: string, data: string, lines: seq<string>)
    requires p.eventType == "" && p.data == "" && event != ""
    ensures ProcessLines(p, ["event: " + event] + (["data: " + data] + ([""] + lines)))
         == ProcessLines(p.(events := p.events + [Event(event, data)]), lines)
  {
    var l1, l2 := "event: " + event, "data: " + data;
    FieldLines(event, data);
    ProcessField2(p, "event", event);
    var p1 := ProcessLine(p, l1);
    ProcessField2(p1, "data", data);
    var p2 := ProcessLine(p1, l2);
    DispatchMessage(p, event, data);
    ProcessCons(p, l1, [l2] + ([""] + lines));
    ProcessCons(p1, l2, [""] + lines);
    ProcessCons(p2, "", lines);
  }

  /** One frame, read between events, dispatches exactly what it stands for. */
  lemma FrameReadsBack(f: Frame, rest: string, p: Parser)
    requires Nameable(f)
    requires p.eventType == "" && p.data == ""
    ensures ProcessLines(p, Lines(Render(f) + rest, ""))
         == ProcessLines(p.(events := p.events + Intended([f])), Lines(rest, ""))
  {
    match f
    case Keepalive =>
      assert Render(f) + rest == ":keepalive" + "\n" + ("" + "\n" + rest);
      LineStep(":keepalive", "" + "\n" + rest, "");
      LineStep("", rest, "");
      assert "" + ":keepalive" == ":keepalive" && "" + "" == "";
      ProcessCons(p, ":keepalive", [""] + Lines(rest, ""));
      ProcessCons(p, "", Lines(rest, ""));
      assert p.events + [] == p.events;
    case Message(event, payload) =>
      var data := Json.Dumps(payload);
      Json.DumpsPrintable(payload);
      LinesOfMessage("event: " + event, "data: " + data, rest);
      ProcessMessage(p, event, data, Lines(rest, ""));
      assert Intended([f]) == [Event(event, data)];
  }

  lemma {:induction false} FramesReadBackFrom(fs: seq<Frame>, p: Parser)
    requires forall f :: f in fs ==> Nameable(f)
    requires p.eventType == "" && p.data == ""
    ensures ProcessLines(p, Lines(RenderAll(fs), "")).events == p.events + Intended(fs)
  {
    if fs == [] {
      assert p.events + [] == p.events;
    } else {
      var q := p.(events := p.events + Intended([fs[0]]));
      FirstFrameReadsBack(fs, p, q);
      FramesReadBackFrom(fs[1..], q);
      IntendedCons(fs);
      Assoc(p.events, Intended([fs[0]]), Intended(fs[1..]));
    }
  }

  lemma FirstFrameReadsBack(fs: seq<Frame>, p: Parser, q: Parser)
    requires fs != [] && Nameable(fs[0])
    requires p.eventType == "" && p.data == ""
    requires q == p.(events := p.events + Intended([fs[0]]))
    ensures ProcessLines(p, Lines(RenderAll(fs), "")) == ProcessLines(q, Lines(RenderAll(fs[1..]), ""))
  {
    FrameReadsBack(fs[0], RenderAll(fs[1..]), p);
  }

  lemma IntendedCons(fs: seq<Frame>)
    requires fs != []
    ensures Intended(fs) == Intended([fs[0]]) + Intended(fs[1..])
  {
  }

  /**
   * Reading the concatenation of all emitted frames and keepalive comments recovers exactly the
   * emitted events, in order.
   */
  lemma FramesReadBack(fs: seq<Frame>)
    requires forall f :: f in fs ==> Nameable(f)
    ensures Parse(RenderAll(fs)) == Intended(fs)
  {
    if fs != [] {
      assert RenderAll(fs)[0] == Render(fs[0])[0];
      if fs[0].Message? {
        assert Render(fs[0])[0] == 'e';
      } else {
        assert Render(fs[0])[0] == ':';
      }
    }
    FramesReadBackFrom(fs, START);
  }

  // ---- a connection cut anywhere ------------------------------------------------------

  lemma {:induction false} LinesOfPrefix(s: string, t: string, acc: string)
    ensures Lines(s, acc) <= Lines(s + t, acc)
    decreases |s|
  {
    if s != [] {
      var n := if s[0] == '\r' && |s| > 1 && s[1] == '\n' then 2 else 1;
      assert (s + t)[n..] == s[n..] + t;
      if s[0] == '\n' || s[0] == '\r' {
        LinesOfPrefix(s[n..], t, "");
      } else {
        LinesOfPrefix(s[1..], t, acc + [s[0]]);
      }
    }
  }

  lemma {:induction false} EventsOfPrefix(p: Parser, a: seq<string>, b: seq<string>)
    requires a <= b
    ensures ProcessLines(p, a).events <= ProcessLines(p, b).events
    ensures p.events <= ProcessLines(p, b).events
    decreases |b|
  {
    if b != [] {
      var q := ProcessLine(p, b[0]);
      assert p.events <= q.events;
      if a == [] {
        EventsOfPrefix(q, [], b[1..]);
      } else {
        EventsOfPrefix(q, a[1..], b[1..]);
      }
    }
  }

  /**
   * Wherever a connection breaks, even inside a frame, the client has seen a prefix of the
   * emitted events: no truncated or invented one.
   */
  lemma CutStreamReadsBack(fs: seq<Frame>, cut: nat)
    requires forall f :: f in fs ==> Nameable(f)
    requires cut <= |RenderAll(fs)|
    ensures Parse(RenderAll(fs)[..cut]) <= Intended(fs)
  {
    var s := RenderAll(fs);
    FramesReadBack(fs);
    if cut > 0 {
      var k := if s[0] as int == 0xFEFF then 1 else 0;
      assert s[..cut][k..] + s[cut..] == s[k..];
      LinesOfPrefix(s[..cut][k..], s[cut..], "");
      EventsOfPrefix(START, Lines(s[..cut][k..], ""), Lines(s[k..], ""));
      assert s[..cut][0..] == s[..cut] && s[0..] == s;
    }
  }
}
