/** What the streamed responses mean to an HTTP client that reads them as an event stream, by section
    9.2 of the WHATWG HTML standard (src/agent/main.py:330-348, src/agent/nodes/inference.py:317-335,
    src/agent/graph.py:297-312, src/agent/router_legacy.py:686-720). Event names, ids and reconnection
    times are not modelled. */
module EventStreams {
  import opened Prelude
  import opened SseReaders
  import Workflow

  // ----- the standard's reader ------------------------------------------

  predicate IsBreak(c: char) {
    c == '\n' || c == '\r'
  }

  predicate HasBreak(text: string) {
    exists i :: 0 <= i < |text| && IsBreak(text[i])
  }

  /** Where the first line ends. */
  function LineEnd(text: string): (i: nat)
    ensures i <= |text| && (i < |text| ==> IsBreak(text[i]))
    ensures forall j :: 0 <= j < i ==> !IsBreak(text[j])
  {
    if text == "" || IsBreak(text[0]) then 0 else 1 + LineEnd(text[1..])
  }

  /** Where the next line starts: a carriage return and a line feed are one break. */
  function NextLine(text: string): (i: nat)
    requires LineEnd(text) < |text|
    ensures LineEnd(text) < i <= |text|
  {
    var i := LineEnd(text);
    if text[i] == '\r' && i + 1 < |text| && text[i + 1] == '\n' then i + 2 else i + 1
  }

  /** The lines of a text, each ended by a break. What follows the last break never matters. */
  function LinesIn(text: string): seq<string>
    decreases |text|
  {
    if LineEnd(text) == |text| then [] else [text[..LineEnd(text)]] + LinesIn(text[NextLine(text)..])
  }

  /** Where a field's name ends. */
  function Colon(line: string): (i: nat)
    ensures i <= |line| && (i < |line| ==> line[i] == ':')
    ensures forall j :: 0 <= j < i ==> line[j] != ':'
  {
    if line == "" || line[0] == ':' then 0 else 1 + Colon(line[1..])
  }

  predicate IsDataField(line: string) {
    line[..Colon(line)] == "data"
  }

  /** The value of a field: what follows the colon, less one space. */
  function Value(line: string): string {
    var i := Colon(line);
    if i == |line| then ""
    else if i + 1 < |line| && line[i + 1] == ' ' then line[i + 2..]
    else line[i + 1..]
  }

  /** The data buffer after one line. */
  function Buffered(buffer: string, line: string): string {
    if IsDataField(line) then buffer + Value(line) + "\n" else buffer
  }

  /** The data of the events dispatched, starting with some data in the buffer. An empty line
      dispatches what is buffered; what is left at the end is discarded. */
  function Dispatched(lines: seq<string>, buffer: string): seq<string> {
    if lines == [] then []
    else if lines[0] != "" then Dispatched(lines[1..], Buffered(buffer, lines[0]))
    else (if buffer == "" then [] else [buffer[..|buffer| - 1]]) + Dispatched(lines[1..], "")
  }

  /** The events of a response body. */
  function Events(body: string): seq<string> {
    Dispatched(LinesIn(body), "")
  }

  // ----- lines of a body that is put together ---------------------------

  lemma {:induction false} LineEndAt(text: string, i: nat)
    requires i < |text| && IsBreak(text[i]) && forall j :: 0 <= j < i ==> !IsBreak(text[j])
    ensures LineEnd(text) == i
  {
  }

  /** A line without break, ended by a line feed. */
  lemma {:induction false} OneLine(line: string, rest: string)
    requires !HasBreak(line)
    ensures LinesIn(line + "\n" + rest) == [line] + LinesIn(rest)
  {
    var text := line + "\n" + rest;
    forall j | 0 <= j < |line| ensures !IsBreak(text[j]) {
      assert text[j] == line[j];
    }
    LineEndAt(text, |line|);
    assert text[..|line|] == line && text[|line| + 1..] == rest;
  }

  lemma {:induction false} FirstLineConcat(text: string, rest: string)
    requires text != "" && text[|text| - 1] == '\n'
    ensures var all, i := text + rest, LineEnd(text);
      && i < |text| && LineEnd(all) == i && NextLine(all) == NextLine(text)
      && all[..i] == text[..i] && all[NextLine(text)..] == text[NextLine(text)..] + rest
  {
    var all, i := text + rest, LineEnd(text);
    assert IsBreak(text[|text| - 1]);
    assert forall j :: 0 <= j < |text| ==> all[j] == text[j];
    LineEndAt(all, i);
  }

  lemma {:induction false} FirstLine(text: string)
    requires LineEnd(text) < |text|
    ensures LinesIn(text) == [text[..LineEnd(text)]] + LinesIn(text[NextLine(text)..])
  {
  }

  lemma {:induction false} NoLine(rest: string)
    ensures LinesIn("" + rest) == LinesIn("") + LinesIn(rest)
  {
    assert "" + rest == rest && LinesIn("") == [] && [] + LinesIn(rest) == LinesIn(rest);
  }

  /** After a line feed a new line starts, whatever came before. */
  lemma {:induction false} LinesConcat(text: string, rest: string)
    requires text != "" && text[|text| - 1] == '\n'
    ensures LinesIn(text + rest) == LinesIn(text) + LinesIn(rest)
    decreases |text|
  {
    hide *;
    FirstLineConcat(text, rest);
    var next := NextLine(text);
    var tail := text[next..];
    if tail == "" {
      NoLine(rest);
    } else {
      assert tail[|tail| - 1] == text[|text| - 1];
      LinesConcat(tail, rest);
    }
    FirstLine(text);
    FirstLine(text + rest);
    ConcatAssociative([text[..LineEnd(text)]], LinesIn(tail), LinesIn(rest));
  }

  /** Every line takes up its own length and at least one character more. */
  ghost function Length(lines: seq<string>): nat {
    if lines == [] then 0 else |lines[0]| + 1 + Length(lines[1..])
  }

  lemma {:induction false} LinesFit(text: string)
    ensures Length(LinesIn(text)) <= |text|
    decreases |text|
  {
    if LineEnd(text) == |text| {
    } else {
      var i, next := LineEnd(text), NextLine(text);
      LinesFit(text[next..]);
      assert ([text[..i]] + LinesIn(text[next..]))[1..] == LinesIn(text[next..]);
    }
  }

  // ----- events of lines ------------------------------------------------

  lemma {:induction false} DispatchedConcat(a: seq<string>, b: seq<string>, buffer: string)
    requires a != [] && a[|a| - 1] == ""
    ensures Dispatched(a + b, buffer) == Dispatched(a, buffer) + Dispatched(b, "")
  {
    var rest := a[1..];
    assert (a + b)[1..] == rest + b && (a + b)[0] == a[0];
    if rest == [] {
      assert rest + b == b && Dispatched(rest, "") == [];
    } else {
      assert rest[|rest| - 1] == "";
      DispatchedConcat(rest, b, if a[0] != "" then Buffered(buffer, a[0]) else "");
      ConcatAssociative(if buffer == "" then [] else [buffer[..|buffer| - 1]], Dispatched(rest, ""), Dispatched(b, ""));
    }
    hide Buffered;
  }

  lemma {:induction false} DataLine(payload: string)
    ensures IsDataField("data: " + payload) && Value("data: " + payload) == payload
  {
    var line := "data: " + payload;
    assert Colon(line) == 4 by {
      ColonAt(line, 4);
    }
    assert line[..4] == "data" && line[6..] == payload;
  }

  lemma {:induction false} ColonAt(line: string, i: nat)
    requires i < |line| && line[i] == ':' && forall j :: 0 <= j < i ==> line[j] != ':'
    ensures Colon(line) == i
  {
  }

  /** One event as it is sent. */
  function Framed(payload: string): string {
    "data: " + payload + "\n\n"
  }

  lemma {:induction false} EmptyLine(rest: string)
    ensures LinesIn("\n" + rest) == [""] + LinesIn(rest)
  {
    var text := "\n" + rest;
    LineEndAt(text, 0);
    assert text[..0] == "" && text[1..] == rest;
  }

  lemma {:induction false} FramedIs(payload: string, rest: string)
    ensures Framed(payload) + rest == "data: " + payload + "\n" + ("\n" + rest)
  {
    assert "\n\n" == "\n" + "\n";
  }

  lemma {:induction false} FramedLines(payload: string, rest: string)
    requires !HasBreak(payload)
    ensures LinesIn(Framed(payload) + rest) == ["data: " + payload, ""] + LinesIn(rest)
  {
    DataHasNoBreak(payload);
    FramedIs(payload, rest);
    hide *;
    OneLine("data: " + payload, "\n" + rest);
    EmptyLine(rest);
    assert ["data: " + payload] + ([""] + LinesIn(rest)) == ["data: " + payload, ""] + LinesIn(rest);
  }

  /** A payload without break is one event. */
  lemma {:induction false} OneEvent(payload: string, rest: string)
    requires !HasBreak(payload)
    ensures Events(Framed(payload) + rest) == [payload] + Events(rest)
  {
    FramedLines(payload, rest);
    DataLine(payload);
    DispatchOne("data: " + payload, payload, LinesIn(rest));
    hide LinesIn, HasBreak, Dispatched, Framed, IsDataField, Value;
  }

  lemma {:induction false} DataHasNoBreak(payload: string)
    ensures HasBreak("data: " + payload) <==> HasBreak(payload)
  {
    var line := "data: " + payload;
    assert line[..6] == "data: " && forall i :: 0 <= i < |payload| ==> line[i + 6] == payload[i];
    if HasBreak(payload) {
      var i :| 0 <= i < |payload| && IsBreak(payload[i]);
      assert IsBreak(line[i + 6]);
    }
    if HasBreak(line) {
      var i :| 0 <= i < |line| && IsBreak(line[i]);
      assert i >= 6 ==> payload[i - 6] == line[i];
      assert i < 6 ==> line[i] == "data: "[i];
    }
  }

  lemma {:induction false} DispatchOne(line: string, payload: string, lines: seq<string>)
    requires line != "" && IsDataField(line) && Value(line) == payload
    ensures Dispatched([line, ""] + lines, "") == [payload] + Dispatched(lines, "")
  {
    var all, blank := [line, ""] + lines, [""] + lines;
    assert all[0] == line && all[1..] == blank && blank[0] == "" && blank[1..] == lines;
    assert Buffered("", line) == payload + "\n" && (payload + "\n")[..|payload + "\n"| - 1] == payload;
    hide IsDataField, Value, Buffered;
    assert Dispatched(all, "") == Dispatched(blank, payload + "\n");
    assert Dispatched(blank, payload + "\n") == [payload] + Dispatched(lines, "");
  }

  // ----- the relayed answer ---------------------------------------------

  /** What a client receives when the lines are sent one after the other. */
  function Body(chunks: seq<string>): string {
    if chunks == [] then "" else chunks[0] + Body(chunks[1..])
  }

  ghost predicate Unbroken(lines: seq<string>) {
    forall k :: 0 <= k < |lines| ==> !HasBreak(lines[k])
  }

  lemma {:induction false} SentLines(lines: seq<string>, chunks: seq<string>)
    requires Unbroken(lines) && |chunks| == |lines| && forall k :: 0 <= k < |lines| ==> chunks[k] == lines[k] + "\n"
    ensures LinesIn(Body(chunks)) == lines
  {
    if lines == [] {
    } else {
      SentLines(lines[1..], chunks[1..]);
      OneLine(lines[0], Body(chunks[1..]));
      assert lines == [lines[0]] + lines[1..];
      hide LinesIn, HasBreak;
    }
  }

  /** Without empty lines nothing is dispatched. */
  lemma {:induction false} NothingDispatched(lines: seq<string>, buffer: string)
    requires "" !in lines
    ensures Dispatched(lines, buffer) == []
  {
    if lines == [] {
    } else {
      NothingDispatched(lines[1..], Buffered(buffer, lines[0]));
      hide Buffered;
    }
  }

  lemma {:induction false} NonBlankMembers(lines: seq<string>)
    ensures forall x :: x in NonBlank(lines) <==> x in lines && x != ""
  {
    if lines == [] {
    } else {
      var n := |lines| - 1;
      NonBlankMembers(lines[..n]);
      assert lines == lines[..n] + [lines[n]];
    }
  }

  /** No event of a relayed answer reaches the client. */
  lemma {:induction false} NothingIsRelayed(answer: seq<string>)
    requires Unbroken(answer)
    ensures Events(Body(Workflow.Relayed(answer))) == []
  {
    var kept := NonBlank(answer);
    NonBlankMembers(answer);
    forall k | 0 <= k < |kept| ensures !HasBreak(kept[k]) {
      assert kept[k] in answer;
    }
    SentLines(kept, Workflow.Relayed(answer));
    NothingDispatched(kept, "");
  }

  /** Some empty line follows a data line. */
  ghost predicate Completes(lines: seq<string>) {
    exists i, j :: 0 <= i < j < |lines| && IsDataField(lines[i]) && lines[j] == ""
  }

  /** Exactly then an event is dispatched. */
  lemma {:induction false} DispatchesIff(lines: seq<string>, buffer: string)
    ensures Dispatched(lines, buffer) != [] <==> (buffer != "" && "" in lines) || Completes(lines)
  {
    if lines == [] {
    } else {
      var line, rest := lines[0], lines[1..];
      var more := if line != "" then Buffered(buffer, line) else "";
      DispatchesIff(rest, more);
      assert IsDataField(line) ==> line != "" by {
        assert line == "" ==> line[..Colon(line)] == "";
      }
      assert line != "" && IsDataField(line) ==> more != "";
      hide IsDataField, Buffered, Dispatched;
      assert "" in lines <==> line == "" || "" in rest;
      CompletesStep(lines);
    }
  }

  lemma {:induction false} CompletesStep(lines: seq<string>)
    requires lines != []
    ensures Completes(lines) <==> Completes(lines[1..]) || (IsDataField(lines[0]) && "" in lines[1..])
  {
    var rest := lines[1..];
    if IsDataField(lines[0]) && "" in rest {
      var j :| 0 <= j < |rest| && rest[j] == "";
      assert lines[j + 1] == "";
    }
    if Completes(rest) {
      var i, j :| 0 <= i < j < |rest| && IsDataField(rest[i]) && rest[j] == "";
      assert IsDataField(lines[i + 1]) && lines[j + 1] == "";
    }
    if Completes(lines) {
      var i, j :| 0 <= i < j < |lines| && IsDataField(lines[i]) && lines[j] == "";
      assert rest[j - 1] == "";
      assert i > 0 ==> IsDataField(rest[i - 1]);
    }
    hide IsDataField;
  }

  /** Read as an event stream, a relayed answer carries the answer's own events exactly when the
      answer has none, that is, when no empty line follows a data line. */
  lemma {:induction false} RelayKeepsEventsIff(answer: seq<string>)
    requires Unbroken(answer)
    ensures Events(Body(Workflow.Relayed(answer))) == Dispatched(answer, "") <==> !Completes(answer)
  {
    NothingIsRelayed(answer);
    DispatchesIff(answer, "");
  }

  // ----- the status answer ----------------------------------------------

  /** What a status query is answered with. */
  function StatusBody(status: string): string {
    Body([Framed(status), Framed("[DONE]")])
  }

  lemma {:induction false} StatusBodyIs(status: string)
    ensures StatusBody(status) == Framed(status) + Framed("[DONE]")
  {
    assert [Framed(status), Framed("[DONE]")][1..] == [Framed("[DONE]")];
    assert Body([Framed("[DONE]")]) == Framed("[DONE]") + "" == Framed("[DONE]") by {
      assert [Framed("[DONE]")][1..] == [];
    }
    hide Framed;
  }

  lemma {:induction false} MarkerUnbroken()
    ensures !HasBreak("[DONE]")
  {
    assert forall i :: 0 <= i < 6 ==> !IsBreak("[DONE]"[i]);
  }

  lemma {:induction false} EndMarker()
    ensures Events(Framed("[DONE]")) == ["[DONE]"]
  {
    MarkerUnbroken();
    OneEvent("[DONE]", "");
    assert Framed("[DONE]") + "" == Framed("[DONE]");
    assert LinesIn("") == [] && Events("") == [];
    hide LinesIn, Dispatched, Framed;
  }

  /** What the data lines add to the buffer. */
  ghost function Weight(lines: seq<string>): nat {
    if lines == [] then 0
    else (if IsDataField(lines[0]) then |Value(lines[0])| + 1 else 0) + Weight(lines[1..])
  }

  /** Less than the lines take up. */
  lemma {:induction false} WeightIsLess(lines: seq<string>)
    ensures Weight(lines) + |lines| <= Length(lines)
  {
    if lines == [] {
    } else {
      WeightIsLess(lines[1..]);
      assert IsDataField(lines[0]) ==> |Value(lines[0])| + 4 <= |lines[0]|;
      hide IsDataField, Value;
    }
  }

  /** No event holds more than its lines add. */
  lemma {:induction false} EventsWeigh(lines: seq<string>, buffer: string, k: nat)
    requires k < |Dispatched(lines, buffer)|
    ensures |Dispatched(lines, buffer)[k]| + 1 <= |buffer| + Weight(lines)
  {
    var line, rest := lines[0], lines[1..];
    if line != "" {
      EventsWeigh(rest, Buffered(buffer, line), k);
    } else if buffer == "" {
      EventsWeigh(rest, "", k);
    } else if k > 0 {
      EventsWeigh(rest, "", k - 1);
    }
    hide IsDataField, Value;
  }

  /** Before its last empty line a text has at least one line. */
  lemma {:induction false} EndsBlank(text: string)
    ensures |LinesIn(text + "\n\n")| >= 2 && LinesIn(text + "\n\n")[|LinesIn(text + "\n\n")| - 1] == ""
  {
    var front := text + "\n";
    assert front + "\n" == text + "\n\n" && front[|text|] == '\n';
    LinesConcat(front, "\n");
    EmptyLine("");
    assert "\n" + "" == "\n" && LinesIn("") == [];
    HasLine(front, |text|);
    hide LinesIn;
  }

  lemma {:induction false} HasLine(text: string, i: nat)
    requires i < |text| && IsBreak(text[i])
    ensures LinesIn(text) != []
  {
  }

  /** A status is followed by the end marker as an event of its own, whatever it holds. */
  lemma {:induction false} StatusEvents(status: string)
    ensures Events(StatusBody(status)) == Events(Framed(status)) + ["[DONE]"]
  {
    var text := Framed(status);
    StatusBodyIs(status);
    assert text == "data: " + status + "\n\n" && text[|text| - 1] == '\n';
    EndsBlank("data: " + status);
    LinesConcat(text, Framed("[DONE]"));
    DispatchedConcat(LinesIn(text), LinesIn(Framed("[DONE]")), "");
    EndMarker();
    hide LinesIn, Dispatched, Framed;
  }

  /** What follows the first break of a status adds less to its events than to it. */
  lemma {:induction false} RestIsLess(status: string, i: nat)
    requires i < |status| && IsBreak(status[i]) && forall j :: 0 <= j < i ==> !IsBreak(status[j])
    ensures var text := Framed(status);
      && LineEnd(text) == i + 6 && text[..i + 6] == "data: " + status[..i]
      && Weight(LinesIn(text[NextLine(text)..])) + i < |status|
  {
    var text := Framed(status);
    FirstBreak(status, i);
    RestHasLines(status, i);
    LinesFit(text[NextLine(text)..]);
    WeightIsLess(LinesIn(text[NextLine(text)..]));
    hide LinesIn, Weight, Length, NextLine;
  }

  lemma {:induction false} RestHasLines(status: string, i: nat)
    requires i < |status| && LineEnd(Framed(status)) == i + 6
    ensures |Framed(status)| == |status| + 8
    ensures |LinesIn(Framed(status)[NextLine(Framed(status))..])| + NextLine(Framed(status)) >= i + 9
  {
    var text := Framed(status);
    var next := NextLine(text);
    var rest := text[next..];
    assert i + 7 <= next <= i + 8 && |rest| == |status| + 8 - next > 0;
    hide LinesIn;
    if next == i + 7 {
      assert rest == status[i + 1..] + "\n\n";
      EndsBlank(status[i + 1..]);
    } else {
      assert rest[|rest| - 1] == '\n';
      HasLine(rest, |rest| - 1);
    }
  }

  lemma {:induction false} FirstBreak(status: string, i: nat)
    requires i < |status| && IsBreak(status[i]) && forall j :: 0 <= j < i ==> !IsBreak(status[j])
    ensures LineEnd(Framed(status)) == i + 6 && Framed(status)[..i + 6] == "data: " + status[..i]
  {
    var text := Framed(status);
    assert forall j :: 0 <= j < |status| ==> text[j + 6] == status[j];
    assert text[..6] == "data: ";
    forall j | 0 <= j < i + 6 ensures !IsBreak(text[j]) {
      assert if j < 6 then text[j] == "data: "[j] else text[j] == status[j - 6];
    }
    LineEndAt(text, i + 6);
  }

  lemma {:induction false} BrokenStatusIsCut(status: string, k: nat)
    requires HasBreak(status) && k < |Events(Framed(status))|
    ensures |Events(Framed(status))[k]| < |status|
  {
    var i := LineEnd(status);
    var j :| 0 <= j < |status| && IsBreak(status[j]);
    assert i < |status|;
    RestIsLess(status, i);
    var text := Framed(status);
    var first, rest := text[..i + 6], LinesIn(text[NextLine(text)..]);
    assert LinesIn(text) == [first] + rest && ([first] + rest)[1..] == rest;
    DataLine(status[..i]);
    EventsWeigh(LinesIn(text), "", k);
    hide LinesIn, Dispatched, IsDataField, Value, Framed;
  }

  /** Read as an event stream, the answer to a status query holds the status exactly when the status
      holds no line break. */
  lemma {:induction false} StatusArrivesIff(status: string)
    ensures status in Events(StatusBody(status)) <==> !HasBreak(status)
    ensures !HasBreak(status) ==> Events(StatusBody(status)) == [status, "[DONE]"]
  {
    hide HasBreak;
    StatusEvents(status);
    MarkerUnbroken();
    var events := Events(Framed(status));
    if HasBreak(status) {
      forall k | 0 <= k < |events| ensures events[k] != status {
        BrokenStatusIsCut(status, k);
      }
    } else {
      OneEvent(status, "");
      assert Framed(status) + "" == Framed(status) && LinesIn("") == [] && Events("") == [];
      assert [status] + [] == [status] && [status] + ["[DONE]"] == [status, "[DONE]"];
    }
    hide LinesIn, Dispatched, Framed, StatusBody;
  }

  // ----- the status text ------------------------------------------------

  /** The figures `format_status_for_agent` writes down, as text. */
  datatype Summary = Summary(overall: string, vram: string, utilization: string, gpuCount: string,
                             gpus: seq<string>, memories: string, healthy: bool)

  function GpuLines(gpus: seq<string>): (lines: seq<string>)
    ensures |lines| == |gpus| && forall k :: 0 <= k < |lines| ==> lines[k] == "  - GPU " + gpus[k]
  {
    seq(|gpus|, k requires 0 <= k < |gpus| => "  - GPU " + gpus[k])
  }

  function Headline(s: Summary): string {
    "**System Status: " + s.overall + "**"
  }

  /** What follows the first two lines. */
  function Details(s: Summary): seq<string> {
    ["**VRAM:** " + s.vram + " (" + s.utilization + "% utilized)", "**GPUs:** " + s.gpuCount + " active"] +
    GpuLines(s.gpus) +
    ["", "**Memories:** " + s.memories + " stored in Mem0", "",
     if s.healthy then "All systems operational." else "Some systems degraded - check logs."]
  }

  /** `format_status_for_agent`. */
  function FormatStatus(s: Summary): string {
    Join([Headline(s), ""] + Details(s))
  }

  function Ended(lines: seq<string>): (chunks: seq<string>)
    ensures |chunks| == |lines| && forall k :: 0 <= k < |chunks| ==> chunks[k] == lines[k] + "\n"
  {
    seq(|lines|, k requires 0 <= k < |lines| => lines[k] + "\n")
  }

  lemma {:induction false} BodyConcat(a: seq<string>, b: seq<string>)
    ensures Body(a + b) == Body(a) + Body(b)
  {
    if a == [] {
      assert a + b == b && "" + Body(b) == Body(b);
    } else {
      assert (a + b)[1..] == a[1..] + b;
      BodyConcat(a[1..], b);
      ConcatAssociative(a[0], Body(a[1..]), Body(b));
    }
  }

  lemma {:induction false} JoinedBody(lines: seq<string>)
    requires lines != []
    ensures Body(Ended(lines)) == Join(lines) + "\n"
  {
    var n := |lines| - 1;
    OneChunk(lines[n] + "\n");
    if n == 0 {
      assert Ended(lines) == [lines[0] + "\n"];
    } else {
      JoinedBody(lines[..n]);
      BodyConcat(Ended(lines[..n]), [lines[n] + "\n"]);
      assert Ended(lines) == Ended(lines[..n]) + [lines[n] + "\n"];
      assert Join(lines) + "\n" == Join(lines[..n]) + "\n" + (lines[n] + "\n");
    }
  }

  lemma {:induction false} OneChunk(chunk: string)
    ensures Body([chunk]) == chunk
  {
    assert [chunk][1..] == [] && chunk + "" == chunk;
  }

  /** Only the first line of a text of several lines is sent as data. */
  lemma {:induction false} FramedJoin(lines: seq<string>)
    requires lines != [] && Unbroken(lines)
    ensures LinesIn(Framed(Join(lines))) == ["data: " + lines[0]] + lines[1..] + [""]
  {
    var sent := ["data: " + lines[0]] + lines[1..] + [""];
    DataHasNoBreak(lines[0]);
    assert !HasBreak("");
    assert Unbroken(sent);
    JoinedBody(lines);
    FramedBody(lines);
    hide HasBreak, Framed, Join, Body;
    SentLines(sent, Ended(sent));
  }

  lemma {:induction false} EndedConcat(a: seq<string>, b: seq<string>)
    ensures Ended(a + b) == Ended(a) + Ended(b)
  {
  }

  lemma {:induction false} BodyOfFirst(first: string, rest: seq<string>)
    ensures Body(Ended([first] + rest)) == first + "\n" + Body(Ended(rest))
  {
    assert Ended([first]) == [first + "\n"];
    EndedConcat([first], rest);
    BodyConcat(Ended([first]), Ended(rest));
    OneChunk(first + "\n");
    hide Body, Ended;
  }

  lemma {:induction false} FramedBody(lines: seq<string>)
    requires lines != [] && Body(Ended(lines)) == Join(lines) + "\n"
    ensures Body(Ended(["data: " + lines[0]] + lines[1..] + [""])) == Framed(Join(lines))
  {
    var first, rest := lines[0], lines[1..];
    assert Framed(Join(lines)) == "data: " + (Join(lines) + "\n") + "\n";
    hide *;
    assert lines == [first] + rest;
    BodyOfFirst(first, rest);
    BodyOfFirst("data: " + first, rest);
    EndedConcat(["data: " + first] + rest, [""]);
    BodyConcat(Ended(["data: " + first] + rest), Ended([""]));
    BlankEnd();
    assert "data: " + first + "\n" + Body(Ended(rest)) == "data: " + (first + "\n" + Body(Ended(rest)));
  }

  lemma {:induction false} BlankEnd()
    ensures Body(Ended([""])) == "\n"
  {
    assert Ended([""]) == ["" + "\n"] && "" + "\n" == "\n";
    OneChunk("\n");
  }

  lemma {:induction false} NoData(lines: seq<string>)
    requires forall k :: 0 <= k < |lines| ==> !IsDataField(lines[k])
    ensures Dispatched(lines, "") == []
  {
    if lines == [] {
    } else {
      NoData(lines[1..]);
      hide IsDataField;
    }
  }

  lemma {:induction false} OtherStart(line: string)
    requires line == "" || line[0] != 'd'
    ensures !IsDataField(line)
  {
    assert "data"[0] == 'd';
    assert Colon(line) > 0 ==> line[..Colon(line)][0] == line[0];
  }

  ghost predicate UnbrokenSummary(s: Summary) {
    Unbroken([Headline(s), ""] + Details(s))
  }

  lemma {:induction false} DetailsAreNoData(s: Summary, k: nat)
    requires k < |Details(s)|
    ensures !IsDataField(Details(s)[k])
  {
    OtherStart(Details(s)[k]);
  }

  lemma {:induction false} FirstLineOnly(head: string, details: seq<string>)
    requires Unbroken([head, ""] + details) && forall k :: 0 <= k < |details| ==> !IsDataField(details[k])
    ensures Events(StatusBody(Join([head, ""] + details))) == [head, "[DONE]"]
  {
    var lines, line, rest := [head, ""] + details, "data: " + head, details + [""];
    assert lines[0] == head && lines[1..] == [""] + details;
    assert [line] + ([""] + details) + [""] == [line, ""] + rest;
    OtherStart("");
    FramedJoin(lines);
    StatusEvents(Join(lines));
    DataLine(head);
    NoData(rest);
    hide *;
    DispatchOne(line, head, rest);
    LinesDecide(Framed(Join(lines)), [line, ""] + rest);
    assert [head] + [] + ["[DONE]"] == [head, "[DONE]"];
  }

  lemma {:induction false} LinesDecide(body: string, lines: seq<string>)
    requires LinesIn(body) == lines
    ensures Events(body) == Dispatched(lines, "")
  {
  }

  /** Of a status report the client sees the headline only. */
  lemma {:induction false} OnlyTheHeadlineArrives(s: Summary)
    requires UnbrokenSummary(s)
    ensures Events(StatusBody(FormatStatus(s))) == ["**System Status: " + s.overall + "**", "[DONE]"]
  {
    forall k | 0 <= k < |Details(s)| ensures !IsDataField(Details(s)[k]) {
      DetailsAreNoData(s, k);
    }
    hide IsDataField, Details, Headline, Unbroken, Events;
    FirstLineOnly(Headline(s), Details(s));
  }

  /** The lines of a status report: every figure on a line of its own, and one line for each card. */
  ghost predicate IsReport(lines: seq<string>, s: Summary) {
    var n := |s.gpus|;
    && |lines| == n + 8
    && lines[0] == "**System Status: " + s.overall + "**" && lines[1] == ""
    && lines[2] == "**VRAM:** " + s.vram + " (" + s.utilization + "% utilized)"
    && lines[3] == "**GPUs:** " + s.gpuCount + " active"
    && (forall k :: 0 <= k < n ==> lines[k + 4] == "  - GPU " + s.gpus[k])
    && lines[n + 4] == "" && lines[n + 5] == "**Memories:** " + s.memories + " stored in Mem0"
    && lines[n + 6] == ""
    && (lines[n + 7] == "All systems operational." <==> s.healthy)
    && (lines[n + 7] == "Some systems degraded - check logs." <==> !s.healthy)
  }

  lemma {:induction false} UnbrokenJoin(lines: seq<string>)
    requires lines != [] && Unbroken(lines)
    ensures Split(Join(lines), '\n') == lines
  {
    JoinReadsBack(lines);
  }

  lemma {:induction false} ReportLines(s: Summary)
    ensures IsReport([Headline(s), ""] + Details(s), s)
  {
    assert "All systems operational."[0] != "Some systems degraded - check logs."[0];
  }

  /** The report falls apart into those lines again, so every figure can be read off it. */
  lemma {:induction false} ReportReadsBack(s: Summary)
    requires UnbrokenSummary(s)
    ensures IsReport(Split(FormatStatus(s), '\n'), s)
  {
    hide Unbroken, IsReport, Headline, Details, Split, Join;
    UnbrokenJoin([Headline(s), ""] + Details(s));
    ReportLines(s);
  }

  // ----- the chat stream ------------------------------------------------

  /** What `process_stream` sends, each item framed. */
  ghost function StreamBody(encode: Chunk -> string, out: seq<Out>): string {
    if out == [] then "" else Framed(Payload(encode, out[0])) + StreamBody(encode, out[1..])
  }

  ghost function Payloads(encode: Chunk -> string, out: seq<Out>): (p: seq<string>)
    ensures |p| == |out| && forall k :: 0 <= k < |p| ==> p[k] == Payload(encode, out[k])
  {
    seq(|out|, k requires 0 <= k < |out| => Payload(encode, out[k]))
  }

  /** Encoded chunks hold no line break. */
  ghost predicate UnbrokenOutput(encode: Chunk -> string, out: seq<Out>) {
    forall k :: 0 <= k < |out| ==> !HasBreak(Payload(encode, out[k]))
  }

  lemma {:induction false} WithoutFirst(encode: Chunk -> string, out: seq<Out>)
    requires UnbrokenOutput(encode, out) && out != []
    ensures UnbrokenOutput(encode, out[1..]) && !HasBreak(Payload(encode, out[0]))
  {
    hide HasBreak, Payload;
  }

  lemma {:induction false} StreamLines(encode: Chunk -> string, out: seq<Out>)
    requires UnbrokenOutput(encode, out)
    ensures LinesIn(StreamBody(encode, out)) == LinesOf(encode, out)
  {
    if out == [] {
      assert LinesIn("") == [];
    } else {
      WithoutFirst(encode, out);
      StreamLines(encode, out[1..]);
      FramedLines(Payload(encode, out[0]), StreamBody(encode, out[1..]));
      hide LinesIn, Framed, HasBreak, Payload, UnbrokenOutput;
    }
  }

  lemma {:induction false} StreamEvents(encode: Chunk -> string, out: seq<Out>)
    requires UnbrokenOutput(encode, out)
    ensures Events(StreamBody(encode, out)) == Payloads(encode, out)
  {
    if out == [] {
      assert LinesIn("") == [] && Events("") == [];
    } else {
      WithoutFirst(encode, out);
      StreamEvents(encode, out[1..]);
      OneEvent(Payload(encode, out[0]), StreamBody(encode, out[1..]));
      hide LinesIn, Framed, HasBreak, Payload, UnbrokenOutput, Dispatched, Events;
      assert Payloads(encode, out) == [Payload(encode, out[0])] + Payloads(encode, out[1..]);
    }
  }

  /** The output of `process_stream` keeps its empty lines: every item, down to the one `[DONE]`, is
      an event of its own, and its lines are those the readers see. */
  lemma {:induction false} StreamIsDispatched(encode: Chunk -> string, chunks: seq<Chunk>, error: string)
    requires UnbrokenOutput(encode, StreamOutput(chunks, error))
    ensures var out := StreamOutput(chunks, error);
      && Events(StreamBody(encode, out)) == Payloads(encode, out)
      && LinesIn(StreamBody(encode, out)) == LinesOf(encode, out)
  {
    StreamEvents(encode, StreamOutput(chunks, error));
    StreamLines(encode, StreamOutput(chunks, error));
  }
}
