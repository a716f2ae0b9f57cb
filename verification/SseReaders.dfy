/** Three readers of one server-sent event stream (src/agent/router_legacy.py:552-571, 686-720 and
    756-775, src/agent/nodes/inference.py:232-255), and what happens when the first one's output is
    read again. */
module SseReaders {
  import opened Prelude

  /** A decoded event, down to the keys the readers look at. A JSON null is kept apart from an
      absent key; a choice without `delta` is one with an empty delta. */
  datatype Chunk = Chunk(choices: Choices, usage: Option<Usage>)
  datatype Choices = NoChoices | NullChoices | List(deltas: seq<Delta>)
  datatype Delta = NullDelta | Delta(content: Content)
  datatype Content = NoContent | NullContent | Str(text: string)

  /** The usage value as JSON; `NoUsage` is the empty object every reader starts from. */
  datatype Usage = NoUsage | Usage(json: string)

  /** JSON decoding of a payload; `None` where it raises a decode error. */
  type Decoder = string -> Option<Chunk>

  predicate IsData(line: string) {
    |line| >= 6 && line[..6] == "data: "
  }

  /** The decodable events before the first `[DONE]`. */
  ghost function ChunksOf(decode: Decoder, lines: seq<string>): seq<Chunk> {
    if lines == [] then []
    else if !IsData(lines[0]) then ChunksOf(decode, lines[1..])
    else if lines[0][6..] == "[DONE]" then []
    else
      var chunk := decode(lines[0][6..]);
      (if chunk.Some? then [chunk.value] else []) + ChunksOf(decode, lines[1..])
  }

  /** What one line contributes. */
  lemma {:induction false} LineStep(decode: Decoder, lines: seq<string>, i: nat)
    requires i < |lines|
    ensures var line, rest := lines[i], ChunksOf(decode, lines[i + 1..]);
      ChunksOf(decode, lines[i..]) ==
        if !IsData(line) then rest
        else if line[6..] == "[DONE]" then []
        else if decode(line[6..]).Some? then [decode(line[6..]).value] + rest
        else rest
  {
    assert lines[i..][0] == lines[i] && lines[i..][1..] == lines[i + 1..];
  }

  /** The lines that are not empty, in order. */
  function NonBlank(lines: seq<string>): seq<string> {
    if lines == [] then []
    else
      var n := |lines| - 1;
      NonBlank(lines[..n]) + (if lines[n] != "" then [lines[n]] else [])
  }

  lemma {:induction false} NonBlankFirst(line: string, rest: seq<string>)
    ensures NonBlank([line] + rest) == (if line != "" then [line] else []) + NonBlank(rest)
  {
    var all := [line] + rest;
    if rest == [] {
      assert all == [line] && [line][..0] == [];
    } else {
      var n := |rest| - 1;
      NonBlankFirst(line, rest[..n]);
      assert all[..|all| - 1] == [line] + rest[..n];
    }
  }

  /** This program's readers go line by line and see the same chunks without the empty lines. (A
      reader of event streams does not: see `EventStreams`.) */
  lemma {:induction false} BlankLinesDoNotMatter(decode: Decoder, lines: seq<string>)
    ensures ChunksOf(decode, NonBlank(lines)) == ChunksOf(decode, lines)
  {
    if lines == [] {
    } else {
      var line, rest := lines[0], lines[1..];
      BlankLinesDoNotMatter(decode, rest);
      assert lines == [line] + rest;
      NonBlankFirst(line, rest);
      hide NonBlank;
      if line != "" {
        assert ([line] + NonBlank(rest))[1..] == NonBlank(rest);
      } else {
        assert [] + NonBlank(rest) == NonBlank(rest);
      }
    }
  }

  /** The text of the first choice, empty unless it is a string. */
  function TextIn(c: Chunk): string {
    if c.choices.List? && c.choices.deltas != [] && c.choices.deltas[0].Delta? && c.choices.deltas[0].content.Str?
    then c.choices.deltas[0].content.text
    else ""
  }

  ghost function TextOf(chunks: seq<Chunk>): string {
    if chunks == [] then ""
    else TextOf(chunks[..|chunks| - 1]) + TextIn(chunks[|chunks| - 1])
  }

  /** The usage seen last. */
  ghost function UsageOf(chunks: seq<Chunk>): Usage {
    if chunks == [] then NoUsage
    else
      var n := |chunks| - 1;
      if chunks[n].usage.Some? then chunks[n].usage.value else UsageOf(chunks[..n])
  }

  predicate HasNullDelta(c: Chunk) {
    c.choices.List? && c.choices.deltas != [] && c.choices.deltas[0].NullDelta?
  }

  predicate HasNullContent(c: Chunk) {
    c.choices.List? && c.choices.deltas != [] && c.choices.deltas[0] == Delta(NullContent)
  }

  /** `data["choices"]` or its first delta is null where the routers index into it. */
  predicate Raises(c: Chunk) {
    c.choices.NullChoices? || HasNullDelta(c)
  }

  ghost predicate NoRaise(chunks: seq<Chunk>) {
    forall k :: 0 <= k < |chunks| ==> !Raises(chunks[k])
  }

  ghost predicate NoNullDelta(chunks: seq<Chunk>) {
    forall k :: 0 <= k < |chunks| ==> !HasNullDelta(chunks[k])
  }

  ghost predicate NoNullContent(chunks: seq<Chunk>) {
    forall k :: 0 <= k < |chunks| ==> !HasNullContent(chunks[k])
  }

  lemma {:induction false} NoLines(decode: Decoder)
    ensures ChunksOf(decode, []) == []
  {
  }

  lemma {:induction false} EmptyStream()
    ensures TextOf([]) == "" && UsageOf([]) == NoUsage && ContentsOf([]) == []
  {
  }

  lemma {:induction false} OneMoreChunk(chunks: seq<Chunk>, c: Chunk)
    ensures TextOf(chunks + [c]) == TextOf(chunks) + TextIn(c)
    ensures UsageOf(chunks + [c]) == if c.usage.Some? then c.usage.value else UsageOf(chunks)
    ensures ContentsOf(chunks + [c]) ==
      if ContentIn(c).NoContent? then ContentsOf(chunks) else ContentsOf(chunks) + [ContentIn(c)]
  {
    assert (chunks + [c])[..|chunks|] == chunks;
  }

  /** The content of the first choice, whatever its kind. */
  function ContentIn(c: Chunk): Content {
    if c.choices.List? && c.choices.deltas != [] && c.choices.deltas[0].Delta? then c.choices.deltas[0].content
    else NoContent
  }

  ghost function ContentsOf(chunks: seq<Chunk>): seq<Content> {
    if chunks == [] then []
    else
      var n := |chunks| - 1;
      if ContentIn(chunks[n]).NoContent? then ContentsOf(chunks[..n])
      else ContentsOf(chunks[..n]) + [ContentIn(chunks[n])]
  }

  /** The result of `_handle_streaming_sync`; `None` when it raises. */
  ghost function InferenceResult(chunks: seq<Chunk>): Option<(string, Usage)> {
    if NoNullDelta(chunks) then Some((TextOf(chunks), UsageOf(chunks))) else None
  }

  /** The result of the router's buffered reader; `None` when it raises. */
  ghost function BufferedResult(chunks: seq<Chunk>): Option<(string, Usage)> {
    if NoRaise(chunks) && NoNullContent(chunks) then Some((TextOf(chunks), UsageOf(chunks))) else None
  }

  // ----- the buffered reader of the workflow ----------------------------

  /** `_handle_streaming_sync`. */
  method HandleStreaming(decode: Decoder, lines: seq<string>) returns (r: Option<(string, Usage)>)
    ensures r == InferenceResult(ChunksOf(decode, lines))
  {
    hide ChunksOf, TextOf, UsageOf;
    var text, usage := "", NoUsage;
    assert TextOf([]) == "" && UsageOf([]) == NoUsage by { EmptyStream(); }
    ghost var done: seq<Chunk> := [];
    ghost var all := ChunksOf(decode, lines);
    assert lines[0..] == lines && [] + all == all && lines[|lines|..] == [];
    NoLines(decode);
    for i := 0 to |lines|
      invariant all == done + ChunksOf(decode, lines[i..])
      invariant text == TextOf(done) && usage == UsageOf(done) && NoNullDelta(done)
    {
      var line := lines[i];
      LineStep(decode, lines, i);
      if IsData(line) {
        if line[6..] == "[DONE]" {
          assert all == done;
          return Some((text, usage));
        }
        var chunk := decode(line[6..]);
        if chunk.Some? {
          var c := chunk.value;
          assert all[|done|] == c;
          if c.choices.List? && c.choices.deltas != [] {
            if c.choices.deltas[0].NullDelta? {
              return None;
            }
            var content := c.choices.deltas[0].content;
            if content.Str? && content.text != "" {
              text := text + content.text;
            }
          }
          if c.usage.Some? {
            usage := c.usage.value;
          }
          OneMoreChunk(done, c);
          ConcatAssociative(done, [c], ChunksOf(decode, lines[i + 1..]));
          done := done + [c];
        }
      }
    }
    assert all == done;
    return Some((text, usage));
  }

  // ----- the buffered reader of the router ------------------------------

  /** The line loop of `_call_model_streaming_buffered` and the final join, which needs every
      collected content to be a string; `None` when either raises. */
  method CallModelBuffered(decode: Decoder, lines: seq<string>) returns (r: Option<(string, Usage)>)
    ensures r == BufferedResult(ChunksOf(decode, lines))
  {
    hide ChunksOf, TextOf, UsageOf, ContentsOf, HasNullContent;
    var buffer: seq<Content> := [];
    var usage := NoUsage;
    EmptyStream();
    ghost var done: seq<Chunk> := [];
    ghost var all := ChunksOf(decode, lines);
    assert lines[0..] == lines && [] + all == all && lines[|lines|..] == [];
    NoLines(decode);
    for i := 0 to |lines|
      invariant all == done + ChunksOf(decode, lines[i..])
      invariant usage == UsageOf(done) && buffer == ContentsOf(done) && NoRaise(done)
    {
      var line := lines[i];
      LineStep(decode, lines, i);
      if IsData(line) {
        if line[6..] == "[DONE]" {
          assert all == done;
          break;
        }
        var chunk := decode(line[6..]);
        if chunk.Some? {
          var c := chunk.value;
          assert all[|done|] == c;
          if c.usage.Some? {
            usage := c.usage.value;
          }
          if c.choices.NullChoices? {
            return None;
          }
          if c.choices.List? && c.choices.deltas != [] {
            if c.choices.deltas[0].NullDelta? {
              return None;
            }
            if !c.choices.deltas[0].content.NoContent? {
              buffer := buffer + [c.choices.deltas[0].content];
            }
          }
          OneMoreChunk(done, c);
          ConcatAssociative(done, [c], ChunksOf(decode, lines[i + 1..]));
          done := done + [c];
        }
      }
    }
    assert all == done;
    ContentsJoin(done);
    if NullContent in buffer {
      return None;
    }
    return Some((Joined(buffer), usage));
  }

  lemma {:induction false} OneMoreJoined(buffer: seq<Content>, content: Content)
    ensures Joined(buffer + [content]) == Joined(buffer) + (if content.Str? then content.text else "")
  {
    assert (buffer + [content])[..|buffer|] == buffer;
  }

  lemma {:induction false} NullContentShows(chunks: seq<Chunk>, c: Chunk)
    ensures NoNullContent(chunks + [c]) <==> NoNullContent(chunks) && ContentIn(c) != NullContent
  {
    assert forall k :: 0 <= k < |chunks| ==> (chunks + [c])[k] == chunks[k];
    assert (chunks + [c])[|chunks|] == c;
    assert HasNullContent(c) <==> ContentIn(c) == NullContent;
  }

  lemma {:induction false} ContentsJoin(chunks: seq<Chunk>)
    ensures NullContent in ContentsOf(chunks) <==> !NoNullContent(chunks)
    ensures Joined(ContentsOf(chunks)) == TextOf(chunks)
  {
    if chunks != [] {
      var n := |chunks| - 1;
      var past, c := chunks[..n], chunks[n];
      ContentsJoin(past);
      OneMoreChunk(past, c);
      NullContentShows(past, c);
      OneMoreJoined(ContentsOf(past), ContentIn(c));
      assert chunks == past + [c] && TextOf(past) + "" == TextOf(past);
      assert TextIn(c) == if ContentIn(c).Str? then ContentIn(c).text else "";
      hide TextOf, ContentsOf, Joined, NoNullContent, ContentIn, TextIn;
    } else {
      EmptyStream();
    }
  }

  /** `"".join` of the strings in the buffer. */
  function Joined(buffer: seq<Content>): string {
    if buffer == [] then ""
    else
      var n := |buffer| - 1;
      Joined(buffer[..n]) + (if buffer[n].Str? then buffer[n].text else "")
  }

  // ----- the streaming reader -------------------------------------------

  /** What `_call_model_stream` yields. */
  datatype Item = Piece(content: Content) | Finished(usage: Usage)

  /** What `process_stream` sends: content deltas, the final chunk, and the end marker. */
  datatype Out = DeltaOut(text: string) | FinalOut(usage: Usage) | DoneOut

  function Pieces(contents: seq<Content>): (items: seq<Item>)
    ensures |items| == |contents| && forall k :: 0 <= k < |items| ==> items[k] == Piece(contents[k])
  {
    seq(|contents|, k requires 0 <= k < |contents| => Piece(contents[k]))
  }

  ghost function PiecesOf(chunks: seq<Chunk>): seq<Item> {
    Pieces(ContentsOf(chunks))
  }

  /** The chunks before the first one that raises. */
  ghost function Readable(chunks: seq<Chunk>): seq<Chunk> {
    if chunks == [] || Raises(chunks[0]) then [] else [chunks[0]] + Readable(chunks[1..])
  }

  /** `_call_model_stream`, with the text of the error it reports. */
  method CallModelStream(decode: Decoder, lines: seq<string>, error: string) returns (items: seq<Item>)
    ensures var chunks := ChunksOf(decode, lines);
      items == if NoRaise(chunks) then PiecesOf(chunks) + [Finished(UsageOf(chunks))]
               else PiecesOf(Readable(chunks)) + [Piece(Str("Error: " + error)), Finished(NoUsage)]
  {
    hide ChunksOf, PiecesOf, UsageOf, Readable;
    items := [];
    var usage := NoUsage;
    EmptyStream();
    NoPieces();
    ghost var done: seq<Chunk> := [];
    ghost var all := ChunksOf(decode, lines);
    assert lines[0..] == lines && [] + all == all && lines[|lines|..] == [];
    NoLines(decode);
    for i := 0 to |lines|
      invariant all == done + ChunksOf(decode, lines[i..])
      invariant items == PiecesOf(done) && usage == UsageOf(done) && NoRaise(done)
    {
      var line := lines[i];
      LineStep(decode, lines, i);
      if IsData(line) {
        if line[6..] == "[DONE]" {
          assert all == done;
          return items + [Finished(usage)];
        }
        var chunk := decode(line[6..]);
        if chunk.Some? {
          var c := chunk.value;
          ghost var rest := ChunksOf(decode, lines[i + 1..]);
          assert all == done + ([c] + rest) && all[|done|] == c;
          if c.usage.Some? {
            usage := c.usage.value;
          }
          if c.choices.NullChoices? || (c.choices.List? && c.choices.deltas != [] && c.choices.deltas[0].NullDelta?) {
            ReadableUpTo(done, [c] + rest);
            return items + [Piece(Str("Error: " + error)), Finished(NoUsage)];
          }
          if c.choices.List? && c.choices.deltas != [] && !c.choices.deltas[0].content.NoContent? {
            items := items + [Piece(c.choices.deltas[0].content)];
          }
          OneMoreChunk(done, c);
          OneMoreItem(done, c);
          ConcatAssociative(done, [c], rest);
          done := done + [c];
        }
      }
    }
    assert all == done;
    return items + [Finished(usage)];
  }

  lemma {:induction false} NoPieces()
    ensures PiecesOf([]) == []
  {
  }

  lemma {:induction false} OneMoreItem(chunks: seq<Chunk>, c: Chunk)
    ensures PiecesOf(chunks + [c]) ==
      if ContentIn(c).NoContent? then PiecesOf(chunks) else PiecesOf(chunks) + [Piece(ContentIn(c))]
  {
    OneMoreChunk(chunks, c);
    hide ContentsOf;
  }

  lemma {:induction false} ReadableUpTo(done: seq<Chunk>, rest: seq<Chunk>)
    requires NoRaise(done) && rest != [] && Raises(rest[0])
    ensures Readable(done + rest) == done
  {
    if done == [] {
      assert done + rest == rest;
    } else {
      assert (done + rest)[1..] == done[1..] + rest;
      ReadableUpTo(done[1..], rest);
    }
  }

  /** `process_stream`. */
  method ProcessStream(decode: Decoder, lines: seq<string>, error: string) returns (out: seq<Out>)
    ensures out == StreamOutput(ChunksOf(decode, lines), error)
  {
    var items := CallModelStream(decode, lines, error);
    out := [];
    for i := 0 to |items|
      invariant out == Sent(items[..i])
    {
      assert items[..i + 1][..i] == items[..i];
      match items[i] {
        case Finished(usage) =>
          out := out + [FinalOut(usage), DoneOut];
        case Piece(content) =>
          var text := if content.Str? then content.text else "";
          if text != "" {
            out := out + [DeltaOut(text)];
          }
      }
    }
    assert items[..|items|] == items;
  }

  function Sent(items: seq<Item>): seq<Out> {
    if items == [] then []
    else
      var n := |items| - 1;
      Sent(items[..n]) +
        (match items[n]
         case Finished(usage) => [FinalOut(usage), DoneOut]
         case Piece(content) => if content.Str? && content.text != "" then [DeltaOut(content.text)] else [])
  }

  ghost function StreamOutput(chunks: seq<Chunk>, error: string): seq<Out> {
    if NoRaise(chunks) then Sent(PiecesOf(chunks) + [Finished(UsageOf(chunks))])
    else Sent(PiecesOf(Readable(chunks)) + [Piece(Str("Error: " + error)), Finished(NoUsage)])
  }

  // ----- what text and usage are ----------------------------------------

  /** What is read of one line: the decoded payload of a data line, but for the end marker. */
  lemma {:induction false} OneLineRead(decode: Decoder, line: string)
    ensures line == "data: [DONE]" ==> ChunksOf(decode, [line]) == []
    ensures forall payload :: line == "data: " + payload && payload != "[DONE]" ==>
      ChunksOf(decode, [line]) == if decode(payload).Some? then [decode(payload).value] else []
    ensures (forall payload :: line != "data: " + payload) ==> ChunksOf(decode, [line]) == []
  {
    assert [line][1..] == [] && ChunksOf(decode, []) == [];
    if |line| >= 6 && line[..6] == "data: " {
      assert line == "data: " + line[6..];
    }
    forall payload | line == "data: " + payload ensures line[6..] == payload && IsData(line) {
    }
  }

  /** Streams are read line by line, up to the end marker. */
  lemma {:induction false} LinesAreRead(decode: Decoder, lines: seq<string>, more: seq<string>)
    ensures ChunksOf(decode, lines + more) ==
      if "data: [DONE]" in lines then ChunksOf(decode, lines) else ChunksOf(decode, lines) + ChunksOf(decode, more)
  {
    if lines == [] {
      assert lines + more == more;
    } else {
      assert (lines + more)[1..] == lines[1..] + more;
      LinesAreRead(decode, lines[1..], more);
      assert lines[0] == "data: [DONE]" <==> IsData(lines[0]) && lines[0][6..] == "[DONE]" by {
        if IsData(lines[0]) {
          assert lines[0] == "data: " + lines[0][6..];
        }
        assert "data: [DONE]"[..6] == "data: " && "data: [DONE]"[6..] == "[DONE]";
      }
    }
  }

  /** The texts of the first choices, in order, make up the text; the usage is that of the last event
      that has one. */
  lemma {:induction false} TextAndUsage(chunks: seq<Chunk>, c: Chunk)
    ensures TextOf([]) == "" && UsageOf([]) == NoUsage
    ensures forall text, rest :: c.choices == List([Delta(Str(text))] + rest) ==>
      TextOf(chunks + [c]) == TextOf(chunks) + text
    ensures (forall text, rest :: c.choices != List([Delta(Str(text))] + rest)) ==>
      TextOf(chunks + [c]) == TextOf(chunks)
    ensures forall usage :: c.usage == Some(usage) ==> UsageOf(chunks + [c]) == usage
    ensures c.usage == None ==> UsageOf(chunks + [c]) == UsageOf(chunks)
  {
    OneMoreChunk(chunks, c);
    EmptyStream();
    if c.choices.List? && c.choices.deltas != [] && c.choices.deltas[0].Delta? && c.choices.deltas[0].content.Str? {
      assert c.choices.deltas == [Delta(Str(c.choices.deltas[0].content.text))] + c.choices.deltas[1..];
    } else {
      assert TextOf(chunks) + "" == TextOf(chunks);
    }
    hide TextOf, UsageOf, ContentsOf;
  }

  // ----- agreement -------------------------------------------------------

  /** The deltas a client of `process_stream` concatenates. */
  ghost function Received(out: seq<Out>): string {
    if out == [] then ""
    else
      var n := |out| - 1;
      Received(out[..n]) + (if out[n].DeltaOut? then out[n].text else "")
  }

  /** A run of content deltas. */
  ghost predicate AllDeltas(out: seq<Out>) {
    forall k :: 0 <= k < |out| ==> out[k].DeltaOut?
  }

  lemma {:induction false} OneMoreOut(out: seq<Out>, o: Out)
    ensures Received(out + [o]) == Received(out) + (if o.DeltaOut? then o.text else "")
  {
    assert (out + [o])[..|out|] == out;
  }

  lemma {:induction false} OneMorePiece(items: seq<Item>, content: Content)
    ensures Sent(items + [Piece(content)]) ==
      Sent(items) + (if content.Str? && content.text != "" then [DeltaOut(content.text)] else [])
  {
    assert (items + [Piece(content)])[..|items|] == items;
  }

  lemma {:induction false} PieceStep(items: seq<Item>, buffer: seq<Content>, last: Content)
    requires AllDeltas(Sent(items)) && DeltaOut("") !in Sent(items) && Received(Sent(items)) == Joined(buffer)
    ensures var more := Sent(items + [Piece(last)]);
      AllDeltas(more) && DeltaOut("") !in more && Received(more) == Joined(buffer + [last])
  {
    OneMorePiece(items, last);
    OneMoreJoined(buffer, last);
    if last.Str? && last.text != "" {
      OneMoreOut(Sent(items), DeltaOut(last.text));
    } else {
      assert Joined(buffer) + "" == Joined(buffer) && Sent(items) + [] == Sent(items);
    }
    hide Sent, Received, Joined;
  }

  lemma {:induction false} SentPieces(contents: seq<Content>)
    ensures AllDeltas(Sent(Pieces(contents))) && DeltaOut("") !in Sent(Pieces(contents))
    ensures Received(Sent(Pieces(contents))) == Joined(contents)
  {
    if contents == [] {
    } else {
      var n := |contents| - 1;
      SentPieces(contents[..n]);
      PieceStep(Pieces(contents[..n]), contents[..n], contents[n]);
      assert contents == contents[..n] + [contents[n]];
      assert Pieces(contents) == Pieces(contents[..n]) + [Piece(contents[n])];
      hide Sent, Received, Joined, AllDeltas;
    }
  }

  /** Whatever the stream holds, the output is a run of non-empty deltas, then one final chunk,
      then one `[DONE]`; unless the reader raised, the deltas spell the text and the final chunk
      carries the last usage. */
  lemma {:induction false} StreamShape(chunks: seq<Chunk>, error: string) returns (deltas: seq<Out>)
    ensures AllDeltas(deltas) && DeltaOut("") !in deltas
    ensures NoRaise(chunks) ==>
      StreamOutput(chunks, error) == deltas + [FinalOut(UsageOf(chunks)), DoneOut] && Received(deltas) == TextOf(chunks)
    ensures !NoRaise(chunks) ==>
      StreamOutput(chunks, error) == deltas + [FinalOut(NoUsage), DoneOut]
      && Received(deltas) == TextOf(Readable(chunks)) + ("Error: " + error)
  {
    if NoRaise(chunks) {
      SentPieces(ContentsOf(chunks));
      ContentsJoin(chunks);
      deltas := Sent(PiecesOf(chunks));
      OneMoreFinish(PiecesOf(chunks), UsageOf(chunks));
    } else {
      SentPieces(ContentsOf(Readable(chunks)));
      ContentsJoin(Readable(chunks));
      deltas := ErrorShape(PiecesOf(Readable(chunks)), "Error: " + error);
    }
  }

  lemma {:induction false} ErrorShape(items: seq<Item>, message: string) returns (deltas: seq<Out>)
    requires message != "" && AllDeltas(Sent(items)) && DeltaOut("") !in Sent(items)
    ensures AllDeltas(deltas) && DeltaOut("") !in deltas
    ensures Sent(items + [Piece(Str(message)), Finished(NoUsage)]) == deltas + [FinalOut(NoUsage), DoneOut]
    ensures Received(deltas) == Received(Sent(items)) + message
  {
    OneMorePiece(items, Str(message));
    OneMoreFinish(items + [Piece(Str(message))], NoUsage);
    assert items + [Piece(Str(message)), Finished(NoUsage)] == items + [Piece(Str(message))] + [Finished(NoUsage)];
    deltas := Sent(items) + [DeltaOut(message)];
    OneMoreOut(Sent(items), DeltaOut(message));
    hide Sent, Received;
  }

  lemma {:induction false} OneMoreFinish(items: seq<Item>, usage: Usage)
    ensures Sent(items + [Finished(usage)]) == Sent(items) + [FinalOut(usage), DoneOut]
  {
    assert (items + [Finished(usage)])[..|items|] == items;
  }

  /** What a client of `process_stream` ends up with. */
  ghost predicate ClientSees(out: seq<Out>, text: string, usage: Usage) {
    exists deltas :: AllDeltas(deltas) && out == deltas + [FinalOut(usage), DoneOut] && Received(deltas) == text
  }

  /** The three readers agree on a stream exactly when no event before `[DONE]` has a null where
      they expect choices, a delta or a text. */
  lemma {:induction false} ReadersAgree(chunks: seq<Chunk>, error: string)
    ensures (&& InferenceResult(chunks) == BufferedResult(chunks) == Some((TextOf(chunks), UsageOf(chunks)))
             && ClientSees(StreamOutput(chunks, error), TextOf(chunks), UsageOf(chunks)))
      <==> NoRaise(chunks) && NoNullContent(chunks)
  {
    var deltas := StreamShape(chunks, error);
    if NoRaise(chunks) {
      assert NoNullDelta(chunks) by {
        forall k | 0 <= k < |chunks| ensures !HasNullDelta(chunks[k]) { assert !Raises(chunks[k]); }
      }
      assert ClientSees(StreamOutput(chunks, error), TextOf(chunks), UsageOf(chunks));
    }
  }

  // ----- reading the output again ---------------------------------------

  ghost function AsChunk(o: Out): Chunk
    requires !o.DoneOut?
  {
    match o
    case DeltaOut(text) => Chunk(List([Delta(Str(text))]), None)
    case FinalOut(usage) => Chunk(List([Delta(NoContent)]), Some(usage))
  }

  /** The lines of the output: each event is a data line and an empty line. */
  ghost function LinesOf(encode: Chunk -> string, out: seq<Out>): seq<string> {
    if out == [] then []
    else ["data: " + Payload(encode, out[0]), ""] + LinesOf(encode, out[1..])
  }

  /** What is sent as the data of one event. */
  ghost function Payload(encode: Chunk -> string, o: Out): string {
    if o.DoneOut? then "[DONE]" else encode(AsChunk(o))
  }

  /** The chunks of an output can be read back. */
  ghost predicate ReadsBack(encode: Chunk -> string, decode: Decoder, out: seq<Out>) {
    forall k :: 0 <= k < |out| && !out[k].DoneOut? ==>
      decode(encode(AsChunk(out[k]))) == Some(AsChunk(out[k])) && encode(AsChunk(out[k])) != "[DONE]"
  }

  lemma {:induction false} ReadDeltas(encode: Chunk -> string, decode: Decoder, deltas: seq<Out>, tail: seq<Out>)
    returns (chunks: seq<Chunk>)
    requires ReadsBack(encode, decode, deltas) && AllDeltas(deltas)
    ensures ChunksOf(decode, LinesOf(encode, deltas + tail)) == chunks + ChunksOf(decode, LinesOf(encode, tail))
    ensures |chunks| == |deltas| && forall k :: 0 <= k < |deltas| ==> chunks[k] == AsChunk(deltas[k])
  {
    hide ChunksOf, LinesOf;
    if deltas == [] {
      assert deltas + tail == tail;
      chunks := [];
    } else {
      assert ReadsBack(encode, decode, deltas[1..]);
      var rest := ReadDeltas(encode, decode, deltas[1..], tail);
      chunks := [AsChunk(deltas[0])] + rest;
      assert [deltas[0]][0] == deltas[0];
      ReadOne(encode, decode, deltas[0], deltas[1..] + tail);
      assert deltas == [deltas[0]] + deltas[1..];
      ConcatAssociative([deltas[0]], deltas[1..], tail);
      ConcatAssociative([AsChunk(deltas[0])], rest, ChunksOf(decode, LinesOf(encode, tail)));
    }
  }

  lemma {:induction false} ReadOne(encode: Chunk -> string, decode: Decoder, o: Out, rest: seq<Out>)
    requires ReadsBack(encode, decode, [o])
    ensures ChunksOf(decode, LinesOf(encode, [o] + rest)) ==
      if o.DoneOut? then [] else [AsChunk(o)] + ChunksOf(decode, LinesOf(encode, rest))
  {
    var all := [o] + rest;
    assert all[0] == o && all[1..] == rest;
    var payload := Payload(encode, o);
    assert [o][0] == o;
    var line, lines := "data: " + payload, LinesOf(encode, rest);
    assert LinesOf(encode, all) == [line, ""] + lines;
    assert line[..6] == "data: " && line[6..] == payload;
    assert ([line, ""] + lines)[1..] == [""] + lines && ([""] + lines)[1..] == lines;
    assert ChunksOf(decode, [""] + lines) == ChunksOf(decode, lines);
  }

  lemma {:induction false} ReadTail(encode: Chunk -> string, decode: Decoder, final: Out)
    requires ReadsBack(encode, decode, [final]) && final.FinalOut?
    ensures ChunksOf(decode, LinesOf(encode, [final, DoneOut])) == [AsChunk(final)]
  {
    assert [final, DoneOut] == [final] + [DoneOut] && [DoneOut] == [DoneOut] + [];
    ReadOne(encode, decode, final, [DoneOut]);
    ReadOne(encode, decode, DoneOut, []);
    hide ChunksOf, LinesOf;
  }

  lemma {:induction false} DeltasSpell(chunks: seq<Chunk>, deltas: seq<Out>)
    requires |chunks| == |deltas| && AllDeltas(deltas)
    requires forall k :: 0 <= k < |deltas| ==> chunks[k] == AsChunk(deltas[k])
    ensures TextOf(chunks) == Received(deltas) && UsageOf(chunks) == NoUsage
  {
    if chunks == [] {
    } else {
      DeltasSpell(chunks[..|chunks| - 1], deltas[..|deltas| - 1]);
    }
  }

  lemma {:induction false} ReadsBackParts(encode: Chunk -> string, decode: Decoder, deltas: seq<Out>, final: Out)
    requires ReadsBack(encode, decode, deltas + [final, DoneOut])
    ensures ReadsBack(encode, decode, deltas) && ReadsBack(encode, decode, [final])
  {
    var out := deltas + [final, DoneOut];
    assert forall k :: 0 <= k < |deltas| ==> out[k] == deltas[k];
    assert out[|deltas|] == final;
    hide AsChunk;
  }

  /** Relaying is transparent: reading the relayed stream, with either buffered reader, gives the
      text and usage of the original one. */
  lemma {:induction false} RelayPreserves(encode: Chunk -> string, decode: Decoder, chunks: seq<Chunk>, error: string)
    requires ReadsBack(encode, decode, StreamOutput(chunks, error)) && NoRaise(chunks)
    ensures var again := ChunksOf(decode, LinesOf(encode, StreamOutput(chunks, error)));
      InferenceResult(again) == BufferedResult(again) == Some((TextOf(chunks), UsageOf(chunks)))
  {
    var deltas := StreamShape(chunks, error);
    var final := FinalOut(UsageOf(chunks));
    var out := StreamOutput(chunks, error);
    assert out == deltas + [final, DoneOut];
    hide *;
    ReadsBackParts(encode, decode, deltas, final);
    var read := ReadDeltas(encode, decode, deltas, [final, DoneOut]);
    ReadTail(encode, decode, final);
    CleanRelay(read, deltas, UsageOf(chunks));
  }

  lemma {:induction false} CleanRelay(read: seq<Chunk>, deltas: seq<Out>, usage: Usage)
    requires |read| == |deltas| && AllDeltas(deltas)
    requires forall k :: 0 <= k < |deltas| ==> read[k] == AsChunk(deltas[k])
    ensures var again := read + [AsChunk(FinalOut(usage))];
      InferenceResult(again) == BufferedResult(again) == Some((Received(deltas), usage))
  {
    DeltasSpell(read, deltas);
    OneMoreChunk(read, AsChunk(FinalOut(usage)));
    assert Received(deltas) + "" == Received(deltas);
    hide TextOf, UsageOf, Received;
  }
}
