/**
 * The ops chat page: the conversation with the ops director agent. `sendMessage` appends the
 * user's message, posts it, and appends the reply, either read from an event stream (whose
 * `data: ` lines carry text deltas) or from a JSON body. The page state is a class; the clock,
 * `JSON.parse` and the response are parameters. Scrolling and rendering are left out.
 */
module OpsChatPage {
  import opened Common
  import opened Text
  import opened Json
  import Numerals

  datatype Role = User | Assistant | System

  datatype Message = Message(role: Role, content: string, agent: Option<string>, timestamp: Option<string>)

  const Welcome := "OpsDirector online. I manage 5 specialist agents — ContentManager, FundingScout, BoardRecruiter, SEOStrategist, and ResearchDirector. I can delegate tasks, query the CRM pipeline, and coordinate multi-agent workflows. What do you need?"
  const Director := "OpsDirector"
  const NoTextReply := "Task completed (no text response — check pipeline for updates)."
  const DefaultReply := "Task completed."
  const UnavailableText := "⚠️ Agent service unavailable. Check Railway deployment."
  const DataPrefix := "data: "

  /** The body posted to the chat route. */
  datatype ChatRequest = ChatRequest(input: string, conversationId: string)

  /**
   * What the request does: it throws, answers with an error status, streams chunks of text (and
   * perhaps fails while reading), or answers with a body that `res.json()` parses (`None`: it throws).
   */
  datatype Reply =
    | Threw
    | NotOk
    | Stream(chunks: seq<string>, interrupted: bool)
    | Body(data: Option<Value>)

  function Warning(now: string): Message {
    Message(Assistant, UnavailableText, None, Some(now))
  }

  /** The text a line of the stream adds: the `textDelta` of a `data: ` line of type `text-delta`. */
  function LineDelta(line: string, parse: Parser): string
  {
    if !StartsWith(line, DataPrefix) then ""
    else
      match parse(line[|DataPrefix|..])
      case Err(_) => ""
      case Ok(v) =>
        if Get(v, "type") == Some(Str("text-delta")) && Present(Get(v, "textDelta"))
        then ToJsString(Get(v, "textDelta").value) else ""
  }

  /** Only a `data: ` line whose JSON has type `text-delta` and a truthy `textDelta` adds text: that text. */
  lemma LineDeltaOnlyTextDeltas(line: string, parse: Parser)
    ensures LineDelta(line, parse) != "" ==>
      StartsWith(line, DataPrefix) && parse(line[|DataPrefix|..]).Ok?
      && var v := parse(line[|DataPrefix|..]).value;
         Get(v, "type") == Some(Str("text-delta")) && Present(Get(v, "textDelta"))
         && LineDelta(line, parse) == ToJsString(Get(v, "textDelta").value)
  {
  }

  /** What each line adds to the text, as a function value. */
  function DeltaOf(parse: Parser): string -> string {
    (line: string) => LineDelta(line, parse)
  }

  /** What `delta` gives for each line, concatenated in order. */
  function Collected(lines: seq<string>, delta: string -> string): string
    decreases |lines|
  {
    if lines == [] then "" else Collected(lines[..|lines| - 1], delta) + delta(lines[|lines| - 1])
  }

  /** The deltas of the lines, concatenated in order. */
  function LinesText(lines: seq<string>, parse: Parser): string {
    Collected(lines, DeltaOf(parse))
  }

  /** The lines the page looks at: each chunk split at `\n` on its own. */
  function ChunkLines(chunks: seq<string>): seq<string>
    decreases |chunks|
  {
    if chunks == [] then [] else ChunkLines(chunks[..|chunks| - 1]) + Split(chunks[|chunks| - 1], '\n')
  }

  /** `fullText` after the chunks are read. */
  function StreamText(chunks: seq<string>, parse: Parser): string {
    LinesText(ChunkLines(chunks), parse)
  }

  lemma {:induction false} CollectedAppend(a: seq<string>, b: seq<string>, delta: string -> string)
    ensures Collected(a + b, delta) == Collected(a, delta) + Collected(b, delta)
    decreases |b|
  {
    if b == [] {
      assert a + b == a;
    } else {
      var init, last := b[..|b| - 1], b[|b| - 1];
      assert (a + b)[..|a + b| - 1] == a + init && (a + b)[|a + b| - 1] == last;
      CollectedAppend(a, init, delta);
      ConcatAssociative(Collected(a, delta), Collected(init, delta), delta(last));
    }
  }

  /** One more line adds its delta. */
  lemma LinesTextSnoc(lines: seq<string>, line: string, parse: Parser)
    ensures LinesText(lines + [line], parse) == LinesText(lines, parse) + LineDelta(line, parse)
  {
    assert (lines + [line])[..|lines|] == lines;
  }

  lemma LinesTextAppend(a: seq<string>, b: seq<string>, parse: Parser)
    ensures LinesText(a + b, parse) == LinesText(a, parse) + LinesText(b, parse)
  {
    CollectedAppend(a, b, DeltaOf(parse));
  }

  lemma {:induction false} ChunkLinesAppend(a: seq<string>, b: seq<string>)
    ensures ChunkLines(a + b) == ChunkLines(a) + ChunkLines(b)
    decreases |b|
  {
    if b == [] {
      assert a + b == a;
    } else {
      var init, last := b[..|b| - 1], b[|b| - 1];
      var ab := a + b;
      assert ab[..|ab| - 1] == a + init && ab[|ab| - 1] == last;
      ChunkLinesAppend(a, init);
      var pieces := Split(last, '\n');
      assert ChunkLines(ab) == ChunkLines(a + init) + pieces;
      assert ChunkLines(b) == ChunkLines(init) + pieces;
    }
  }

  /** The text of a stream is the text of its first chunks, then that of the rest. */
  lemma StreamTextAppend(a: seq<string>, b: seq<string>, parse: Parser)
    ensures StreamText(a + b, parse) == StreamText(a, parse) + StreamText(b, parse)
  {
    ChunkLinesAppend(a, b);
    LinesTextAppend(ChunkLines(a), ChunkLines(b), parse);
  }

  /** Lines that are not `data: ` lines add nothing. */
  lemma {:induction false} NoDataNoText(lines: seq<string>, parse: Parser)
    requires forall k :: 0 <= k < |lines| ==> !StartsWith(lines[k], DataPrefix)
    ensures LinesText(lines, parse) == ""
    decreases |lines|
  {
    if lines != [] {
      NoDataNoText(lines[..|lines| - 1], parse);
    }
  }

  /** The messages with the last one's content replaced. */
  function LastReplaced(ms: seq<Message>, content: string): (r: seq<Message>)
    requires |ms| > 0
    ensures |r| == |ms| && r[..|ms| - 1] == ms[..|ms| - 1]
    ensures r[|ms| - 1] == ms[|ms| - 1].(content := content)
  {
    ms[..|ms| - 1] + [ms[|ms| - 1].(content := content)]
  }

  lemma LastReplacedAppended(ms: seq<Message>, m: Message, content: string)
    ensures LastReplaced(ms + [m], content) == ms + [m.(content := content)]
  {
    assert (ms + [m])[..|ms|] == ms;
  }

  lemma LastReplacedTwice(ms: seq<Message>, a: string, b: string)
    requires |ms| > 0
    ensures LastReplaced(LastReplaced(ms, a), b) == LastReplaced(ms, b)
  {
  }

  /** `data?.text || data?.output || "Task completed."`, as the message shows it. */
  function ReplyText(data: Value): (t: string)
    ensures Present(Get(data, "text")) ==> t == ToJsString(Get(data, "text").value)
    ensures !Present(Get(data, "text")) && Present(Get(data, "output")) ==> t == ToJsString(Get(data, "output").value)
    ensures !Present(Get(data, "text")) && !Present(Get(data, "output")) ==> t == DefaultReply
  {
    var r := Or(Get(data, "text"), Get(data, "output"));
    if Present(r) then ToJsString(r.value) else DefaultReply
  }

  /** The messages a reply appends after the user's. */
  function Replies(reply: Reply, parse: Parser, now: string): seq<Message> {
    match reply
    case Threw => [Warning(now)]
    case NotOk => [Warning(now)]
    case Body(data) =>
      if data.None? then [Warning(now)] else [Message(Assistant, ReplyText(data.value), Some(Director), Some(now))]
    case Stream(chunks, interrupted) =>
      var t := StreamText(chunks, parse);
      if interrupted then [Message(Assistant, t, Some(Director), Some(now)), Warning(now)]
      else [Message(Assistant, if t == "" then NoTextReply else t, Some(Director), Some(now))]
  }

  /** Every reply appends one assistant message, and a failure while reading a stream a warning too. */
  lemma RepliesShape(reply: Reply, parse: Parser, now: string)
    ensures var rs := Replies(reply, parse, now);
            1 <= |rs| <= 2 && rs[0].role == Assistant
            && (|rs| == 2 <==> reply.Stream? && reply.interrupted)
            && (reply.Threw? || reply.NotOk? || reply == Body(None) ==> rs == [Warning(now)])
  {
  }

  /** An uninterrupted stream never leaves the assistant message empty. */
  lemma StreamReplyNotEmpty(chunks: seq<string>, parse: Parser, now: string)
    ensures var m := Replies(Stream(chunks, false), parse, now)[0];
            m.content != ""
            && (StreamText(chunks, parse) == "" ==> m.content == NoTextReply)
            && (StreamText(chunks, parse) != "" ==> m.content == StreamText(chunks, parse))
  {
    assert |NoTextReply| > 0;
  }

  /** The page's state. */
  class OpsChat {
    var messages: seq<Message>
    var input: string
    var loading: bool
    const conversationId: string

    /** The initial state; `nowMs` is `Date.now()` when the page mounts. */
    constructor (nowMs: nat)
      ensures messages == [Message(System, Welcome, None, None)] && input == "" && !loading
      ensures conversationId == "ops_" + Numerals.NatToString(nowMs)
    {
      messages := [Message(System, Welcome, None, None)];
      input := "";
      loading := false;
      conversationId := "ops_" + Numerals.NatToString(nowMs);
    }

    /** Typing in the text area. */
    method SetInput(s: string)
      modifies this
      ensures input == s && messages == old(messages) && loading == old(loading)
    {
      input := s;
    }

    /** The read loop: every chunk's lines in turn; each delta lands in the last message. */
    method ReadStream(chunks: seq<string>, parse: Parser) returns (fullText: string)
      requires |messages| > 0 && messages[|messages| - 1].content == ""
      modifies this
      ensures fullText == StreamText(chunks, parse)
      ensures messages == LastReplaced(old(messages), fullText)
      ensures input == old(input) && loading == old(loading)
    {
      fullText := "";
      ghost var base := messages;
      assert LastReplaced(base, "") == base;
      var k := 0;
      while k < |chunks|
        invariant 0 <= k <= |chunks|
        invariant fullText == StreamText(chunks[..k], parse)
        invariant messages == LastReplaced(base, fullText)
        invariant input == old(input) && loading == old(loading)
      {
        var lines := Split(chunks[k], '\n');
        ghost var before := fullText;
        fullText := ReadLines(lines, parse, fullText, base);
        assert chunks[..k + 1][..k] == chunks[..k];
        LinesTextAppend(ChunkLines(chunks[..k]), lines, parse);
        k := k + 1;
      }
      assert chunks[..|chunks|] == chunks;
    }

    /** The loop over the lines of one chunk, from the text `start` read so far. */
    method ReadLines(lines: seq<string>, parse: Parser, start: string, ghost base: seq<Message>) returns (fullText: string)
      requires |base| > 0 && messages == LastReplaced(base, start)
      modifies this
      ensures fullText == start + LinesText(lines, parse)
      ensures messages == LastReplaced(base, fullText)
      ensures input == old(input) && loading == old(loading)
    {
      fullText := start;
      for j := 0 to |lines|
        invariant fullText == start + LinesText(lines[..j], parse)
        invariant messages == LastReplaced(base, fullText)
        invariant input == old(input) && loading == old(loading)
      {
        assert lines[..j + 1][..j] == lines[..j];
        var line := lines[j];
        ghost var done := LinesText(lines[..j], parse);
        assert LinesText(lines[..j + 1], parse) == done + LineDelta(line, parse);
        if StartsWith(line, DataPrefix) {
          var data := parse(line[|DataPrefix|..]);
          if data.Ok? && Get(data.value, "type") == Some(Str("text-delta")) && Present(Get(data.value, "textDelta")) {
            var delta := ToJsString(Get(data.value, "textDelta").value);
            assert LineDelta(line, parse) == delta;
            fullText := fullText + delta;
            ConcatAssociative(start, done, delta);
            LastReplacedTwice(base, start + done, fullText);
            messages := LastReplaced(messages, fullText);
          } else {
            assert LineDelta(line, parse) == "";
            assert done + "" == done;
          }
        } else {
          assert LineDelta(line, parse) == "";
          assert done + "" == done;
        }
      }
      assert lines[..|lines|] == lines;
    }

    /** The streaming branch: the placeholder, the read loop, then the warning or the no-text reply. */
    method ReceiveStream(chunks: seq<string>, interrupted: bool, parse: Parser, now: string)
      modifies this
      ensures messages == old(messages) + Replies(Stream(chunks, interrupted), parse, now)
      ensures input == old(input) && loading == old(loading)
    {
      ghost var asked := messages;
      var placeholder := Message(Assistant, "", Some(Director), Some(now));
      messages := messages + [placeholder];
      var fullText := ReadStream(chunks, parse);
      LastReplacedAppended(asked, placeholder, fullText);
      if interrupted {
        messages := messages + [Warning(now)];
      } else if fullText == "" {
        LastReplacedAppended(asked, placeholder, NoTextReply);
        messages := LastReplaced(messages, NoTextReply);
      }
    }

    /** What the reply appends, whichever way it arrived. */
    method Receive(reply: Reply, parse: Parser, now: string)
      modifies this
      ensures messages == old(messages) + Replies(reply, parse, now)
      ensures input == old(input) && loading == old(loading)
    {
      match reply {
        case Threw =>
          messages := messages + [Warning(now)];
        case NotOk =>
          messages := messages + [Warning(now)];
        case Body(data) =>
          if data.None? {
            messages := messages + [Warning(now)];
          } else {
            messages := messages + [Message(Assistant, ReplyText(data.value), Some(Director), Some(now))];
          }
        case Stream(chunks, interrupted) =>
          ReceiveStream(chunks, interrupted, parse, now);
      }
    }

    /** The part of `sendMessage` after the guard: the user's message, the request, the reply. */
    method Submit(trimmed: string, reply: Reply, parse: Parser, now: string) returns (sent: ChatRequest)
      modifies this
      ensures sent == ChatRequest(trimmed, conversationId) && input == "" && !loading
      ensures messages == old(messages) + [Message(User, trimmed, None, Some(now))] + Replies(reply, parse, now)
    {
      messages := messages + [Message(User, trimmed, None, Some(now))];
      input := "";
      loading := true;
      sent := ChatRequest(trimmed, conversationId);
      Receive(reply, parse, now);
      loading := false;
    }

    /** `sendMessage`, with the response as `reply` and `now` the time stamp of the new messages. */
    method SendMessage(reply: Reply, parse: Parser, now: string) returns (sent: Option<ChatRequest>)
      modifies this
      ensures Trim(old(input)) == "" || old(loading) ==>
        sent.None? && messages == old(messages) && input == old(input) && loading == old(loading)
      ensures Trim(old(input)) != "" && !old(loading) ==>
        sent == Some(ChatRequest(Trim(old(input)), conversationId)) && input == "" && !loading
        && messages == old(messages) + [Message(User, Trim(old(input)), None, Some(now))] + Replies(reply, parse, now)
    {
      var trimmed := Trim(input);
      if trimmed == "" || loading {
        sent := None;
      } else {
        var request := Submit(trimmed, reply, parse, now);
        sent := Some(request);
      }
    }
  }

  /** The concatenation of the chunks: the text the stream carries. */
  function Concat(chunks: seq<string>): string
    decreases |chunks|
  {
    if chunks == [] then "" else chunks[0] + Concat(chunks[1..])
  }

  /**
   * The lines a reader sees that keeps the unfinished last line of each chunk and puts it in
   * front of the next chunk; what is left at the end is the last line.
   */
  function BufferedLines(chunks: seq<string>, carry: string): seq<string>
    decreases |chunks|
  {
    if chunks == [] then [carry]
    else
      var parts := Split(carry + chunks[0], '\n');
      parts[..|parts| - 1] + BufferedLines(chunks[1..], parts[|parts| - 1])
  }

  /** The buffered reader sees the lines of the whole text, however it was cut into chunks. */
  lemma {:induction false} BufferedLinesOfWhole(chunks: seq<string>, carry: string)
    requires '\n' !in carry
    ensures BufferedLines(chunks, carry) == Split(carry + Concat(chunks), '\n')
    decreases |chunks|
  {
    if chunks == [] {
      assert carry + Concat(chunks) == carry;
    } else {
      var x, y := carry + chunks[0], Concat(chunks[1..]);
      var parts := Split(x, '\n');
      var last := parts[|parts| - 1];
      assert BufferedLines(chunks, carry) == parts[..|parts| - 1] + BufferedLines(chunks[1..], last);
      BufferedLinesOfWhole(chunks[1..], last);
      SplitAppend(x, y, '\n');
      assert Concat(chunks) == chunks[0] + y;
      ConcatAssociative(carry, chunks[0], y);
    }
  }

  /** `fullText` of the buffered reader. */
  function BufferedText(chunks: seq<string>, parse: Parser): string {
    LinesText(BufferedLines(chunks, ""), parse)
  }

  /** The buffered text depends only on the text the stream carries, not on where it was cut. */
  lemma BufferedTextChunkingIrrelevant(a: seq<string>, b: seq<string>, parse: Parser)
    requires Concat(a) == Concat(b)
    ensures BufferedText(a, parse) == BufferedText(b, parse)
  {
    BufferedLinesOfWhole(a, "");
    BufferedLinesOfWhole(b, "");
  }

  /** A `text-delta` event, written as two pieces so that it can be cut between them. */
  const EventHead := "{\"type\":\"te"
  const EventTail := "xt-delta\",\"textDelta\":\"Hi\"}"

  /** `JSON.parse` on the one text used below: the event, or a syntax error for anything else. */
  function EventParser(): Parser {
    (s: string) =>
      if s == EventHead + EventTail
      then Ok(Obj(map["type" := Str("text-delta"), "textDelta" := Str("Hi")]))
      else Err("Unexpected end of JSON input")
  }

  /** A `data: ` line whose payload parses to a `text-delta` event adds the event's text. */
  lemma DataLineDelta(payload: string, parse: Parser, delta: string)
    requires parse(payload) == Ok(Obj(map["type" := Str("text-delta"), "textDelta" := Str(delta)]))
    requires delta != ""
    ensures LineDelta(DataPrefix + payload, parse) == delta
  {
    var line := DataPrefix + payload;
    assert line[..|DataPrefix|] == DataPrefix && line[|DataPrefix|..] == payload;
  }

  lemma DeltaOfLine(parse: Parser)
    requires parse == EventParser()
    ensures LinesText([DataPrefix + EventHead + EventTail], parse) == "Hi"
  {
    var line := DataPrefix + (EventHead + EventTail);
    ConcatAssociative(DataPrefix, EventHead, EventTail);
    DataLineDelta(EventHead + EventTail, parse, "Hi");
    var none: seq<string> := [];
    LinesTextSnoc(none, line, parse);
    assert none + [line] == [line];
  }

  /**
   * The page as written splits each chunk on its own: an event cut across two chunks is lost,
   * and the same stream read in one chunk gives its text.
   */
  lemma EventCutAcrossChunksIsLost()
    ensures StreamText([DataPrefix + EventHead + EventTail], EventParser()) == "Hi"
    ensures StreamText([DataPrefix + EventHead, EventTail], EventParser()) == ""
  {
    var parse := EventParser();
    var whole, first := DataPrefix + EventHead + EventTail, DataPrefix + EventHead;
    assert '\n' !in whole && '\n' !in first && '\n' !in EventTail;
    var one: seq<string>, two: seq<string> := [whole], [first, EventTail];
    assert one[..0] == [] && two[..1] == [first] && two[..1][..0] == [];
    assert ChunkLines([whole]) == [whole];
    DeltaOfLine(parse);
    assert ChunkLines([first, EventTail]) == [first, EventTail];
    assert first[..|DataPrefix|] == DataPrefix && first[|DataPrefix|..] == EventHead;
    assert |EventHead| < |EventHead + EventTail|;
    assert LineDelta(first, parse) == "";
    assert EventTail[0] != DataPrefix[0];
    assert LineDelta(EventTail, parse) == "";
    var none: seq<string> := [];
    LinesTextSnoc(none, first, parse);
    assert none + [first] == [first];
    LinesTextSnoc([first], EventTail, parse);
    assert [first] + [EventTail] == two;
  }

  /** The buffered reader gives the event's text however the stream is cut. */
  lemma BufferedKeepsCutEvent()
    ensures BufferedText([DataPrefix + EventHead, EventTail], EventParser()) == "Hi"
  {
    var whole := DataPrefix + EventHead + EventTail;
    ConcatTwo(DataPrefix + EventHead, EventTail);
    assert '\n' !in whole;
    BufferedOneLine([DataPrefix + EventHead, EventTail], whole, EventParser());
    DeltaOfLine(EventParser());
  }

  /** A stream that carries one line without a line feed gives that line's text. */
  lemma BufferedOneLine(chunks: seq<string>, line: string, parse: Parser)
    requires Concat(chunks) == line && '\n' !in line
    ensures BufferedText(chunks, parse) == LinesText([line], parse)
  {
    BufferedLinesOfWhole(chunks, "");
    assert "" + line == line;
  }

  lemma ConcatTwo(a: string, b: string)
    ensures Concat([a, b]) == a + b
  {
    var tail: seq<string> := [b];
    assert [a, b][1..] == tail && tail[1..] == [];
    assert Concat(tail) == b + "";
  }
}
