/** The stream relay of LlamaProcessor.process_images_stream: how each
    upstream server-sent-events line is classified, what frame it sends
    downstream, what it adds to the reply being accumulated, and when the
    reply is complete. `Relay` is the specification that the loop in
    Processor.LlamaProcessor.StreamGenerator is proved to follow. */
module StreamRelay {
  import opened Messages

  /** Python's `str.isspace` for one character: the characters `strip()` removes. */
  predicate IsSpace(c: char) {
    || c == ' '
    || ('\t' <= c <= '\r')
    || ('\U{1C}' <= c <= '\U{1F}')
    || c == '\U{85}' || c == '\U{A0}' || c == '\U{1680}'
    || ('\U{2000}' <= c <= '\U{200A}')
    || c == '\U{2028}' || c == '\U{2029}' || c == '\U{202F}' || c == '\U{205F}' || c == '\U{3000}'
  }

  /** `s` without its leading whitespace. */
  function StripStart(s: string): string {
    if s != [] && IsSpace(s[0]) then StripStart(s[1..]) else s
  }

  /** `s` without its trailing whitespace. */
  function StripEnd(s: string): string {
    if s != [] && IsSpace(s[|s| - 1]) then StripEnd(s[..|s| - 1]) else s
  }

  /** Python's `s.strip()`: never longer than `s`, and neither starting
      nor ending with whitespace. */
  function Strip(s: string): (r: string)
    ensures |r| <= |s|
    ensures r != [] ==> !IsSpace(r[0]) && !IsSpace(r[|r| - 1])
  {
    StripStartRemovesLeadingSpace(s);
    StripEndRemovesTrailingSpace(StripStart(s));
    StripEnd(StripStart(s))
  }

  /** StripStart removes exactly the leading whitespace: the result is a
      suffix, everything cut is whitespace, and it starts with a non-space. */
  lemma {:induction false} StripStartRemovesLeadingSpace(s: string)
    decreases |s|
    ensures var r := StripStart(s);
      && |r| <= |s| && r == s[|s| - |r|..]
      && (forall i :: 0 <= i < |s| - |r| ==> IsSpace(s[i]))
      && (r != [] ==> !IsSpace(r[0]))
  {
    if s != [] && IsSpace(s[0]) {
      StripStartRemovesLeadingSpace(s[1..]);
      var r := StripStart(s[1..]);
      forall i | 0 <= i < |s| - |r| ensures IsSpace(s[i]) {
        if i > 0 { assert s[i] == s[1..][i - 1]; }
      }
    }
  }

  /** StripEnd removes exactly the trailing whitespace. */
  lemma {:induction false} StripEndRemovesTrailingSpace(s: string)
    decreases |s|
    ensures var r := StripEnd(s);
      && |r| <= |s| && r == s[..|r|]
      && (forall i :: |r| <= i < |s| ==> IsSpace(s[i]))
      && (r != [] ==> !IsSpace(r[|r| - 1]))
  {
    if s != [] && IsSpace(s[|s| - 1]) {
      StripEndRemovesTrailingSpace(s[..|s| - 1]);
      var r := StripEnd(s[..|s| - 1]);
      forall i | |r| <= i < |s| ensures IsSpace(s[i]) {
        if i < |s| - 1 { assert s[i] == s[..|s| - 1][i]; }
      }
    }
  }

  /** `strip()` yields the empty string exactly when `s` is all whitespace,
      and otherwise the piece of `s` between its leading and its trailing
      whitespace, starting and ending with a non-space. */
  lemma StripSpec(s: string)
    ensures var r := Strip(s);
      var lo := |s| - |StripStart(s)|;
      && (r == [] <==> forall i :: 0 <= i < |s| ==> IsSpace(s[i]))
      && (r != [] ==> !IsSpace(r[0]) && !IsSpace(r[|r| - 1]))
      && 0 <= lo && lo + |r| <= |s| && r == s[lo..lo + |r|]
      && (forall i :: 0 <= i < lo ==> IsSpace(s[i]))
      && (forall i :: lo + |r| <= i < |s| ==> IsSpace(s[i]))
  {
    var t := StripStart(s);
    var r := StripEnd(t);
    StripStartRemovesLeadingSpace(s);
    StripEndRemovesTrailingSpace(t);
    var lo := |s| - |t|;
    assert t == s[lo..];
    assert r == s[lo..lo + |r|];
    forall i | lo + |r| <= i < |s| ensures IsSpace(s[i]) {
      assert s[i] == t[i - lo];
    }
    if r != [] {
      assert r[0] == t[0] == s[lo];
    }
  }

  const DataPrefix: string := "data:"

  /** The payload of a `data:` line: what follows the prefix, stripped,
      so it fits after the prefix and has no surrounding whitespace. */
  function Payload(line: string): (p: string)
    requires DataPrefix <= line
    ensures |DataPrefix| + |p| <= |line|
    ensures p != [] ==> !IsSpace(p[0]) && !IsSpace(p[|p| - 1])
  {
    Strip(line[|DataPrefix|..])
  }

  /** What `json.loads` and the dictionary look-ups make of a payload.
      `Faulty` stands for any other exception while reading the chunk
      (a payload that is not an object, a "delta" that is not an object,
      a "text" that is not a string), with the exception's text. */
  datatype Chunk =
    | Undecodable
    | Faulty(detail: string)
    | NoEvent                                                  // "event" missing, empty or not an object
    | Event(eventType: Option<string>, deltaText: Option<string>)

  /** The cases of the per-line loop body, in the order the source tests them. */
  datatype LineClass =
    | Blank
    | NotData
    | KeepAlive
    | BadJson(payload: string)
    | ChunkFault(detail: string)
    | NoEventObject
    | ProgressEvent(token: Option<string>)
    | CompleteEvent
    | UnhandledEvent(eventType: Option<string>)

  /** The class of one upstream line. Only the empty line is `Blank`, only
      a non-empty line without the `data:` prefix is `NotData`; every other
      class is a `data:` line, `KeepAlive` exactly when its payload is empty;
      `BadJson` quotes the (non-empty) payload; and the event classes are
      the payloads whose chunk carries that event type. */
  function Classify(line: string, parse: string -> Chunk): (c: LineClass)
    ensures c.Blank? <==> line == ""
    ensures c.NotData? <==> line != "" && !(DataPrefix <= line)
    ensures !c.Blank? && !c.NotData? ==> DataPrefix <= line && (c.KeepAlive? <==> Payload(line) == "")
    ensures c.BadJson? ==> DataPrefix <= line && c.payload == Payload(line) && c.payload != ""
    ensures c.CompleteEvent? <==>
      DataPrefix <= line && Payload(line) != "" && parse(Payload(line)).Event? && parse(Payload(line)).eventType == Some("complete")
    ensures c.ProgressEvent? ==>
      DataPrefix <= line && Payload(line) != "" && parse(Payload(line)) == Event(Some("progress"), c.token)
  {
    if line == "" then Blank
    else if !(DataPrefix <= line) then NotData
    else
      var payload := Payload(line);
      if payload == "" then KeepAlive
      else match parse(payload)
        case Undecodable => BadJson(payload)
        case Faulty(d) => ChunkFault(d)
        case NoEvent => NoEventObject
        case Event(t, text) =>
          if t == Some("progress") then ProgressEvent(text)
          else if t == Some("complete") then CompleteEvent
          else UnhandledEvent(t)
  }

  /** The relay below is stated for any classification of lines; the
      relay of the source uses `Classify` with the given JSON reading. */
  function Classifier(parse: string -> Chunk): string -> LineClass {
    line => Classify(line, parse)
  }

  predicate IsCompletion(line: string, classify: string -> LineClass) {
    classify(line).CompleteEvent?
  }

  predicate NoCompletion(lines: seq<string>, classify: string -> LineClass) {
    forall k :: 0 <= k < |lines| ==> !IsCompletion(lines[k], classify)
  }

  /** One frame sent downstream on the event stream. */
  datatype Frame =
    | Forwarded(line: string)        // an upstream line passed on verbatim
    | InvalidJson(raw: string)       // a payload json.loads rejected
    | ChunkError(detail: string)     // any other exception while reading a chunk
    | RequestError(detail: string)   // a requests exception: the POST, the status, or a read
    | StreamingError(detail: string) // any other exception around the read loop
  {
    /** The frame's text on the wire; `detail` stands for the exception's
        text as it appears there. */
    function Text(): string {
      match this
      case Forwarded(line) => line + "\n\n"
      case InvalidJson(raw) => "data: {\"error\": \"Invalid JSON received\", \"raw\": \"" + raw + "\"}\n\n"
      case ChunkError(d) => "data: {\"error\": \"Chunk processing error: " + d + "\"}\n\n"
      case RequestError(d) => "data: {\"error\": \"Llama API request failed: " + d + "\"}\n\n"
      case StreamingError(d) => "data: {\"error\": \"Internal streaming error: " + d + "\"}\n\n"
    }
  }

  /** The frames a line other than the `complete` event sends downstream:
      at most one, either the line itself or an error about its chunk. */
  function LineFrames(line: string, classify: string -> LineClass): (f: seq<Frame>)
    ensures |f| <= 1
    ensures f != [] ==> f[0] == Forwarded(line) || f[0].InvalidJson? || f[0].ChunkError?
  {
    match classify(line)
    case Blank | NotData | KeepAlive => []
    case BadJson(p) => [InvalidJson(p)]
    case ChunkFault(d) => [ChunkError(d)]
    case ProgressEvent(token) =>
      if token.Some? && token.value != "" then [Forwarded(line)] else []
    case NoEventObject | CompleteEvent | UnhandledEvent(_) => [Forwarded(line)]
  }

  /** The text a line adds to the reply being accumulated: only a progress
      event adds anything, and then exactly its text. */
  function LineToken(line: string, classify: string -> LineClass): (t: string)
    ensures t != "" ==> classify(line) == ProgressEvent(Some(t))
  {
    match classify(line)
    case ProgressEvent(Some(t)) => t
    case _ => ""
  }

  /** How the upstream line sequence ended when no `complete` event came:
      closed normally, a requests exception while reading, or any other
      exception (such as a line that is not UTF-8). */
  datatype StreamEnd = Exhausted | ReadFailed(detail: string) | Crashed(detail: string)

  /** The upstream: the POST or its status check failed, or it produced lines. */
  datatype Upstream = RequestFailed(detail: string) | Streamed(lines: seq<string>, end: StreamEnd)

  /** The frames sent downstream, and the assistant message to store, if any. */
  datatype RelayResult = RelayResult(frames: seq<Frame>, stored: Option<Message>)

  function Prepend(frames: seq<Frame>, r: RelayResult): RelayResult {
    RelayResult(frames + r.frames, r.stored)
  }

  function EndFrames(end: StreamEnd): seq<Frame> {
    match end
    case Exhausted => []
    case ReadFailed(d) => [RequestError(d)]
    case Crashed(d) => [StreamingError(d)]
  }

  /** The relay over `lines`, with `acc` the reply accumulated so far. It
      sends at most one frame per line plus one for how the stream ended,
      and a stored reply is an assistant message with stop reason
      "complete". */
  function RelayLines(lines: seq<string>, end: StreamEnd, acc: string, classify: string -> LineClass): (r: RelayResult)
    decreases |lines|
    ensures |r.frames| <= |lines| + 1
    ensures r.stored.Some? ==> r.stored.value.role == Assistant && r.stored.value.stopReason == Some("complete")
  {
    if lines == [] then RelayResult(EndFrames(end), None)
    else if IsCompletion(lines[0], classify) then
      RelayResult([Forwarded(lines[0])], Some(CompletedReply(acc)))
    else
      Prepend(LineFrames(lines[0], classify),
              RelayLines(lines[1..], end, acc + LineToken(lines[0], classify), classify))
  }

  /** What one call of the stream generator sends and stores: a failed
      request sends one frame and stores nothing; a stream sends at most one
      frame per line plus one, and what it stores is a completed assistant
      reply. */
  function Relay(upstream: Upstream, parse: string -> Chunk): (r: RelayResult)
    ensures upstream.RequestFailed? ==> |r.frames| == 1 && r.stored == None
    ensures upstream.Streamed? ==> |r.frames| <= |upstream.lines| + 1
    ensures r.stored.Some? ==> r.stored.value.role == Assistant && r.stored.value.stopReason == Some("complete")
  {
    match upstream
    case RequestFailed(d) => RelayResult([RequestError(d)], None)
    case Streamed(lines, end) => RelayLines(lines, end, "", Classifier(parse))
  }

  /** All frames the lines send, none of them being the `complete` event. */
  function FramesOf(lines: seq<string>, classify: string -> LineClass): seq<Frame>
    decreases |lines|
  {
    if lines == [] then [] else LineFrames(lines[0], classify) + FramesOf(lines[1..], classify)
  }

  /** The concatenation, in order, of the progress texts of the lines. */
  function ProgressText(lines: seq<string>, classify: string -> LineClass): string
    decreases |lines|
  {
    if lines == [] then "" else LineToken(lines[0], classify) + ProgressText(lines[1..], classify)
  }

  /** What one line does, stated on the line itself. Blank lines, lines
      without the `data:` prefix and `data:` lines with nothing but
      whitespace after it send nothing and add nothing. Undecodable JSON
      sends one error frame quoting the payload. A progress event with
      text adds that text and forwards the line; one without text does
      neither. A chunk without an event object, or with an event type
      other than progress and complete, is forwarded and adds nothing. */
  lemma LineEffects(line: string, parse: string -> Chunk)
    ensures var c := Classifier(parse);
      line == "" || !(DataPrefix <= line) || Payload(line) == "" ==>
      LineFrames(line, c) == [] && LineToken(line, c) == "" && !IsCompletion(line, c)
    ensures var c := Classifier(parse);
      DataPrefix <= line && Payload(line) != "" && parse(Payload(line)) == Undecodable ==>
      LineFrames(line, c) == [InvalidJson(Payload(line))] && LineToken(line, c) == ""
    ensures var c := Classifier(parse);
      DataPrefix <= line && Payload(line) != "" && parse(Payload(line)).Faulty? ==>
      LineFrames(line, c) == [ChunkError(parse(Payload(line)).detail)] && LineToken(line, c) == ""
    ensures var c := Classifier(parse);
      DataPrefix <= line && Payload(line) != "" && parse(Payload(line)).Event? &&
      parse(Payload(line)).eventType == Some("progress") ==>
      var text := parse(Payload(line)).deltaText;
      && LineToken(line, c) == (if text.Some? then text.value else "")
      && LineFrames(line, c) == (if text.Some? && text.value != "" then [Forwarded(line)] else [])
    ensures var c := Classifier(parse);
      DataPrefix <= line && Payload(line) != "" &&
      (parse(Payload(line)) == NoEvent ||
       (parse(Payload(line)).Event? &&
        parse(Payload(line)).eventType != Some("progress") &&
        parse(Payload(line)).eventType != Some("complete"))) ==>
      LineFrames(line, c) == [Forwarded(line)] && LineToken(line, c) == ""
    ensures IsCompletion(line, Classifier(parse)) <==>
      DataPrefix <= line && Payload(line) != "" && parse(Payload(line)).Event? &&
      parse(Payload(line)).eventType == Some("complete")
  {
  }

  /** The error frame for undecodable JSON carries the raw payload verbatim. */
  lemma InvalidJsonFrameQuotesPayload(raw: string)
    ensures var f := InvalidJson(raw).Text();
      var prefix := "data: {\"error\": \"Invalid JSON received\", \"raw\": \"";
      prefix <= f && f[|prefix|..|prefix| + |raw|] == raw
  {
  }

  /** One line that is not the `complete` event: its frames, then the rest. */
  lemma RelayStep(lines: seq<string>, end: StreamEnd, acc: string, classify: string -> LineClass)
    requires lines != [] && !IsCompletion(lines[0], classify)
    ensures RelayLines(lines, end, acc, classify)
         == Prepend(LineFrames(lines[0], classify), RelayLines(lines[1..], end, acc + LineToken(lines[0], classify), classify))
  {
  }

  lemma NoCompletionTail(lines: seq<string>, classify: string -> LineClass)
    requires lines != [] && NoCompletion(lines, classify)
    ensures !IsCompletion(lines[0], classify) && NoCompletion(lines[1..], classify)
  {
    forall k | 0 <= k < |lines| - 1 ensures !IsCompletion(lines[1..][k], classify) {
      assert lines[1..][k] == lines[k + 1];
    }
  }

  /** Lines before any `complete` event act one after the other: their
      frames come first, in order, and their progress texts extend the
      accumulator before the remaining lines are read. */
  lemma {:induction false} RelaySplit(pre: seq<string>, post: seq<string>, end: StreamEnd, acc: string,
                                      classify: string -> LineClass)
    requires NoCompletion(pre, classify)
    decreases |pre|
    ensures RelayLines(pre + post, end, acc, classify)
         == Prepend(FramesOf(pre, classify), RelayLines(post, end, acc + ProgressText(pre, classify), classify))
  {
    if pre == [] {
      assert pre + post == post;
      assert acc + ProgressText(pre, classify) == acc;
    } else {
      var t := LineToken(pre[0], classify);
      var f := LineFrames(pre[0], classify);
      NoCompletionTail(pre, classify);
      assert (pre + post)[0] == pre[0] && (pre + post)[1..] == pre[1..] + post;
      RelayStep(pre + post, end, acc, classify);
      RelaySplit(pre[1..], post, end, acc + t, classify);
      assert ProgressText(pre, classify) == t + ProgressText(pre[1..], classify);
      assert FramesOf(pre, classify) == f + FramesOf(pre[1..], classify);
      var acc' := acc + ProgressText(pre, classify);
      assert (acc + t) + ProgressText(pre[1..], classify) == acc';
      PrependTwice(f, FramesOf(pre[1..], classify), RelayLines(post, end, acc', classify));
    }
  }

  lemma PrependTwice(f: seq<Frame>, g: seq<Frame>, r: RelayResult)
    ensures Prepend(f, Prepend(g, r)) == Prepend(f + g, r)
  {
    assert f + (g + r.frames) == (f + g) + r.frames;
  }

  /** Without a `complete` event nothing is stored: the downstream gets the
      lines' frames and then, if the upstream failed while reading, one
      error frame; the accumulated text is dropped. */
  lemma RelayWithoutCompletion(lines: seq<string>, end: StreamEnd, acc: string, classify: string -> LineClass)
    requires NoCompletion(lines, classify)
    ensures RelayLines(lines, end, acc, classify)
         == RelayResult(FramesOf(lines, classify) + EndFrames(end), None)
  {
    RelaySplit(lines, [], end, acc, classify);
    assert lines + [] == lines;
  }

  /** At the first `complete` event the relay stops: that line is the last
      frame, the stored reply is every progress text before it in order
      with stop reason "complete", and nothing after it (not even how the
      upstream ends) is read. */
  lemma RelayAtFirstCompletion(lines: seq<string>, k: nat, end: StreamEnd, acc: string, classify: string -> LineClass)
    requires k < |lines| && IsCompletion(lines[k], classify) && NoCompletion(lines[..k], classify)
    ensures RelayLines(lines, end, acc, classify)
         == RelayResult(FramesOf(lines[..k], classify) + [Forwarded(lines[k])],
                        Some(CompletedReply(acc + ProgressText(lines[..k], classify))))
  {
    assert lines == lines[..k] + lines[k..];
    RelaySplit(lines[..k], lines[k..], end, acc, classify);
    assert lines[k..][0] == lines[k];
  }

  /** An assistant message is stored exactly when some line is a `complete` event. */
  lemma {:induction false} RelayStoresIffCompletion(lines: seq<string>, end: StreamEnd, acc: string,
                                                    classify: string -> LineClass)
    decreases |lines|
    ensures RelayLines(lines, end, acc, classify).stored.Some? <==> !NoCompletion(lines, classify)
  {
    if lines != [] && !IsCompletion(lines[0], classify) {
      RelayStoresIffCompletion(lines[1..], end, acc + LineToken(lines[0], classify), classify);
      if !NoCompletion(lines, classify) {
        var k :| 0 <= k < |lines| && IsCompletion(lines[k], classify);
        assert lines[1..][k - 1] == lines[k];
      }
      if !NoCompletion(lines[1..], classify) {
        var k :| 0 <= k < |lines[1..]| && IsCompletion(lines[1..][k], classify);
        assert lines[k + 1] == lines[1..][k];
      }
    }
  }

  /** Removing a line that sends nothing and adds nothing (a blank,
      non-`data:` or keep-alive line, see LineEffects) changes nothing. */
  lemma {:induction false} SilentLineInvisible(pre: seq<string>, line: string, post: seq<string>,
                                               end: StreamEnd, acc: string, classify: string -> LineClass)
    requires classify(line).Blank? || classify(line).NotData? || classify(line).KeepAlive?
    decreases |pre|
    ensures RelayLines(pre + [line] + post, end, acc, classify) == RelayLines(pre + post, end, acc, classify)
  {
    if pre == [] {
      assert pre + [line] + post == [line] + post;
      assert ([line] + post)[1..] == post;
      assert pre + post == post;
      assert acc + "" == acc;
      RelayStep([line] + post, end, acc, classify);
    } else {
      assert (pre + [line] + post)[0] == pre[0] == (pre + post)[0];
      assert (pre + [line] + post)[1..] == pre[1..] + [line] + post;
      assert (pre + post)[1..] == pre[1..] + post;
      if !IsCompletion(pre[0], classify) {
        RelayStep(pre + [line] + post, end, acc, classify);
        RelayStep(pre + post, end, acc, classify);
        SilentLineInvisible(pre[1..], line, post, end, acc + LineToken(pre[0], classify), classify);
      }
    }
  }

  /** A line that is not the `complete` event, after lines that are not
      either: the frames so far, then this line's frames, then the rest
      read with this line's text added. With LineEffects: undecodable JSON
      costs one error frame and the stream goes on. */
  lemma LineThenContinue(pre: seq<string>, line: string, post: seq<string>,
                         end: StreamEnd, acc: string, classify: string -> LineClass)
    requires NoCompletion(pre, classify) && !IsCompletion(line, classify)
    ensures RelayLines(pre + [line] + post, end, acc, classify)
         == Prepend(FramesOf(pre, classify) + LineFrames(line, classify),
                    RelayLines(post, end, acc + ProgressText(pre, classify) + LineToken(line, classify), classify))
  {
    var rest := [line] + post;
    assert pre + [line] + post == pre + rest;
    assert rest[0] == line && rest[1..] == post;
    var acc' := acc + ProgressText(pre, classify);
    RelaySplit(pre, rest, end, acc, classify);
    RelayStep(rest, end, acc', classify);
    var tail := RelayLines(post, end, acc' + LineToken(line, classify), classify);
    assert FramesOf(pre, classify) + (LineFrames(line, classify) + tail.frames)
        == (FramesOf(pre, classify) + LineFrames(line, classify)) + tail.frames;
  }

  /** A failed request sends one error frame and stores nothing. */
  lemma RequestFailureStoresNothing(detail: string, parse: string -> Chunk)
    ensures Relay(RequestFailed(detail), parse) == RelayResult([RequestError(detail)], None)
  {
  }

  /** The payload of `data: ` followed by text with no surrounding
      whitespace is that text. */
  lemma PayloadAfterSpace(json: string)
    requires json != [] && !IsSpace(json[0]) && !IsSpace(json[|json| - 1])
    ensures DataPrefix <= "data: " + json && Payload("data: " + json) == json
  {
    var line := "data: " + json;
    assert line[|DataPrefix|..] == [' '] + json;
    assert ([' '] + json)[1..] == json;
    assert StripStart(json) == json;
    assert StripStart([' '] + json) == json;
  }

  /** The text of a JSON object with the given members. */
  function JsonObject(members: string): (json: string)
    ensures |json| >= 2 && json[0] == '{' && json[|json| - 1] == '}'
  {
    "{" + members + "}"
  }

  /** A JSON object after `data: ` is the line's payload. */
  lemma PayloadOfObject(members: string)
    ensures var json := JsonObject(members);
      DataPrefix <= "data: " + json && Payload("data: " + json) == json
  {
    PayloadAfterSpace(JsonObject(members));
  }

  const HelMembers: string := "\"event\": {\"event_type\": \"progress\", \"delta\": {\"text\": \"Hel\"}}"
  const HelJson: string := JsonObject(HelMembers)
  const LoMembers: string := "\"event\": {\"event_type\": \"progress\", \"delta\": {\"text\": \"lo\"}}"
  const LoJson: string := JsonObject(LoMembers)
  const DoneMembers: string := "\"event\": {\"event_type\": \"complete\"}"
  const DoneJson: string := JsonObject(DoneMembers)

  /** Two progress events "Hel" and "lo", then `complete`, each on a
      `data: ` line: the three lines are forwarded verbatim and the reply
      "Hello" is stored, whatever follows the `complete` line. */
  lemma HelloExample(parse: string -> Chunk, end: StreamEnd)
    requires parse(HelJson) == Event(Some("progress"), Some("Hel"))
    requires parse(LoJson) == Event(Some("progress"), Some("lo"))
    requires parse(DoneJson) == Event(Some("complete"), None)
    ensures var l1, l2, l3 := "data: " + HelJson, "data: " + LoJson, "data: " + DoneJson;
      Relay(Streamed([l1, l2, l3], end), parse)
      == RelayResult([Forwarded(l1), Forwarded(l2), Forwarded(l3)], Some(CompletedReply("Hello")))
  {
    var l1, l2, l3 := "data: " + HelJson, "data: " + LoJson, "data: " + DoneJson;
    var classify := Classifier(parse);
    assert classify(l1) == ProgressEvent(Some("Hel")) by { PayloadOfObject(HelMembers); }
    assert classify(l2) == ProgressEvent(Some("lo")) by { PayloadOfObject(LoMembers); }
    assert classify(l3) == CompleteEvent by { PayloadOfObject(DoneMembers); }
    ProgressProgressComplete(l1, l2, l3, end, classify);
  }

  lemma ProgressProgressComplete(l1: string, l2: string, l3: string, end: StreamEnd, classify: string -> LineClass)
    requires classify(l1) == ProgressEvent(Some("Hel"))
    requires classify(l2) == ProgressEvent(Some("lo"))
    requires classify(l3) == CompleteEvent
    ensures RelayLines([l1, l2, l3], end, "", classify)
         == RelayResult([Forwarded(l1), Forwarded(l2), Forwarded(l3)], Some(CompletedReply("Hello")))
  {
    var lines := [l1, l2, l3];
    assert lines[1..] == [l2, l3] && lines[1..][1..] == [l3];
    RelayStep(lines, end, "", classify);
    RelayStep([l2, l3], end, "Hel", classify);
    assert "" + "Hel" == "Hel" && "Hel" + "lo" == "Hello";
  }

  /** Undecodable JSON anywhere before the `complete` event does not end
      the stream: the error frame quoting the payload takes its place, it
      adds nothing to the reply, and the stored reply is the one the
      stream would have stored without it. */
  lemma MalformedLineSkipped(pre: seq<string>, bad: string, post: seq<string>,
                             end: StreamEnd, acc: string, classify: string -> LineClass)
    requires NoCompletion(pre, classify) && classify(bad).BadJson?
    ensures RelayLines(pre + [bad] + post, end, acc, classify)
         == Prepend(FramesOf(pre, classify) + [InvalidJson(classify(bad).payload)],
                    RelayLines(post, end, acc + ProgressText(pre, classify), classify))
    ensures RelayLines(pre + [bad] + post, end, acc, classify).stored
         == RelayLines(pre + post, end, acc, classify).stored
  {
    LineThenContinue(pre, bad, post, end, acc, classify);
    assert acc + ProgressText(pre, classify) + LineToken(bad, classify) == acc + ProgressText(pre, classify);
    RelaySplit(pre, post, end, acc, classify);
  }
}
