/** LlamaProcessor (backend/src/llama.py): one processor owns one
    conversation history, builds user messages, relays the upstream event
    stream, and records the assistant's replies. The upstream calls are
    parameters: an `Upstream` for the streaming POST, the JSON reading as
    `parse`, and a `ChatResponse` for the non-streaming call. */
module Processor {
  import opened Messages
  import opened History
  import opened StreamRelay

  /** What chat_completion returned, as process_text reads it: both
      completion_message keys present, or a KeyError, with `raw` the text
      of the response dictionary (such as the {"error": ...} that
      chat_completion returns when the request fails). */
  datatype ChatResponse =
    | Completion(text: string, stopReason: string)
    | MissingKeys(raw: string)

  /** One pass of the line loop of the stream generator: skip blank lines,
      lines without the `data:` prefix and keep-alives; send the error
      frame for a payload that is not JSON or a chunk that cannot be read;
      add a progress event's text and forward it when the text is non-empty;
      forward a `complete` event and report it; forward anything else. */
  method ReadLine(line: string, parse: string -> Chunk) returns (emitted: seq<Frame>, token: string, complete: bool)
    ensures complete <==> IsCompletion(line, Classifier(parse))
    ensures complete ==> emitted == [Forwarded(line)] && token == ""
    ensures !complete ==> emitted == LineFrames(line, Classifier(parse)) && token == LineToken(line, Classifier(parse))
  {
    emitted, token, complete := [], "", false;
    if line != "" {
      if DataPrefix <= line {
        var dataContent := Strip(line[|DataPrefix|..]);
        if dataContent != "" {
          match parse(dataContent) {
            case Undecodable =>
              emitted := [InvalidJson(dataContent)];
            case Faulty(detail) =>
              emitted := [ChunkError(detail)];
            case NoEvent =>
              emitted := [Forwarded(line)];
            case Event(eventType, text) =>
              if eventType == Some("progress") {
                if text.Some? && text.value != "" {
                  token := text.value;
                  emitted := [Forwarded(line)];
                }
              } else if eventType == Some("complete") {
                emitted := [Forwarded(line)];
                complete := true;
              } else {
                emitted := [Forwarded(line)];
              }
          }
        }
      }
    }
  }

  /** The `try` block of the stream generator: the POST, then the line
      loop until the `complete` event or the end of the stream, and the
      error frames of the `except` clauses. It returns the frames sent and
      the assistant message to store, exactly as `Relay` specifies. */
  method RelayStream(upstream: Upstream, parse: string -> Chunk) returns (frames: seq<Frame>, toStore: Option<Message>)
    ensures frames == Relay(upstream, parse).frames
    ensures toStore == Relay(upstream, parse).stored
  {
    toStore := None;
    frames := [];
    match upstream {
      case RequestFailed(d) =>
        frames := frames + [RequestError(d)];
        toStore := None;
      case Streamed(lines, end) =>
        ghost var classify := Classifier(parse);
        var acc := "";
        var i := 0;
        while i < |lines|
          invariant 0 <= i <= |lines|
          invariant toStore == None
          invariant RelayLines(lines, end, "", classify) == Prepend(frames, RelayLines(lines[i..], end, acc, classify))
        {
          var emitted, token, complete := ReadLine(lines[i], parse);
          assert lines[i..][0] == lines[i];
          if complete {
            toStore := Some(CompletedReply(acc));
            assert RelayLines(lines[i..], end, acc, classify) == RelayResult(emitted, toStore);
            frames := frames + emitted;
            break;
          }
          assert lines[i..][1..] == lines[i + 1..];
          RelayStep(lines[i..], end, acc, classify);
          PrependTwice(frames, emitted, RelayLines(lines[i + 1..], end, acc + token, classify));
          frames := frames + emitted;
          acc := acc + token;
          i := i + 1;
        }
        if toStore == None {
          assert lines[i..] == [];
          match end {
            case Exhausted =>
            case ReadFailed(detail) =>
              frames := frames + [RequestError(detail)];
              toStore := None;
            case Crashed(detail) =>
              frames := frames + [StreamingError(detail)];
              toStore := None;
          }
        }
    }
  }

  class LlamaProcessor {
    /** SYSTEM_PROMPT, whose text is not part of this model. */
    const systemPrompt: string
    var isStream: bool
    var isConversationLoop: bool
    var conversation: seq<Message>
    var maxConversationLength: nat

    /** The history limit is positive (with 0, `conversation[-0:]` keeps
        the whole list) and a started history begins with a system message. */
    ghost predicate Valid()
      reads this
    {
      maxConversationLength >= 1 && SystemFirst(conversation)
    }

    function SystemEntry(): (m: Message)
      ensures m.role == System
    {
      SystemMessage(systemPrompt)
    }

    constructor (systemPrompt: string)
      ensures Valid()
      ensures this.systemPrompt == systemPrompt
      ensures isStream && isConversationLoop && conversation == [] && maxConversationLength == 10
    {
      this.systemPrompt := systemPrompt;
      isStream := true;
      isConversationLoop := true;
      conversation := [];
      maxConversationLength := 10;
    }

    /** _prepare_user_message: role "user"; a text part first exactly when
        the prompt is non-empty; then one image part per image, in order,
        each under its data URI. No prompt and no images give an empty
        content list, not an error. */
    method PrepareUserMessage(images: seq<string>, userPrompt: string) returns (m: Message)
      ensures m.role == User && m.stopReason == None && m.content.Parts?
      ensures var parts := m.content.parts;
        var n := if userPrompt != "" then 1 else 0;
        && |parts| == n + |images|
        && (parts != [] ==> (parts[0].TextPart? <==> userPrompt != ""))
        && (userPrompt != "" ==> parts[0] == TextPart(userPrompt))
        && (forall i :: 0 <= i < |images| ==> parts[n + i] == ImageUrlPart(DataUri(images[i])))
      ensures m == UserMessage(images, userPrompt)
    {
      var content: seq<Part> := [];
      if userPrompt != "" {
        content := content + [TextPart(userPrompt)];
      }
      var n := |content|;
      for i := 0 to |images|
        invariant |content| == n + i
        invariant userPrompt != "" ==> content[0] == TextPart(userPrompt)
        invariant userPrompt == "" ==> n == 0
        invariant forall j :: 0 <= j < i ==> content[n + j] == ImageUrlPart(DataUri(images[j]))
      {
        content := content + [ImageUrlPart(DataUri(images[i]))];
      }
      assert content == UserParts(images, userPrompt);
      m := Message(User, Parts(content), None);
    }

    /** _add_to_conversation; AppendedShape and AppendAllKeepsNewest state
        what the new history looks like. */
    method AddToConversation(message: Message)
      requires Valid()
      modifies this`conversation
      ensures Valid()
      ensures conversation == Appended(old(conversation), message, SystemEntry(), maxConversationLength)
    {
      ghost var h := conversation;
      var c := conversation;
      if c == [] && message.role != System {
        c := c + [SystemEntry()];
      }
      c := c + [message];
      assert c[0].role == System;
      assert c == WithSystem(h, message, SystemEntry()) + [message];
      AppendedBySlicing(h, message, SystemEntry(), maxConversationLength);
      if |c| > maxConversationLength + 1 {
        c := [c[0]] + c[|c| - maxConversationLength..];
      }
      conversation := c;
    }

    /** The stream generator of process_images_stream, run to its end: it
        sends what `Relay` says and, in loop mode, adds the stored reply to
        the history (the `finally` clause); a failed or unfinished stream
        leaves the history as it was. */
    method StreamGenerator(upstream: Upstream, parse: string -> Chunk) returns (frames: seq<Frame>)
      requires Valid()
      modifies this`conversation
      ensures Valid()
      ensures frames == Relay(upstream, parse).frames
      ensures var stored := Relay(upstream, parse).stored;
        conversation == if stored.Some? && isConversationLoop
                        then Appended(old(conversation), stored.value, SystemEntry(), maxConversationLength)
                        else old(conversation)
    {
      var toStore;
      frames, toStore := RelayStream(upstream, parse);
      if toStore.Some? && isConversationLoop {
        AddToConversation(toStore.value);
      }
    }

    /** process_images_stream: the user message goes into the history
        before the upstream is called, by _add_to_conversation in loop mode
        and as a fresh [system, user] history in stateless mode; then the
        stream runs. */
    method ProcessImagesStream(images: seq<string>, userPrompt: string, upstream: Upstream, parse: string -> Chunk)
      returns (frames: seq<Frame>)
      requires Valid()
      modifies this`conversation
      ensures Valid()
      ensures frames == Relay(upstream, parse).frames
      ensures !isConversationLoop ==> conversation == [SystemEntry(), UserMessage(images, userPrompt)]
      ensures isConversationLoop ==>
        var sent := Appended(old(conversation), UserMessage(images, userPrompt), SystemEntry(), maxConversationLength);
        var stored := Relay(upstream, parse).stored;
        conversation == if stored.Some? then Appended(sent, stored.value, SystemEntry(), maxConversationLength) else sent
    {
      var userMessage := PrepareUserMessage(images, userPrompt);
      if isConversationLoop {
        AddToConversation(userMessage);
      } else {
        conversation := [SystemEntry(), userMessage];
      }
      frames := StreamGenerator(upstream, parse);
    }

    /** process_text: the system message when the history is empty; in
        loop mode the user message and the slice assignment of line 152,
        in stateless mode a fresh [system, user] history; then the reply,
        appended untrimmed in loop mode, or "Error: " and the raw response
        when its keys are missing, with no assistant message added. */
    method ProcessText(userPrompt: string, response: ChatResponse) returns (reply: string)
      requires Valid()
      modifies this`conversation
      ensures Valid()
      ensures reply == match response
        case Completion(text, _) => text
        case MissingKeys(raw) => "Error: " + raw
      ensures !isConversationLoop ==> conversation == [SystemEntry(), Message(User, Text(userPrompt), None)]
      ensures isConversationLoop ==>
        conversation == TextTurnHistory(old(conversation), Message(User, Text(userPrompt), None),
                                        SystemEntry(), maxConversationLength)
                        + match response
                          case Completion(text, stopReason) => [Message(Assistant, Text(text), Some(stopReason))]
                          case MissingKeys(_) => []
      ensures isConversationLoop && maxConversationLength >= 2 ==> |conversation| <= maxConversationLength + 1
    {
      ghost var h := conversation;
      var c := conversation;
      if c == [] {
        c := c + [SystemEntry()];
      }
      var userMessage := Message(User, Text(userPrompt), None);
      if isConversationLoop {
        c := c + [userMessage];
        assert c == (if h == [] then [SystemEntry()] else h) + [userMessage];
        c := [c[0]] + SliceFrom(c, 1 - maxConversationLength as int);
        assert c == TextTurnHistory(h, userMessage, SystemEntry(), maxConversationLength);
        if maxConversationLength >= 2 {
          TextTurnBounded(h, userMessage, SystemEntry(), maxConversationLength);
        }
      } else {
        c := [SystemEntry(), userMessage];
      }
      assert c[0].role == System;
      // the history chat_completion is given
      conversation := c;
      match response {
        case Completion(text, stopReason) =>
          if isConversationLoop {
            conversation := c + [Message(Assistant, Text(text), Some(stopReason))];
          }
          reply := text;
        case MissingKeys(raw) =>
          reply := "Error: " + raw;
      }
    }
  }
}
