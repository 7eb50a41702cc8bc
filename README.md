# LlamaProcessor, modelled in Dafny

This project models `LlamaProcessor` from `backend/src/llama.py`, the
backend object that talks to the Llama chat-completions API on behalf of a
web front end. One processor owns one conversation history, a list of
role-tagged messages that starts with a system message. It has three jobs:

- **The history manager.**
  - It builds user messages from a prompt and base64 JPEG images.
  - It adds messages to the history. On the first message it inserts the
    system message.
  - It trims the history to the system message plus the newest
    `max_conversation_length` entries.
  - In stateless mode it replaces the history with a fresh
    `[system, user]` pair.
- **The stream relay.** In `process_images_stream` it reads the upstream
  server-sent-events lines and forwards or reports each line that carries
  an event or a chunk error downstream; blank, non-`data:` and keep-alive
  lines, and progress events without text, send nothing. It
  accumulates the progress texts. On a `complete` event it stops reading,
  and in loop mode it then stores the assistant reply in the history.
- **The non-streaming turn** of `process_text`. In loop mode it appends
  the user message, trims with its own slice assignment, and then records
  the reply. In stateless mode the history becomes `[system, user]` and
  no reply is recorded. In both modes it returns `"Error: ..."` when the
  response lacks the expected keys.

The files:

- `messages.dfy` (module `Messages`): the message values the history
  holds.
- `history.dfy` (module `History`):
  - the history rules as functions, and lemmas about them;
  - the lazy system message and the trim rule;
  - the `process_text` slice assignment as written, together with its
    intended form.
- `relay.dfy` (module `StreamRelay`):
  - Python's `str.strip()`;
  - the classification of a line;
  - the outbound frames;
  - `RelayLines`, a recursive specification of what the relay sends and
    stores for a line sequence, and the lemmas about it.
- `processor.dfy` (module `Processor`): the class `LlamaProcessor`, whose
  fields and methods mirror the source object.
  - Its methods update `conversation` in place.
  - Each method is proved against the functions above.
  - The stream generator's line loop (`RelayStream`) is proved, through a
    loop invariant, to produce exactly what `Relay` specifies.

The upstream is a parameter: an `Upstream` value stands for the streaming
POST, and a `ChatResponse` value for the reply of the non-streaming call.
`json.loads` and the dictionary look-ups on a chunk are a parameter
`parse: string -> Chunk`. `SYSTEM_PROMPT` is the constructor argument
`systemPrompt`.

## Model

| member | source | states |
|---|---|---|
| Messages.DataUri | backend/src/llama.py:23-24 | the image URL is the JPEG data-URI prefix followed by the base64 data, which can be read back from it |
| Messages.UserParts | backend/src/llama.py:19-24 | the content list has one entry for a non-empty prompt plus one per image |
| Messages.SystemMessage | backend/src/llama.py:30 | the inserted message has role system |
| Messages.UserMessage | backend/src/llama.py:17-25 | the returned message has role user, no stop reason, and a content list of one entry for a non-empty prompt plus one per image |
| Messages.CompletedReply | backend/src/llama.py:103-108 | the stored reply has role assistant and stop reason "complete" |
| Processor.LlamaProcessor.constructor | backend/src/llama.py:11-15 | a new processor streams, is in loop mode, has an empty history, and keeps at most 10 entries besides the system message |
| Processor.LlamaProcessor.SystemEntry | backend/src/llama.py:30 | the message built from SYSTEM_PROMPT is a system message |
| Processor.LlamaProcessor.PrepareUserMessage | backend/src/llama.py:17-25 | role user; a text part first exactly when the prompt is non-empty; then one image part per image, in input order, each carrying its data URI; length (prompt?1:0)+\|images\|, so no prompt and no images give empty content |
| Processor.LlamaProcessor.AddToConversation | backend/src/llama.py:27-36 | the new history is `Appended` of the old one, and a history that starts with a system message still does |
| History.Appended | backend/src/llama.py:27-36 | the history after one add is never empty, has at most max+1 entries, and ends with the added message |
| History.AppendedBySlicing | backend/src/llama.py:35-36 | the source's `[c[0]] + c[-max:]`, applied once the list exceeds max+1 entries, is the trim rule that keeps index 0 and the newest max others |
| History.TrimToLimitBounds | backend/src/llama.py:35-36 | the trim keeps index 0 and the newest max others, has min(\|h\|, max+1) entries, and leaves a history within the limit unchanged |
| History.AppendedShape | backend/src/llama.py:27-36 | after an add: an empty history with a non-system message becomes [system, message]; the message is last; at most max+1 entries; index 0 kept; the rest is the newest max of the old tail plus the message |
| History.AppendedKeepsSystemFirst | backend/src/llama.py:29-36 | adding keeps a system message at index 0 |
| History.AppendAllKeepsNewest | backend/src/llama.py:32-36 | over any number of adds (FIFO): index 0 never changes, and the rest is exactly the newest max of all non-system messages, old and new, in order |
| History.LastOfLast | backend/src/llama.py:35-36 | trimming, then appending, then trimming again equals appending and then trimming once |
| History.SliceFrom | backend/src/llama.py:152 | Python's `s[start:]` has \|s\|-start entries for a start in range, none past the end, -start for a negative start in range, and all of s for a negative start below -\|s\| |
| History.SliceFromIsSuffix | backend/src/llama.py:152 | whatever the start, `s[start:]` is a suffix of s |
| History.SliceAssignTrim | backend/src/llama.py:152 | `h[1:] = h[-k+1:]` keeps index 0 and the last entry; its length is 1 + (k-1 clamped to \|h\|) for k≥2, 1 + \|h\| for k=1 (slice start 0), and \|h\| for k=0 (slice start 1) |
| History.TextTurnHistory | backend/src/llama.py:147-152 | the history sent upstream in loop mode has at least two entries, starts with the system message (or the old index 0), and ends with the user message |
| History.SliceAssignTrimDuplicatesFirst | backend/src/llama.py:152 | as written, while the list has at most k-1 entries (always when k=1), the slice assignment puts index 0 twice: the result is [h[0]] + h |
| History.FirstTextTurnDuplicatesSystem | backend/src/llama.py:147-152 | the first process_text call on a fresh processor sends [system, system, user] |
| History.TextTurnGrowsWhenLimitIsOne | backend/src/llama.py:150-152 | with limit 1 every text turn on a non-empty history lengthens it by two |
| History.SliceAssignTrimWhenLong | backend/src/llama.py:152 | once the list has at least k entries, the slice assignment keeps index 0 and the newest k-1 others |
| History.TextTurnBounded | backend/src/llama.py:150-152 | for a limit of at least 2 the text turn leaves at most k entries |
| History.TextTurnIntended | backend/src/llama.py:152 | for a limit k ≥ 2, the corrected turn keeps index 0 of the started history and has min(\|history\|+1, k) entries |
| History.TextTurnIntendedShape | backend/src/llama.py:152 | the corrected turn keeps index 0 and then exactly the newest k-1 other entries in order, with the user message last and at most k entries |
| History.TextTurnAgreesWhenLong | backend/src/llama.py:152 | with at least k-1 entries already in the history, the as-written and the corrected turn agree |
| Processor.LlamaProcessor.ProcessText | backend/src/llama.py:145-176 | stateless mode gives exactly [system, user]. Loop mode gives the as-written slice turn, plus the untrimmed assistant reply when both keys are present, and stays within k+1 entries for k≥2. The reply is the text, or "Error: " followed by the raw response, and in that case no assistant message is added |
| Processor.LlamaProcessor.ProcessImagesStream | backend/src/llama.py:38-51 | the frames are `Relay`'s. Stateless mode gives [system, user]. In loop mode the user message is added before the stream, and the stored reply, if any, is added after it |
| Processor.RelayStream | backend/src/llama.py:70-136 | the loop over the upstream lines, with the `except` clauses: its frames and the message it leaves to store are exactly `Relay`'s |
| Processor.LlamaProcessor.StreamGenerator | backend/src/llama.py:54-141 | the frames sent are exactly `Relay`'s. The `finally` clause adds the stored reply exactly when one is stored and loop mode is on; otherwise the history is unchanged |
| Processor.ReadLine | backend/src/llama.py:80-125 | one pass of the loop body: reports a completion exactly for a `complete` event (its line forwarded); otherwise sends `LineFrames` and adds `LineToken` |
| StreamRelay.Strip | backend/src/llama.py:83 | `strip()` is never longer than its input and neither starts nor ends with whitespace |
| StreamRelay.Payload | backend/src/llama.py:83 | the payload of a `data:` line fits after the prefix and has no surrounding whitespace |
| StreamRelay.Classify | backend/src/llama.py:80-122 | the cases in the source's order: only the empty line is blank; only a non-empty line without `data:` is not data; every other class is a `data:` line, a keep-alive exactly when its payload is empty; bad JSON quotes the non-empty payload; `complete` exactly when the chunk's event type is "complete"; a progress class carries the chunk's delta text |
| StreamRelay.LineFrames | backend/src/llama.py:94-125 | a line other than the `complete` event sends at most one frame: itself, or an error about its chunk |
| StreamRelay.LineToken | backend/src/llama.py:94-98 | only a progress event adds text to the reply, and then exactly its own text |
| StreamRelay.RelayLines | backend/src/llama.py:70-141 | the specification of the loop: at most one frame per line plus one for how the stream ended; a stored reply is an assistant message with stop reason "complete" |
| StreamRelay.Relay | backend/src/llama.py:70-141 | a failed request sends one frame and stores nothing; a stream sends at most one frame per line plus one; anything stored is a completed assistant reply |
| StreamRelay.StripStartRemovesLeadingSpace | backend/src/llama.py:83 | stripping the front removes exactly the leading whitespace |
| StreamRelay.StripEndRemovesTrailingSpace | backend/src/llama.py:83 | stripping the end removes exactly the trailing whitespace |
| StreamRelay.StripSpec | backend/src/llama.py:83 | `strip()` is empty iff the text is all whitespace; otherwise it is the slice between the leading and the trailing whitespace, with non-space ends |
| StreamRelay.LineEffects | backend/src/llama.py:79-118 | blank, non-data and keep-alive lines send and add nothing; undecodable JSON sends one error frame quoting the payload; progress with text adds it and forwards the line, without text does neither; other events and chunks without an event object are forwarded and add nothing; a completion is exactly a `complete` event |
| StreamRelay.InvalidJsonFrameQuotesPayload | backend/src/llama.py:120-122 | the invalid-JSON error frame carries the raw payload verbatim |
| StreamRelay.RelayStep | backend/src/llama.py:79-125 | a line that is not the `complete` event sends its frames, then the rest is read with its text added |
| StreamRelay.RelaySplit | backend/src/llama.py:79-99 | lines before any completion act in order: their frames first, their progress texts appended to the accumulator |
| StreamRelay.RelayWithoutCompletion | backend/src/llama.py:127-141 | without a `complete` event nothing is stored; the frames are the lines' frames, then one error frame if the read failed |
| StreamRelay.RelayAtFirstCompletion | backend/src/llama.py:101-110 | at the first `complete` event the relay stops with that line as the last frame; the stored reply is all earlier progress texts in order with stop reason "complete"; later lines and the stream's end are never read |
| StreamRelay.RelayStoresIffCompletion | backend/src/llama.py:101-110 | a reply is stored if and only if some line is a `complete` event |
| StreamRelay.SilentLineInvisible | backend/src/llama.py:80-86 | removing a blank, non-data or keep-alive line anywhere changes neither the frames nor the stored reply |
| StreamRelay.LineThenContinue | backend/src/llama.py:79-125 | a non-completing line after non-completing lines: frames so far, its frames, then the rest read with its text added |
| StreamRelay.MalformedLineSkipped | backend/src/llama.py:120-122 | undecodable JSON before the completion costs exactly one error frame quoting the payload; processing continues, and the stored reply is the one the stream would store without that line |
| StreamRelay.RequestFailureStoresNothing | backend/src/llama.py:127-131 | a failed request sends one error frame and stores nothing |
| StreamRelay.HelloExample | backend/src/llama.py:79-110 | the three upstream lines `data: {"event": {"event_type": "progress", "delta": {"text": "Hel"}}}`, the same with "lo", and `data: {"event": {"event_type": "complete"}}`, for a JSON reading that decodes those payloads: the prefix test and the strip find the payloads, all three lines are forwarded verbatim, and the reply "Hello" is stored |

## Left out

- Network I/O is not modelled: `requests.post`, `raise_for_status`, `iter_lines`, and `chat_completion` (llama.py:178-200). Their outcomes are the `Upstream` and `ChatResponse` parameters.
- `json.loads` and the chunk dictionary look-ups are the `parse` parameter. A non-dict chunk raises an exception in the source. So do a non-dict `delta` and a non-string truthy token, but only on a progress event, where `delta` is read. All of them are `Faulty`, which sends the chunk-error frame.
- `StreamRelay.Classify`: an `event_type` that is not a string cannot be represented. It is neither "progress" nor "complete" and therefore falls into the unhandled case.
- `json.dumps` escaping of the error text in the request-error and streaming-error frames is not modelled. The frame carries the error text as given.
- Frames are the `Frame` datatype; `Frame.Text` gives each frame's text on the wire.
- `StreamingResponse` and the laziness of the async generator are not modelled. The generator runs to completion, and the history it reads is the one `ProcessImagesStream` left. A client that disconnects early is not modelled.
- Processor.LlamaProcessor.ProcessText: the upstream call is not modelled. The reply arrives as a parameter, and the history sent upstream is the one after the trim.
- A response that has `completion_message` but whose `content` is not a dictionary raises an uncaught `TypeError` in the source. This is not modelled.
- `print` logging has no state and is left out.
- The text of `SYSTEM_PROMPT` is not part of this model. `utils/prompts/llama_prompt.py` and the endpoint configuration are not part of this model.
- A `None` user prompt is modelled as the empty string: both are false in `if user_prompt:`.
- `max_conversation_length = 0` is excluded: `Valid` requires at least 1. With 0, Python's `c[-0:]` is the whole list, so the trim duplicates index 0 on every add (`[]` becomes `[system, system, m]`).
- `is_stream` is kept as a field; nothing in the source reads it.
- `backend/src/main.py`, the test scripts and the front end are not part of this model.
- History.TextTurnIntended: the corrected rule is defined only for a limit of at least 2. With limit 1, keeping index 0 and the newest k-1 = 0 other entries would drop the user's prompt, which cannot be what line 152 means, and no single intended result for limit 1 follows from the code.
- Processor.LlamaProcessor.ProcessText follows line 152 as written. The corrected trim, `History.TextTurnIntended`, is proved correct but not used by the method.

## Findings

| source | as written | input that shows it | evidently intended | confidence | as-written member | corrected member |
|---|---|---|---|---|---|---|
| backend/src/llama.py:152 | the slice assignment replaces everything after index 0 with the last k-1 entries of the whole list (k = max_conversation_length), and while the list has at most k-1 entries that slice includes index 0 itself | a fresh processor (k = 10) and `process_text("hi")`: the history sent upstream is [system, system, user]; with k = 1 every text turn on a non-empty history grows it by two before the reply is appended | keep the system message and the newest k-1 other entries, as `_add_to_conversation` does | not executed; high (the duplication follows from Python's slice semantics) | History.FirstTextTurnDuplicatesSystem | History.TextTurnIntended |
