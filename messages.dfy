/** The message values that LlamaProcessor keeps in its conversation history
    and sends to the chat-completions endpoint. In the source these are
    Python dictionaries; here each shape the source builds is a datatype. */
module Messages {

  datatype Option<+T> = None | Some(value: T)

  /** The "role" key of a message. */
  datatype Role = System | User | Assistant

  /** One element of a user message's "content" list. */
  datatype Part =
    | TextPart(text: string)        // {"type": "text", "text": ...}
    | ImageUrlPart(url: string)     // {"type": "image_url", "image_url": {"url": ...}}

  /** A message's "content": a plain string or a list of parts. */
  datatype Content = Text(text: string) | Parts(parts: seq<Part>)

  /** A message; `stopReason` is the "stop_reason" key, present only on assistant replies. */
  datatype Message = Message(role: Role, content: Content, stopReason: Option<string>)

  const ImageUriPrefix: string := "data:image/jpeg;base64,"

  /** The data URI under which a base64 JPEG is sent; the image is recoverable from it. */
  function DataUri(image: string): (uri: string)
    ensures ImageUriPrefix <= uri
    ensures uri[|ImageUriPrefix|..] == image
  {
    ImageUriPrefix + image
  }

  /** The system message, carrying the (opaque) system prompt. */
  function SystemMessage(prompt: string): (m: Message)
    ensures m.role == System && m.stopReason == None
  {
    Message(System, Text(prompt), None)
  }

  /** The content list of a user message: a text part when the prompt is
      non-empty, then one image part per image, in the given order. */
  function UserParts(images: seq<string>, prompt: string): (parts: seq<Part>)
    ensures |parts| == (if prompt != "" then 1 else 0) + |images|
  {
    var text := if prompt != "" then [TextPart(prompt)] else [];
    text + seq(|images|, i requires 0 <= i < |images| => ImageUrlPart(DataUri(images[i])))
  }

  /** The user message `_prepare_user_message` returns. */
  function UserMessage(images: seq<string>, prompt: string): (m: Message)
    ensures m.role == User && m.stopReason == None && m.content.Parts?
    ensures |m.content.parts| == (if prompt != "" then 1 else 0) + |images|
  {
    Message(User, Parts(UserParts(images, prompt)), None)
  }

  /** The assistant message stored once a stream has completed. */
  function CompletedReply(text: string): (m: Message)
    ensures m.role == Assistant && m.stopReason == Some("complete")
  {
    Message(Assistant, Text(text), Some("complete"))
  }

  /** The history invariant: a non-empty history starts with a system message. */
  predicate SystemFirst(h: seq<Message>) {
    h != [] ==> h[0].role == System
  }
}
