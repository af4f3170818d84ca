/**
 * The conversation transcript: turns whose content is either one string or
 * an ordered list of typed parts, as held in the chat hook's `messages`
 * state and rendered by the chat view.
 */
module Transcript {

  datatype Role = User | Assistant | Tool

  /**
   * The payload a tool-call part carries: the hook spreads the stream
   * fragment's `toolCall` field into the part, so this is that field's
   * value, opaque to the hook. The view reads a tool name and arguments
   * from the part; that they are there depends on what the model SDK puts
   * in `toolCall`, which is not part of this model (the hook itself keys
   * calls by the fragment's top-level `toolCallId`).
   */
  datatype CallData = CallData(toolName: string, args: string)

  /** A file the user attached; only its data-URL encoding reaches a turn. */
  datatype File = File(name: string, mimeType: string, bytes: seq<int>)

  datatype Part =
    | TextPart(text: string)
    | ImagePart(image: string)
    | ToolCallPart(call: CallData)
    | ToolResultPart(toolCallId: string, result: string)
    | OtherPart(kind: string)   // a part whose `type` is none of the above

  /** A turn's `content`: a string, an array of parts, or any other value. */
  datatype Content = Plain(text: string) | Parts(parts: seq<Part>) | Unstructured

  datatype Turn = Turn(role: Role, content: Content)

  /** The assistant turn the hook appends when a request fails. */
  function ErrorTurn(message: string): (t: Turn)
    ensures t.role == Assistant && t.content.Plain?
    ensures |t.content.text| == 7 + |message|
    ensures t.content.text[..7] == "Error: " && t.content.text[7..] == message
  {
    Turn(Assistant, Plain("Error: " + message))
  }
}
