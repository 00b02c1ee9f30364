/** The vocabulary shared by the conversation loop and the stream parsers
    (agent/apiagent/provider.go, agent/apiagent/messages.go). */
module Provider {
  import opened Common

  datatype Usage = Usage(input: int, output: int)

  /** `input` stands for the decoded argument object of the call. */
  datatype ToolCall = ToolCall(id: string, name: string, input: string)

  /** A tool-use chunk may come without its call, a final chunk without usage. */
  datatype Chunk =
    | TextChunk(text: string)
    | ToolUseChunk(call: Option<ToolCall>)
    | DoneChunk(usage: Option<Usage>)
    | ErrorChunk(message: string)
}
