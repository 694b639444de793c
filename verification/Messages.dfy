/** Conversation messages as the session store and the model clients exchange them. */
module Messages {
  datatype Role = System | User | Assistant | Tool | OtherRole(name: string)

  datatype ToolCall = ToolCall(id: string, kind: string, name: string, arguments: string)

  datatype Message = Message(role: Role, content: string, images: seq<string>, toolCalls: seq<ToolCall>,
                             toolCallId: string, name: string)

  const FUNCTION := "function"

  function AssistantMessage(content: string, calls: seq<ToolCall>): Message {
    Message(Assistant, content, [], calls, "", "")
  }
}
