/** Chat-history entries as the agent loop stores them. An absent or null body is "". */
module Messages {
  import opened Sequences

  datatype Role = System | User | Assistant | Tool

  datatype ToolCall = ToolCall(id: string, name: string, arguments: string)

  datatype Message = Message(role: Role, content: string, toolCalls: seq<ToolCall>, toolCallId: string)

  /** Same messages but for the bodies of tool results. */
  predicate OnlyToolBodiesDiffer(before: seq<Message>, after: seq<Message>) {
    |before| == |after| &&
    forall i :: 0 <= i < |before| ==>
      before[i] == after[i] || (before[i].role == Tool && after[i] == before[i].(content := after[i].content))
  }

  function SystemMessage(content: string): Message {
    Message(System, content, [], "")
  }

  /** What stands in for the user when no user message is left. */
  const CONTINUE_TEXT := "[Continued from previous context" + " — execute the active plan.]"

  function UserMessage(content: string): Message {
    Message(User, content, [], "")
  }

  /** An assistant turn that issues tool calls. */
  predicate IssuesCalls(m: Message) {
    m.role == Assistant && m.toolCalls != []
  }

  predicate HasRole(context: seq<Message>, role: Role) {
    exists i :: 0 <= i < |context| && context[i].role == role
  }

  predicate IsSystem(m: Message) {
    m.role == System
  }

  predicate IsNotSystem(m: Message) {
    m.role != System
  }

  function SystemMessages(context: seq<Message>): seq<Message> {
    Filter(context, IsSystem)
  }

  function OtherMessages(context: seq<Message>): seq<Message> {
    Filter(context, IsNotSystem)
  }

}
