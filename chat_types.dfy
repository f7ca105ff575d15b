/** The records the client keeps and the relay receives. */
module ChatTypes {
  import opened Wrappers

  datatype Role = User | Assistant

  /** Token accounting attached to an assistant message. */
  datatype TokenUsage = TokenUsage(promptTokens: nat, completionTokens: nat, totalTokens: nat)

  datatype Message = Message(id: string, role: Role, content: string, tokenUsage: Option<TokenUsage>)

  datatype Conversation = Conversation(id: string, title: string, messages: seq<Message>)

  /** One entry of the posted `messages` list: a role name and a content, nothing else. */
  datatype PostedMessage = PostedMessage(role: string, content: string)

  function RoleName(r: Role): string
  {
    match r
    case User => "user"
    case Assistant => "assistant"
  }
}
