/** Chat turns as app.py keeps them in `st.session_state.messages`, and the class `display_message` gives each. */
module Chat {
  import opened JsonValues

  const UserRole := "user"
  const AssistantRole := "assistant"
  const UserMessageClass := "user-message"
  const AssistantMessageClass := "assistant-message"

  /** One transcript entry: `{"role": …, "content": …, "timestamp": …}`. */
  datatype ChatTurn = ChatTurn(role: string, content: Json, timestamp: string)

  /** The CSS class `display_message` renders a turn with. */
  function MessageClass(role: string): (css: string)
    ensures css == UserMessageClass <==> role == UserRole
    ensures css == AssistantMessageClass <==> role != UserRole
  {
    if role == UserRole then UserMessageClass else AssistantMessageClass
  }
}
