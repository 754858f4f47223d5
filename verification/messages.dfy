/** The chat widget's message record, `{ role: 'user' | 'assistant',
    content: string }`, shared by the widget and the request builder. */
module Messages {
  datatype Role = User | Assistant

  datatype Turn = Turn(role: Role, content: string)
}
