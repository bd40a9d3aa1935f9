/** The chat component's value types: one message of a conversation, the two
    tabs of the widget, and the outcome of one completion request. */
module Messages {

  /** Who wrote a message: the person typing or the language model. */
  datatype Sender = User | Bot

  /** One turn of a conversation; immutable once created. */
  datatype Message = Message(sender: Sender, text: string)

  /** The view the widget shows: the live chat or the saved conversations. */
  datatype Tab = ChatTab | HistoryTab

  /** What the completion endpoint gave back for one prompt: the content of
      its first choice, or a failure of any kind (transport, authentication,
      a response without choices). */
  datatype Reply = Answered(content: string) | Failed

  /** The fixed bot text shown when a completion request fails. */
  const Fallback: string := "Desculpe, não consegui entender a sua pergunta."

  /** The text of the bot message that a reply produces: the answer itself,
      or the fixed fallback text on any failure. */
  function BotText(reply: Reply): (t: string)
    ensures reply.Answered? ==> t == reply.content
    ensures reply.Failed? ==> t == Fallback
  {
    match reply
    case Answered(content) => content
    case Failed => Fallback
  }
}
