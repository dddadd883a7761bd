/** The slice of the messaging platform the bot's decisions look at: chat
    kinds, member statuses, incoming messages, and the outward effects a
    handler asks for. */
module Telegram {

  /** The kinds a chat can have; `Sender` is the inline-query kind for a
      chat with the querying user themselves. */
  datatype ChatType = Private | Group | Supergroup | Channel | Sender

  /** A user's standing in a chat; `Owner` is the platform's "creator". */
  datatype MemberStatus = Owner | Administrator | Member | Restricted | Left | Banned

  datatype Chat = Chat(id: int, kind: ChatType)

  /** An incoming text message: where it was sent, who sent it, its id, and
      its text. */
  datatype Message = Message(chat: Chat, senderId: int, messageId: int, text: string)

  /** Answers to "what is the status of this id in the message's chat?".
      The id is the configuration field as written, a string. The lookup is
      total here: a failing lookup is not part of the model. */
  type MembershipOracle = string -> MemberStatus

  /** Something a handler asks the platform or the conversation backend to do. */
  datatype Effect =
    | SendText(chat: int, text: string)
    | ReplyText(chat: int, replyTo: int, text: string)
    | SendTyping(chat: int)
    | ResetHistory(chat: int)
    | AskBackend(chat: int, query: string)
    | ReplyMarkdown(chat: int, replyTo: int, text: string)
  {
    /** The effect reaches the conversation backend. */
    predicate IsBackend()
    {
      ResetHistory? || AskBackend?
    }
  }

  /** A suggestion offered in answer to an inline query. */
  datatype Article = Article(id: string, title: string, content: string, description: string, thumbUrl: string)
}
