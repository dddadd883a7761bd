/** The bot's command and message handlers, each as the list of effects it
    asks for. `reset` and `prompt` go through the access gate first. `help`
    and the inline-query answer do not. */
module Handlers {
  import opened Wrappers
  import opened Telegram
  import opened AccessGate

  const DisallowedMessage: string :=
    "Sorry, you are not allowed to use this bot. You can check out the source code at "
    + "https://github.com/n3d1117/chatgpt-telegram-bot"

  const ResetDone: string := "Done!"

  const HelpText: string := "/reset - Reset conversation\n/help - Help menu\n\n"

  const InlineTitle: string := "Ask ChatGPT"

  const InlineThumbUrl: string :=
    "https://user-images.githubusercontent.com/11541888/223106202-7576ff11-2c8e-408d-94ea-b02a7a32149a.png"

  /** Some effect in the list reaches the conversation backend. */
  predicate TouchesBackend(effects: seq<Effect>)
  {
    exists i :: 0 <= i < |effects| && effects[i].IsBackend()
  }

  function Allowed(config: Config, m: Message, oracle: MembershipOracle): bool
  {
    IsAllowed(config, m.senderId, m.chat.kind, oracle).allowed
  }

  /** The refusal: the fixed disallowed text sent to the message's chat, and nothing else. */
  function Refusal(m: Message): seq<Effect>
  {
    [SendText(m.chat.id, DisallowedMessage)]
  }

  /** `/reset`: clear the chat's conversation history and confirm, or refuse. */
  function Reset(config: Config, m: Message, oracle: MembershipOracle): (effects: seq<Effect>)
    ensures ResetHistory(m.chat.id) in effects <==> Allowed(config, m, oracle)
    ensures TouchesBackend(effects) <==> Allowed(config, m, oracle)
    ensures !Allowed(config, m, oracle) ==> effects == Refusal(m)
    // The history is cleared before the confirmation goes out.
    ensures Allowed(config, m, oracle) ==>
              effects == [ResetHistory(m.chat.id), SendText(m.chat.id, ResetDone)]
  {
    if !Allowed(config, m, oracle) then
      Refusal(m)
    else
      assert [ResetHistory(m.chat.id), SendText(m.chat.id, ResetDone)][0].IsBackend();
      [ResetHistory(m.chat.id), SendText(m.chat.id, ResetDone)]
  }

  /** Free text: show "typing", pass the text to the backend for this chat, and
      reply to the message with the backend's answer as Markdown; or refuse.
      `respond` stands for the backend's answer to a chat id and a query. */
  function Prompt(config: Config, m: Message, oracle: MembershipOracle, respond: (int, string) -> string): (effects: seq<Effect>)
    ensures AskBackend(m.chat.id, m.text) in effects <==> Allowed(config, m, oracle)
    ensures TouchesBackend(effects) <==> Allowed(config, m, oracle)
    ensures !Allowed(config, m, oracle) ==> effects == Refusal(m)
    // The answer is relayed unchanged, as a reply to the user's message,
    // after the question was asked.
    ensures Allowed(config, m, oracle) ==>
              |effects| == 3 &&
              effects[0] == SendTyping(m.chat.id) &&
              effects[1] == AskBackend(m.chat.id, m.text) &&
              effects[2] == ReplyMarkdown(m.chat.id, m.messageId, respond(m.chat.id, m.text))
  {
    if !Allowed(config, m, oracle) then
      Refusal(m)
    else
      var effects := [SendTyping(m.chat.id), AskBackend(m.chat.id, m.text),
                      ReplyMarkdown(m.chat.id, m.messageId, respond(m.chat.id, m.text))];
      assert effects[1].IsBackend();
      effects
  }

  /** `/help` and `/start`: the usage text as a reply, to anyone. */
  function Help(m: Message): (effects: seq<Effect>)
    ensures !TouchesBackend(effects)
    ensures |effects| == 1 && effects[0].ReplyText?
    ensures effects[0].chat == m.chat.id
    ensures effects[0].replyTo == m.messageId && effects[0].text == HelpText
  {
    [ReplyText(m.chat.id, m.messageId, HelpText)]
  }

  /** The answer to an inline query: no answer at all for an empty query,
      otherwise one "Ask ChatGPT" suggestion carrying the query. */
  function InlineQuery(query: string): (answer: Option<seq<Article>>)
    ensures answer.None? <==> query == ""
    ensures answer.Some? ==>
              |answer.value| == 1 &&
              answer.value[0].id == query &&
              answer.value[0].description == query &&
              answer.value[0].content == query &&
              answer.value[0].title == InlineTitle
  {
    if query == "" then None
    else Some([Article(query, InlineTitle, query, query, InlineThumbUrl)])
  }

  /** Inline queries reach the handler only from group and supergroup chats;
      from any other kind of chat nothing is answered. */
  function RoutedInlineQuery(kind: ChatType, query: string): (answer: Option<seq<Article>>)
    ensures answer.Some? <==> IsGroupChat(kind) && query != ""
    ensures answer.Some? ==> answer == InlineQuery(query)
  {
    if IsGroupChat(kind) then InlineQuery(query) else None
  }

  /** The suggestion echoes the query: the query can be read back from the
      answer, so distinct queries get distinct answers. */
  lemma InlineQueryEchoes(q1: string, q2: string)
    requires InlineQuery(q1) == InlineQuery(q2)
    ensures q1 == q2
  {
  }

  /** Under the wildcard list both gated handlers serve every message, and the
      answer does not depend on any membership lookup. */
  lemma WildcardServesEveryone(token: string, proxy: string, m: Message, o1: MembershipOracle, o2: MembershipOracle, respond: (int, string) -> string)
    ensures Reset(Config(token, proxy, Wildcard), m, o1) == [ResetHistory(m.chat.id), SendText(m.chat.id, ResetDone)]
    ensures Prompt(Config(token, proxy, Wildcard), m, o1, respond) == Prompt(Config(token, proxy, Wildcard), m, o2, respond)
    ensures AskBackend(m.chat.id, m.text) in Prompt(Config(token, proxy, Wildcard), m, o1, respond)
  {
  }
}
