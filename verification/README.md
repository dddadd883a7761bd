# Telegram ChatGPT bot: access gate, handlers and amount text

This project models the decision layer of a Telegram bot that passes user text
to a ChatGPT backend. The model covers five things:

- **Access gate.** `is_allowed` decides whether a sender may use the bot. It
  reads the configured `allowed_user_ids` string, the sender's id, the chat
  type, and the group membership of the listed ids.
- **Gated handlers.** `/reset` and free-text `prompt` are modelled as lists of
  effects on the platform and the backend.
- **Help handler.** `/help` and `/start` reply with a fixed usage text.
- **Inline queries.** The answer echoes the typed query.
- **Amount text.** These are the string steps of the currency responder's
  rouble branch.

Every part is a pure function. Group membership comes from a
`MembershipOracle`, a total function from the listed id string to a member
status. The backend's answer to a prompt comes from a function parameter
`respond`.

Modules:

- `Wrappers` (`wrappers.dfy`) holds `Option`.
- `Text` (`text.dfy`) holds the parts of Python's `str` the bot uses:
  - `split` on a character, with `join` as its inverse;
  - `in` and `find` for substrings;
  - `split(sep)[0]`;
  - `replace(c, '')`;
  - `str(n)` for integers, with a parser as its inverse.
- `Telegram` (`telegram.dfy`) holds the platform types: chat type, member
  status, message, effect and inline article.
- `AccessGate` (`access_gate.dfy`) holds `is_group_chat`, the status test of
  `is_user_in_group`, and `is_allowed`. `is_allowed` returns a `Decision`: the
  verdict, plus the ids passed to `get_member`, in the order they were asked.
- `Handlers` (`handlers.dfy`) holds `reset`, `prompt`, `help`, `inline_query`
  and the group-only routing of inline queries.
- `CurrencyText` (`currency_text.dfy`) holds the rouble branch up to the
  `float(...)` call. It has the code as written and the evidently intended
  version (see Findings).

## Model

| member | source | states |
|---|---|---|
| `Text.Split` | src/bot.py:125 | `split(',')` yields one more field than there are commas, and no field contains a comma (so `""` gives one empty field) |
| `Text.SplitThenJoin` | src/bot.py:125 | joining the split fields with the separator gives back the configured string: splitting loses no character |
| `Text.JoinThenSplit` | src/bot.py:125 | splitting a join of comma-free fields gives back exactly those fields, so each field is kept as written, untrimmed |
| `Text.Find` | src/bot.py:169 | the search result is an occurrence of the substring with no earlier occurrence; when nothing is found, no position holds an occurrence |
| `Text.ContainsNeedsChar` | src/bot.py:169 | text that lacks some character of the searched string cannot contain that string |
| `Text.FirstField` | src/bot.py:170 | `split(sep)[0]` is a prefix of the text that ends exactly where the first occurrence of `sep` starts, or is the whole text when `sep` does not occur |
| `Text.FirstFieldIsFirstSplit` | src/bot.py:125 | for a one-character separator, `split(sep)[0]` agrees with the first field of the full split |
| `Text.RemoveAll` | src/bot.py:170 | `replace(c, '')` leaves no `c` and adds no new character |
| `Text.RemoveAllConcat` | src/bot.py:170 | `replace(c, '')` on a concatenation is the concatenation of the two results |
| `Text.NatToDecimal` | src/bot.py:128 | `str` of a natural number is a non-empty digit string with no leading zero |
| `Text.IntToDecimal` | src/bot.py:128 | `str(id)` is non-empty, starts with `-` exactly for negative ids, and is otherwise all digits, with no spaces |
| `Text.NatDecimalRoundTrip` | src/bot.py:128 | reading the digits of `str(n)` back gives `n` |
| `Text.IntDecimalRoundTrip` | src/bot.py:128 | reading `str(id)` back gives `id`, including negative ids |
| `Text.IntToDecimalInjective` | src/bot.py:128 | distinct ids render as distinct strings, so a listed field admits at most one id |
| `AccessGate.Listed` | src/bot.py:125-128 | defines the exact-match test: `str(sender)` equals one of the raw comma-split fields |
| `AccessGate.IsUserInGroup` | src/bot.py:107-116 | defines the membership test: the oracle's answer for the id (the `get_member` lookup at line 111) is a status that counts as in the group |
| `AccessGate.IsGroupChat` | src/bot.py:98-105 | a chat counts as a group exactly when it is a group or supergroup, never a private chat, channel or sender chat |
| `AccessGate.CountsAsMember` | src/bot.py:107-116 | owner, administrator and member count as in the group; restricted, left and banned users do not |
| `AccessGate.GroupSearch` | src/bot.py:132-136 | the search admits iff some listed id is in the group; lookups follow list order and stop at the first member found; a failed search looked up every id |
| `AccessGate.IsAllowed` | src/bot.py:118-139 | allowed iff the list is exactly `*`, or `str(sender)` is a field, or the chat is a group with a listed member; the oracle is consulted only for an unlisted sender in a group chat, in list order, up to the first member |
| `AccessGate.GroupSearchFrame` | src/bot.py:133-136 | two oracles that agree on the ids the search asked about give the same search result |
| `AccessGate.OracleFrame` | src/bot.py:118-139 | the gate's verdict depends on the platform only through the lookups it records |
| `AccessGate.SpacedFieldNeverMatches` | src/bot.py:125-129 | a field containing a space, such as `" 2"`, never equals a sender's id |
| `AccessGate.SpacedListRefusesPrivateSender` | src/bot.py:125-139 | with the list `"1, 2"`, user 2 in a private chat is refused with no lookups |
| `Handlers.Refusal` | src/bot.py:82-90 | defines the refusal: one message with the fixed disallowed text, sent to the chat of the update |
| `Handlers.Reset` | src/bot.py:28-38 | the history is reset iff the gate allows; on refusal the only effect is the disallowed text; otherwise the reset comes before "Done!" |
| `Handlers.Prompt` | src/bot.py:40-59 | the backend is asked iff the gate allows; on refusal the only effect is the disallowed text; otherwise "typing", then the question, then the backend's answer unchanged as a Markdown reply to the message |
| `Handlers.Help` | src/bot.py:23-26 | help is one reply with the usage text to the message, in the message's chat, and it never touches the backend |
| `Handlers.InlineQuery` | src/bot.py:61-80 | an empty query gets no answer; any other query gets one "Ask ChatGPT" suggestion whose id, description and content are the query |
| `Handlers.RoutedInlineQuery` | src/bot.py:197-199 | only non-empty queries from group and supergroup chats are answered |
| `Handlers.InlineQueryEchoes` | src/bot.py:70-78 | the query can be read back from the answer, so different queries get different answers |
| `Handlers.WildcardServesEveryone` | src/bot.py:122-123 | under `*`, reset and prompt serve every message, and the result does not depend on group membership |
| `CurrencyText.NormaliseAmount` | src/bot.py:170 | defines the `.replace` chain: commas deleted, then full stops, then spaces |
| `CurrencyText.StripSeparators` | src/bot.py:170 | the stripped amount has no comma, full stop or space, and every character in it comes from the input |
| `CurrencyText.NormaliseIsStrip` | src/bot.py:170 | the three successive `replace` calls delete exactly the commas, full stops and spaces, and keep every other character in order |
| `CurrencyText.StripConcat` | src/bot.py:170 | stripping a concatenation strips each part |
| `CurrencyText.StripKeepsCleanText` | src/bot.py:170 | text with no separators is unchanged, so normalising is idempotent |
| `CurrencyText.AmountBefore` | src/bot.py:169-170 | for a keyword entry, when reached: yields an amount text iff the entry occurs as a literal substring, and then it is the stripped text before the first occurrence |
| `CurrencyText.RubAmountText` | src/bot.py:169-170 | lines 169-170, when reached: the rouble test succeeds iff the whole entry (the three alternatives joined by bars) occurs; then it yields the stripped text before the first occurrence |
| `CurrencyText.RunEntries` | src/bot.py:167-180 | the loop over the table raises iff some entry is not the rouble entry; each amount text is the amount text (`AmountBefore`) of a rouble entry preceded only by rouble entries, so nothing after the first non-rouble entry yields one |
| `CurrencyText.ResponderNeverReachesRoubles` | src/bot.py:145-176 | with the table as written (dollar entry first, rouble entry thirteenth), the handler raises on every message and produces no amount text |
| `CurrencyText.RubKeywordNeedsBar` | src/bot.py:158-169 | as written, the test at line 169 fails on any text without a bar character |
| `CurrencyText.PlainRoublesMissed` | src/bot.py:169 | as written, the test at line 169 fails on `"500 рублей"`, so it gives no rouble amount |
| `CurrencyText.RubAlternativesAreEntryFields` | src/bot.py:158 | the rouble entry splits on the bar character into `рублей`, `руб`, `₽` |
| `CurrencyText.FirstMentioned` | src/bot.py:167-169 | picks the first alternative, in table order, that occurs in the text; it finds none iff no alternative occurs |
| `CurrencyText.RubAmountTextIntended` | src/bot.py:167-170 | fires iff some rouble alternative occurs; then yields the stripped text before the first occurrence of the first alternative, in table order, that occurs |
| `CurrencyText.PlainRoublesRecognised` | src/bot.py:169-170 | under the intended reading, `"500 рублей"` yields the amount text `"500"` |

## Findings

| source | as written | input that shows it | evidently intended | confidence | as-written member | corrected member |
|---|---|---|---|---|---|---|
| src/bot.py:169 | `regex in message_text` looks for the whole entry (`рублей`, `руб`, `₽` joined by bars) as one substring, so the rouble branch needs the bars in the message. In the program as written, line 176 masks this: the dollar entry raises before the rouble entry is reached | `"500 рублей"` fails the test at line 169 (the test is never evaluated, because line 176 raises first) | the branch fires when any one alternative (`рублей`, `руб`, `₽`) occurs, and the amount is the text before it | medium; not executed | `CurrencyText.RubAmountText` (with `CurrencyText.RubKeywordNeedsBar`, `CurrencyText.PlainRoublesMissed`) | `CurrencyText.RubAmountTextIntended` (with `CurrencyText.PlainRoublesRecognised`) |

## Left out

- Membership lookup failures: `get_member` can fail, and at src/bot.py:111
  nothing catches it, so the whole handler aborts. The oracle here is total,
  and there is no "a failed lookup counts as not a member" rule, because the
  code has none.
- `float(...)` parsing of the amount and the reply text `"<amount> RUB = ..."`
  (src/bot.py:170-174): these are floating point and Python float formatting.
  The model stops at the normalised string.
- The non-rouble branch (src/bot.py:175-180) is modelled only as the
  exception it raises. It calls `.search` on a `str`, so it raises the first
  time it is evaluated. Since the dollar entry comes first, this ends the
  handler on every text message (`CurrencyText.RunEntries`,
  `CurrencyText.ResponderNeverReachesRoubles`). Its amount parsing (line 177)
  and the rate conversion are never reached. `src/currency_converter.py` (HTTP fetch, HTML scraping, float rounding) is
  not part of this model either.
- Lower-casing of the message text (src/bot.py:142): Unicode case mapping is
  not modelled. The currency functions take text that is already lower-cased.
- Registration of the two message handlers in `run()` (src/bot.py:195-196).
  Line 195 registers the currency responder with `filters.text &
  (~filters.command)`, in lower case. Line 196 registers `prompt` with
  `filters.TEXT & (~filters.COMMAND)`, in upper case. If the lower-case names
  exist in the installed framework, both handlers carry the same filter, the
  currency responder is registered first and is not gated, and under the
  framework's first-match rule it would take free text ahead of `prompt`. If
  they do not exist, `run()` fails at line 195 with an attribute error, before
  the inline handler is added and before polling starts. Which reading holds
  depends on the framework version and is not modelled. `prompt` is modelled
  as a handler on its own.
- Not modelled: async/await, logging, `error_handler`, the token and proxy
  set-up, and the un-awaited `send_message` calls (src/bot.py:172, 180).
- Backend state: the backend's per-chat history is not modelled. `respond`
  is a plain function of chat id and query. A reset is recorded as a
  `ResetHistory` effect, and its effect on later answers is not modelled.
- Display options: `disable_web_page_preview` and Markdown rendering beyond
  the `ReplyMarkdown` tag are not modelled. The inline thumbnail URL is
  carried as a constant but no property is stated about it.
- CurrencyText.RubAmountText: as written, src/bot.py:168-174 is unreachable.
  The loop raises on the dollar entry before the rouble entry is reached, and
  `CurrencyText.ResponderNeverReachesRoubles` proves this. The member models
  lines 169-170 on their own, as if they were reached. The same holds for
  `CurrencyText.AmountBefore` and for the corrected
  `CurrencyText.RubAmountTextIntended`.
- CurrencyText.RunEntries: a `float(...)` failure in a reached rouble branch
  is not counted as an exception, because the model has no float parsing.
