# Telegram relay bot: dispatch logic

This project models the decision logic of `telegram.js`, the bridge between a
Telegram bot and a chat-completion backend. The bot has two event handlers.

- The **message handler** takes an inbound chat message and does one of:
  - sends a "text only" notice;
  - sends a rejection to a chat that is not on the allow-list;
  - calls `onStart`, `onStop` or `onMessage`;
  - answers `/models` or `/temperature` with an inline keyboard;
  - drops an unknown slash-command silently.
- The **callback handler** acknowledges every button press. It then decodes
  the button's payload into a model or temperature selection, or into nothing.

Both handlers are total pure functions here: `Dispatch.Classify` and
`Dispatch.HandleCallback`. Each returns the list of effects the handler
causes, in order. Sending, acknowledging and the collaborators in `chat.js`
are effect values (`Dispatch.Effect`), not calls.

Modules:

- `Text` (text.dfy): JavaScript `startsWith`, and `split` with a
  one-character separator. `Join` is the inverse used to pin `Split` down.
- `Decimal` (decimal.dfy): `Number#toString` on integral chat ids, plus a
  canonical-numeral parser as its inverse.
- `AllowList` (allowlist.dfy): the comma split of `ALLOWED_USER_IDS` and the
  exact-string membership test.
- `Callback` (callback.dfy): payload decoding, `split(':')[1]` included.
- `Menus` (menus.dfy): the two static keyboards and the registered command
  list, as data. Each button is built as prefix plus id (`"model:" +
  "gpt-4o"`), which is the same payload text the code writes out in full.
- `Dispatch` (dispatch.dfy): events, effects, command classification and
  the two handlers.

Two details of the code decide edge cases:

- `data.split(':')[1]` is the text between the first and the second colon,
  not everything after the first colon, so `model:a:b` selects `a`
  (`Callback.DecodeStopsAtSecondColon`).
- The allow-list is the list of raw comma-split strings, compared with
  `userId.toString()` without trimming or numeric parsing, so `" 222"` or
  `"0222"` admit nobody (`AllowList.AllowedIff`).

## Model

| member | source | states |
|---|---|---|
| Text.Split | telegram.js:10 | `split` with one separator yields at least one field, and no field contains the separator |
| Text.JoinSplit | telegram.js:10 | splitting loses nothing: joining the fields with the separator gives back the input |
| Text.SplitJoin | telegram.js:10 | splitting the join of separator-free fields gives back exactly those fields |
| Text.FirstField | telegram.js:98 | the first field is the longest separator-free prefix: it either is the whole string or is followed by the separator |
| Text.SecondField | telegram.js:98 | after a separator-free head and a separator there is a second field, and it is the first field of the rest |
| Decimal.DecimalRoundTrip | telegram.js:41 | every chat id prints as a canonical numeral (optional '-', no leading zero, no "-0") that reads back as the id |
| Decimal.DecimalOfParse | telegram.js:41 | every canonical numeral is exactly what its value prints as |
| Decimal.DecimalStringInjective | telegram.js:41 | distinct chat ids print as distinct strings |
| AllowList.Parse | telegram.js:10 | the configuration value splits into at least one comma-free entry, and the entries joined with commas restore it |
| AllowList.AllowedIff | telegram.js:41 | a chat is admitted if and only if some entry is a canonical numeral whose value is its id (no trimming, no numeric parsing) |
| AllowList.NonCanonicalEntryAdmitsNobody | telegram.js:41 | an entry with blanks, a plus sign or leading zeros matches no chat id |
| AllowList.EmptyConfigAdmitsNobody | telegram.js:10 | an empty configuration value is one empty entry and admits nobody |
| AllowList.BlankAfterCommaIsKept | telegram.js:10 | "111, 222" parses to "111" and " 222", so 111 is admitted and 222 is not |
| Callback.Decode | telegram.js:97-105 | "model:" payloads select a model, else "temp:" payloads a temperature, else nothing; the value is the text after the prefix up to the next colon |
| Callback.DecodeModelPayload | telegram.js:97-100 | "model:" followed by a colon-free name decodes to that name |
| Callback.DecodeTemperaturePayload | telegram.js:101-104 | "temp:" followed by a colon-free segment decodes to that segment |
| Callback.DecodeStopsAtSecondColon | telegram.js:98 | "model:" + name + ":" + more selects only the name |
| Menus.ModelMenuSelectsModels | telegram.js:53-63 | the model keyboard has 8 single-button rows in the listed order; each payload is "model:" plus the row's id and decodes to that id |
| Menus.TemperatureMenuSelectsValues | telegram.js:70-78 | the temperature keyboard has 5 single-button rows with payloads temp:0.1, temp:0.3, temp:0.5, temp:0.7, temp:1, each decoding to its value |
| Menus.MenuPayloadsDistinct | telegram.js:55-77 | no two buttons of a keyboard carry the same payload |
| Dispatch.ParseCommand | telegram.js:45-86 | the command read from a text is well formed and renders back to that exact text; it is a reserved command exactly when the text equals one of the four |
| Dispatch.ParseCommandText | telegram.js:45-86 | every well-formed command is read back from its own text |
| Dispatch.RegisteredCommandsRecognised | telegram.js:24-29 | each of the four commands registered in the command menu is recognised by the switch |
| Dispatch.Classify | telegram.js:32-88 | a message causes at most one effect, always for the message's chat; a handler call or keyboard happens only for text from an admitted chat, and admitted text causes nothing else |
| Dispatch.HandleCallback | telegram.js:91-106 | the press is acknowledged first and only once; nothing else happens unless the payload has a known prefix; a "model:" payload causes exactly one `setModelName` and its confirmation, and otherwise a "temp:" payload exactly one `setTemperature` and its confirmation; the name given to `setModelName` is the payload's leading segment, and the confirmation that follows carries it |
| Dispatch.Handle | telegram.js:32-106 | a text event causes at most one effect; a button event always starts with its acknowledgement |
| Dispatch.NoTextGetsNotice | telegram.js:36-38 | a message without text gets exactly the text-only notice, whatever the allow-list |
| Dispatch.RejectedIff | telegram.js:41-43 | the rejection notice is sent exactly for text from a chat not on the allow-list, and then it is the only effect |
| Dispatch.StartIff | telegram.js:45-48 | `onStart(id, first, last)` happens exactly for the text "/start" from an admitted chat |
| Dispatch.StopIff | telegram.js:49-51 | `onStop(id)` happens exactly for the text "/stop" from an admitted chat |
| Dispatch.TrailingBlankIsNotStart | telegram.js:45-86 | "/start " (trailing blank) is not "/start" and causes nothing |
| Dispatch.MenusSent | telegram.js:52-82 | "/models" and "/temperature" from an admitted chat cause exactly their keyboard |
| Dispatch.UnknownCommandDropped | telegram.js:83-85 | any other slash text from an admitted chat causes nothing |
| Dispatch.ForwardIff | telegram.js:83-86 | `onMessage(id, text)` happens exactly for admitted text without a leading slash, with the text unchanged |
| Dispatch.CallbackIgnoresAllowList | telegram.js:91-95 | the button handler's effects do not depend on the allow-list |
| Dispatch.ModelButtonSelects | telegram.js:97-100 | pressing the i-th model button acknowledges, sets the i-th model id and confirms that id |
| Dispatch.TemperatureButtonSelects | telegram.js:101-104 | pressing the i-th temperature button acknowledges, sets the i-th value and confirms it |
| Dispatch.SelectGpt4o | telegram.js:97-100 | the payload "model:gpt-4o" gives the acknowledgement, `setModelName(id, "gpt-4o")` and a confirmation naming "gpt-4o", nothing more |
| Dispatch.SelectTemperature07 | telegram.js:101-104 | the payload "temp:0.7" gives the acknowledgement, `setTemperature` of the text "0.7" and its confirmation, nothing more |

## Left out

- The `TelegramBot` client is left out: polling, the actual `sendMessage`, `answerCallbackQuery` and `setMyCommands` calls are network I/O. They appear only as effect values. The registered command list is kept as data.
- The `sendMessage` try/catch, `console.error` logging and the `polling_error` handler are left out. They only swallow and log I/O errors.
- The keyboard sends call `bot.sendMessage` directly, not the error-swallowing wrapper. Their failure behaviour is I/O and is not modelled.
- Dispatch.HandleCallback: the temperature is kept as the raw payload segment. The model does not include the `parseFloat` number passed to `setTemperature`, or its printed form in the confirmation, because that is floating-point parsing and formatting.
- `setModelName`, `setTemperature`, `onStart`, `onStop` and `onMessage` are opaque effects. chat.js is not part of this model.
- Loading `TELEGRAM_TOKEN` and `ALLOWED_USER_IDS` from the environment is left out. So is the start-up crash when `ALLOWED_USER_IDS` is missing. `AllowList.Parse` takes the value as a string.
- Messages without `from`, and callbacks without `message` or `data`, make the JavaScript throw a TypeError. They are not modelled: every message has names and every callback has a chat and a payload string.
- Decimal.DecimalRoundTrip: chat ids are unbounded integers. `Number#toString` switches to exponent notation at 1e21, far beyond Telegram ids, and that is not modelled.
- Strings are sequences of Unicode scalar values, not UTF-16 code units. The separators and prefixes are ASCII, so splitting and prefix tests agree with JavaScript.
- Asynchronous timing and interleaving of handler runs are left out. The code does not control them.
