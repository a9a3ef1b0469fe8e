/** The two bot event handlers of `initializeBot` (telegram.js:32-106) as
    pure functions from an inbound event to the effects it causes, in order.

    Sending, acknowledging and the injected collaborators (`onStart`,
    `onStop`, `onMessage`, `setModelName`, `setTemperature`) are not run
    here; each call becomes an `Effect` value naming its arguments.
 */
module Dispatch {
  import opened Text
  import opened AllowList
  import opened Callback
  import opened Menus

  datatype Option<T> = None | Some(value: T)

  /** An inbound chat message: the chat id, the sender's names, and the text
      when the message has a `text` field at all. */
  datatype Message = Message(chatId: int, firstName: string, lastName: Option<string>, text: Option<string>)

  /** A press on an inline-keyboard button. */
  datatype CallbackQuery = CallbackQuery(id: string, chatId: int, data: string)

  datatype Event = TextEvent(msg: Message) | ButtonEvent(query: CallbackQuery)

  datatype Effect =
      /** `sendMessage(to, text)`: Markdown, failures logged and swallowed. */
    | SendText(to: int, text: string)
      /** `bot.sendMessage(to, prompt, …)` with an inline keyboard. */
    | SendKeyboard(to: int, prompt: string, rows: seq<seq<Button>>)
    | AnswerCallback(queryId: string)
    | CallStart(user: int, firstName: string, lastName: Option<string>)
    | CallStop(user: int)
    | CallMessage(user: int, text: string)
    | SetModelName(user: int, name: string)
      /** `setTemperature(user, parseFloat(segment))`. */
    | SetTemperature(user: int, segment: string)
      /** `sendMessage(to, …)` confirming `parseFloat(segment)`. */
    | SendTemperatureNotice(to: int, segment: string)

  const TextOnlyNotice := "本机器人只接受文本消息，请不要发送图片、表情包或其他文件类型。"
  const DeniedNotice := "对不起，您没有权限使用这个机器人。"
  const ModelPrompt := "请选择您需要的模型："
  const TemperaturePrompt := "请选择您需要的温度："
  const ModelNoticePrefix := "模型已经切换为："

  /** The chat an effect is addressed to or acts for; none for an
      acknowledgement, which names the query instead. */
  function Subject(e: Effect): Option<int> {
    match e
    case SendText(to, _) => Some(to)
    case SendKeyboard(to, _, _) => Some(to)
    case AnswerCallback(_) => None
    case CallStart(user, _, _) => Some(user)
    case CallStop(user) => Some(user)
    case CallMessage(user, _) => Some(user)
    case SetModelName(user, _) => Some(user)
    case SetTemperature(user, _) => Some(user)
    case SendTemperatureNotice(to, _) => Some(to)
  }

  /** Effects that only an admitted user may cause: a collaborator call or
      a keyboard. */
  predicate IsPrivileged(e: Effect) {
    e.CallStart? || e.CallStop? || e.CallMessage? || e.SendKeyboard?
  }

  /** What the `switch (text)` makes of a message text. */
  datatype Command =
    | Start
    | Stop
    | ListModels
    | ListTemperatures
    | UnknownCommand(raw: string)
    | Chat(content: string)

  function CommandText(c: Command): string {
    match c
    case Start => "/start"
    case Stop => "/stop"
    case ListModels => "/models"
    case ListTemperatures => "/temperature"
    case UnknownCommand(raw) => raw
    case Chat(content) => content
  }

  predicate IsReserved(text: string) {
    text == "/start" || text == "/stop" || text == "/models" || text == "/temperature"
  }

  /** A command value the classification can produce: unknown commands are
      slash texts other than the four reserved ones, chat is text without a
      leading slash. */
  predicate WellFormed(c: Command) {
    match c
    case UnknownCommand(raw) => StartsWith(raw, "/") && !IsReserved(raw)
    case Chat(content) => !StartsWith(content, "/")
    case _ => true
  }

  /** Exact, case-sensitive comparison with the reserved commands first;
      then any other text with a leading '/' is an unknown command. */
  function ParseCommand(text: string): (c: Command)
    ensures WellFormed(c)
    ensures CommandText(c) == text
    ensures IsReserved(text) <==> !(c.UnknownCommand? || c.Chat?)
  {
    if text == "/start" then Start
    else if text == "/stop" then Stop
    else if text == "/models" then ListModels
    else if text == "/temperature" then ListTemperatures
    else if StartsWith(text, "/") then UnknownCommand(text)
    else Chat(text)
  }

  /** Classification loses nothing: each well-formed command is read back
      from its own text. */
  lemma ParseCommandText(c: Command)
    requires WellFormed(c)
    ensures ParseCommand(CommandText(c)) == c
  {
  }

  /** Every command registered in the bot's command menu is one the
      classification recognises. */
  lemma RegisteredCommandsRecognised()
    ensures forall i :: 0 <= i < |RegisteredCommands| ==>
      var c := ParseCommand(RegisteredCommands[i]); !(c.UnknownCommand? || c.Chat?)
  {
  }

  /** The `message` handler: text check, then authorization, then the
      command switch. */
  function Classify(entries: seq<string>, msg: Message): (r: seq<Effect>)
    ensures |r| <= 1
    ensures forall i :: 0 <= i < |r| ==> Subject(r[i]) == Some(msg.chatId)
    ensures forall i :: 0 <= i < |r| && IsPrivileged(r[i]) ==>
      msg.text.Some? && IsAllowed(entries, msg.chatId)
    ensures msg.text.Some? && IsAllowed(entries, msg.chatId) ==>
      forall i :: 0 <= i < |r| ==> IsPrivileged(r[i])
  {
    match msg.text
    case None => [SendText(msg.chatId, TextOnlyNotice)]
    case Some(text) =>
      if !IsAllowed(entries, msg.chatId) then [SendText(msg.chatId, DeniedNotice)]
      else
        match ParseCommand(text)
        case Start => [CallStart(msg.chatId, msg.firstName, msg.lastName)]
        case Stop => [CallStop(msg.chatId)]
        case ListModels => [SendKeyboard(msg.chatId, ModelPrompt, ModelMenu)]
        case ListTemperatures => [SendKeyboard(msg.chatId, TemperaturePrompt, TemperatureMenu)]
        case UnknownCommand(_) => []
        case Chat(content) => [CallMessage(msg.chatId, content)]
  }

  /** The `callback_query` handler: acknowledge, then act on the decoded
      payload.  The allow-list plays no part. */
  function HandleCallback(q: CallbackQuery): (r: seq<Effect>)
    ensures |r| >= 1 && r[0] == AnswerCallback(q.id)
    ensures forall i :: 1 <= i < |r| ==> !r[i].AnswerCallback? && Subject(r[i]) == Some(q.chatId)
    ensures |r| == 1 <==> !StartsWith(q.data, ModelPrefix) && !StartsWith(q.data, TemperaturePrefix)
    ensures StartsWith(q.data, ModelPrefix) ==> |r| == 3 && r[1].SetModelName?
    ensures !StartsWith(q.data, ModelPrefix) && StartsWith(q.data, TemperaturePrefix) ==>
      |r| == 3 && r[1].SetTemperature?
    ensures forall i :: 1 <= i < |r| && r[i].SetModelName? ==>
      && StartsWith(q.data, ModelPrefix)
      && IsLeadingSegment(r[i].name, q.data[|ModelPrefix|..])
      && i + 1 < |r| && r[i + 1] == SendText(q.chatId, ModelNoticePrefix + r[i].name)
    ensures forall i :: 1 <= i < |r| && r[i].SetTemperature? ==>
      && StartsWith(q.data, TemperaturePrefix)
      && IsLeadingSegment(r[i].segment, q.data[|TemperaturePrefix|..])
      && i + 1 < |r| && r[i + 1] == SendTemperatureNotice(q.chatId, r[i].segment)
  {
    [AnswerCallback(q.id)] +
      match Decode(q.data)
      case ModelChoice(name) => [SetModelName(q.chatId, name), SendText(q.chatId, ModelNoticePrefix + name)]
      case TemperatureChoice(segment) => [SetTemperature(q.chatId, segment), SendTemperatureNotice(q.chatId, segment)]
      case NoChoice => []
  }

  /** Both handlers; the allow-list is the parsed configuration value. */
  function Handle(entries: seq<string>, ev: Event): (r: seq<Effect>)
    ensures ev.TextEvent? ==> |r| <= 1
    ensures ev.ButtonEvent? ==> |r| >= 1 && r[0] == AnswerCallback(ev.query.id)
  {
    match ev
    case TextEvent(msg) => Classify(entries, msg)
    case ButtonEvent(q) => HandleCallback(q)
  }

  // ---------------------------------------------------------------------
  // Properties of the message handler

  /** A message without text gets the text-only notice and nothing else,
      whatever the allow-list says: this check comes before authorization. */
  lemma NoTextGetsNotice(entries: seq<string>, msg: Message)
    requires msg.text.None?
    ensures Classify(entries, msg) == [SendText(msg.chatId, TextOnlyNotice)]
  {
  }

  /** A text message from a chat whose id is not an allow-list entry gets
      the rejection notice and nothing else. */
  lemma RejectedIff(entries: seq<string>, msg: Message)
    ensures SendText(msg.chatId, DeniedNotice) in Classify(entries, msg) <==>
      msg.text.Some? && !IsAllowed(entries, msg.chatId)
    ensures msg.text.Some? && !IsAllowed(entries, msg.chatId) ==>
      Classify(entries, msg) == [SendText(msg.chatId, DeniedNotice)]
  {
  }

  /** `onStart` is called exactly for the text "/start" from an admitted
      chat, with the sender's names. */
  lemma StartIff(entries: seq<string>, msg: Message, e: Effect)
    requires e.CallStart?
    ensures e in Classify(entries, msg) <==>
      && msg.text == Some("/start") && IsAllowed(entries, msg.chatId)
      && e == CallStart(msg.chatId, msg.firstName, msg.lastName)
  {
  }

  /** `onStop` is called exactly for the text "/stop" from an admitted chat. */
  lemma StopIff(entries: seq<string>, msg: Message)
    ensures CallStop(msg.chatId) in Classify(entries, msg) <==>
      msg.text == Some("/stop") && IsAllowed(entries, msg.chatId)
  {
  }

  /** The match is exact: "/start " with a trailing blank is an unknown
      command and is dropped. */
  lemma TrailingBlankIsNotStart(entries: seq<string>, msg: Message)
    requires msg.text == Some("/start ") && IsAllowed(entries, msg.chatId)
    ensures Classify(entries, msg) == []
  {
    assert StartsWith("/start ", "/");
  }

  /** "/models" and "/temperature" answer with their keyboards and nothing else. */
  lemma MenusSent(entries: seq<string>, msg: Message)
    requires msg.text.Some? && IsAllowed(entries, msg.chatId)
    ensures msg.text.value == "/models" ==>
      Classify(entries, msg) == [SendKeyboard(msg.chatId, ModelPrompt, ModelMenu)]
    ensures msg.text.value == "/temperature" ==>
      Classify(entries, msg) == [SendKeyboard(msg.chatId, TemperaturePrompt, TemperatureMenu)]
  {
  }

  /** Other slash texts from admitted chats cause nothing at all. */
  lemma UnknownCommandDropped(entries: seq<string>, msg: Message)
    requires msg.text.Some? && IsAllowed(entries, msg.chatId)
    requires StartsWith(msg.text.value, "/") && !IsReserved(msg.text.value)
    ensures Classify(entries, msg) == []
  {
  }

  /** `onMessage` receives exactly the admitted texts without a leading
      slash, unchanged. */
  lemma ForwardIff(entries: seq<string>, msg: Message, content: string)
    ensures CallMessage(msg.chatId, content) in Classify(entries, msg) <==>
      msg.text == Some(content) && IsAllowed(entries, msg.chatId) && !StartsWith(content, "/")
  {
  }

  // ---------------------------------------------------------------------
  // Properties of the callback handler

  /** Callbacks are not checked against the allow-list. */
  lemma CallbackIgnoresAllowList(a: seq<string>, b: seq<string>, q: CallbackQuery)
    ensures Handle(a, ButtonEvent(q)) == Handle(b, ButtonEvent(q))
  {
  }

  /** Pressing a "/models" button sets exactly that button's model and
      confirms it by name. */
  lemma ModelButtonSelects(q: CallbackQuery, i: int)
    requires 0 <= i < |ModelMenu| && q.data == ModelMenu[i][0].payload
    ensures HandleCallback(q) == [
      AnswerCallback(q.id),
      SetModelName(q.chatId, ModelIds[i]),
      SendText(q.chatId, ModelNoticePrefix + ModelIds[i])]
  {
    ModelMenuSelectsModels();
  }

  /** Pressing a "/temperature" button sets exactly that button's value. */
  lemma TemperatureButtonSelects(q: CallbackQuery, i: int)
    requires 0 <= i < |TemperatureMenu| && q.data == TemperatureMenu[i][0].payload
    ensures HandleCallback(q) == [
      AnswerCallback(q.id),
      SetTemperature(q.chatId, TemperatureValues[i]),
      SendTemperatureNotice(q.chatId, TemperatureValues[i])]
  {
    TemperatureMenuSelectsValues();
  }

  /** The payload "model:gpt-4o" sets the model "gpt-4o" once and confirms
      it by name, after the acknowledgement. */
  lemma SelectGpt4o(q: CallbackQuery)
    requires q.data == "model:gpt-4o"
    ensures HandleCallback(q) == [
      AnswerCallback(q.id),
      SetModelName(q.chatId, "gpt-4o"),
      SendText(q.chatId, ModelNoticePrefix + "gpt-4o")]
  {
    assert q.data == ModelPrefix + "gpt-4o";
    DecodeModelPayload("gpt-4o");
  }

  /** The payload "temp:0.7" sets the temperature from the text "0.7". */
  lemma SelectTemperature07(q: CallbackQuery)
    requires q.data == "temp:0.7"
    ensures HandleCallback(q) == [
      AnswerCallback(q.id),
      SetTemperature(q.chatId, "0.7"),
      SendTemperatureNotice(q.chatId, "0.7")]
  {
    assert q.data == TemperaturePrefix + "0.7";
    DecodeTemperaturePayload("0.7");
  }
}
