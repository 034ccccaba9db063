/**
 * The parts of the chat platform the bot touches, as plain values: messages
 * and their entities, users, request errors, inline keyboards, and the
 * calls a handler makes (its effects).
 */
module Platform {
  import opened Wrappers
  import opened Decimal

  /**
   * The target of a text link, after URL parsing: the host's domain name
   * (`url.domain()`), the path, and the raw query string ("" when absent).
   * `Unparseable` is a target that URL parsing rejects.
   */
  datatype Link = Link(domain: Option<string>, path: string, query: string) | Unparseable

  /** A message entity: a text link, or any other kind (bold, mention, ...). */
  datatype Entity = TextLink(link: Link) | OtherEntity

  datatype User = User(id: I32, isBot: bool, username: Option<string>, fullName: string)

  /**
   * A message as the handlers see it. `entities` is None for messages that
   * carry no entity list at all (non-text messages).
   */
  datatype Message = Message(id: int, chatId: int, from: Option<User>, text: Option<string>, entities: Option<seq<Entity>>)

  /** A failed platform request: an API error with its HTTP status, or any other failure. */
  datatype RequestError = ApiError(statusCode: int) | OtherRequestError

  datatype Button = Button(text: string, callbackData: string)

  /** Inline keyboard markup: rows of buttons. */
  type Keyboard = seq<seq<Button>>

  /**
   * `InlineKeyboardMarkup::append_to_row(button, index)`: pushes onto row
   * `index` when it exists, and otherwise adds a new row holding the button.
   */
  function AppendToRow(markup: Keyboard, button: Button, index: nat): (r: Keyboard)
  {
    if index < |markup| then markup[index := markup[index] + [button]] else markup + [[button]]
  }

  datatype ReplyTarget = NoReply | ToCommand | ToMessage(messageId: int)

  /** A platform call that changes something visible. */
  datatype Effect =
    | SendMessage(text: string, replyTo: ReplyTarget, markdownV2: bool, keyboard: Option<Keyboard>)
    | DeleteCommandMessage
    | EditMessageText(chatId: int, messageId: int, newText: string, markup: Keyboard)
    | AnswerCallback(queryId: string, ackText: string, showAlert: bool)
}
