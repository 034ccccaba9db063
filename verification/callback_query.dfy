/**
 * The callback-query handler: a press of a reaction button. Its decisions
 * (which reaction, which acknowledgement) are functions; the handler is a
 * method because it runs the toggle.
 */
module Callbacks {
  import opened Wrappers
  import opened Reactions
  import opened Platform
  import opened Util

  /** A button press: its id, who pressed, the message it is attached to (if still available) and its data. */
  datatype CallbackQuery = CallbackQuery(id: string, from: User, message: Option<Message>, data: Option<string>)

  const BrokenMessageAlert: string := "Something's wrong with that message. Try this on another message."

  /** U+274E, the acknowledgement of a withdrawn vote. */
  const RemovedAck: string := "\U{274E}"

  /** `query.data.unwrap().parse().unwrap()`: the pressed reaction, or the panic. */
  function CallbackReaction(data: Option<string>): (r: Result<Reaction, Panic>)
    ensures data.None? ==> r == Err(MissingCallbackData)
    ensures data.Some? ==> (r.Ok? <==> data.value in WireIds)
    ensures r.Ok? ==> ToWire(r.value) == data.value
    ensures r.Err? && data.Some? ==> r.error == UnknownCallbackData(data.value)
  {
    match data
    case None => Err(MissingCallbackData)
    case Some(d) =>
      match FromWire(d)
      case None => Err(UnknownCallbackData(d))
      case Some(reaction) => Ok(reaction)
  }

  /** Each button of the reaction keyboard selects the reaction it shows. */
  lemma KeyboardButtonSelects(i: nat)
    requires i < |ReactionOrder|
    ensures |ReactionKeyboard()| == 1 && i < |ReactionKeyboard()[0]|
    ensures CallbackReaction(Some(ReactionKeyboard()[0][i].callbackData)) == Ok(ReactionOrder[i])
    ensures ReactionKeyboard()[0][i].text == Emoji(ReactionOrder[i])
  {
    ReactionKeyboardShape();
  }

  /** The acknowledgement: the reaction's emoji when the vote was added, the cross mark when it was withdrawn. */
  function AckText(r: Reaction, added: bool): string
  {
    if added then Emoji(r) else RemovedAck
  }

  /**
   * The acknowledgement tells the presser which way the vote went, and an
   * added vote names its reaction.
   */
  lemma AckTextDistinguishes(r1: Reaction, r2: Reaction)
    ensures AckText(r1, true) != AckText(r2, false)
    ensures AckText(r1, true) == AckText(r2, true) ==> r1 == r2
    ensures AckText(r1, false) == AckText(r2, false)
  {
    EmojiInjective(r1, r2);
    assert Emoji(r1) != RemovedAck by {
      match r1
      case Heart => assert Emoji(r1)[0] != RemovedAck[0];
      case Laugh => assert Emoji(r1)[0] != RemovedAck[0];
      case Anger => assert Emoji(r1)[0] != RemovedAck[0];
      case Sad => assert Emoji(r1)[0] != RemovedAck[0];
      case Up => assert Emoji(r1)[0] != RemovedAck[0];
      case Down => assert Emoji(r1)[0] != RemovedAck[0];
    }
  }

  /**
   * `handle_callback_query`. Without a message it only answers with an alert;
   * otherwise it toggles the pressed reaction on that message for the
   * presser and, when the toggle succeeded, acknowledges the press.
   * `editError` and `answerError` are the outcomes of the two requests.
   */
  method HandleCallbackQuery(query: CallbackQuery, editError: Option<RequestError>, answerError: Option<RequestError>)
    returns (effects: seq<Effect>, result: Outcome<()>)
    ensures query.message.None? ==>
      effects == [AnswerCallback(query.id, BrokenMessageAlert, true)] && result == SendOutcome(answerError)
    ensures query.message.Some? && CallbackReaction(query.data).Err? ==>
      effects == [] && result == Panicked(CallbackReaction(query.data).error)
    ensures query.message.Some? && CallbackReaction(query.data).Ok? ==>
      exists edit, toggled ::
        Toggled(CallbackReaction(query.data).value, query.message.value, query.from.id, editError, edit, toggled) &&
        if toggled.Done? then
          effects == EffectsOf(edit) + [AnswerCallback(query.id, AckText(CallbackReaction(query.data).value, toggled.value), false)] &&
          result == SendOutcome(answerError)
        else
          effects == EffectsOf(edit) && result == Forget(toggled)
  {
    if query.message.None? {
      return [AnswerCallback(query.id, BrokenMessageAlert, true)], SendOutcome(answerError);
    }
    var msg := query.message.value;
    var parsed := CallbackReaction(query.data);
    if parsed.Err? {
      return [], Panicked(parsed.error);
    }
    var reaction := parsed.value;
    var edit, toggled := ToggleReaction(reaction, msg, query.from.id, editError);
    effects := EffectsOf(edit);
    if !toggled.Done? {
      result := Forget(toggled);
    } else {
      effects := effects + [AnswerCallback(query.id, AckText(reaction, toggled.value), false)];
      result := SendOutcome(answerError);
    }
    assert Toggled(reaction, msg, query.from.id, editError, edit, toggled);
  }
}
