/**
 * The command handler: `/help`, `/r` and its shortcuts `/up`, `/down` and
 * `/heart`, and `/s`. Its decision rules are functions; the handler, which
 * drives the requests in order, is a method whose platform requests are
 * recorded as effects and whose request outcomes are parameters.
 */
module Commands {
  import opened Wrappers
  import opened Text
  import opened Decimal
  import Reactions
  import opened Platform
  import opened Codec
  import opened Util

  datatype Command = Help | React | Up | Down | Heart | Show

  /** The message carrying the command: its sender and the message it replies to. */
  datatype CommandMessage = CommandMessage(from: Option<User>, replyTo: Option<Message>)

  /**
   * The outcomes of the requests a command handler awaits: a plain reply or
   * answer, deleting the command message, sending the reaction message (the
   * message the platform returns), editing it, and looking up a chat member
   * (the member's full name, None when the request fails).
   */
  datatype Api = Api(
    sendError: Option<RequestError>,
    deleteError: Option<RequestError>,
    sent: Result<Message, RequestError>,
    editError: Option<RequestError>,
    memberName: (int, I32) -> Option<string>)

  const ReactGuidance: string := "You need to reply to a message with /r so I know which message you're reacting to."
  const ShowGuidance: string := "You need to reply to a message with /s so I know which message you're asking about."
  const NotReactionMessage: string := "You can only use /s to reply to a reaction message."
  /** MarkdownV2 source of the italic notice "No one reacted to this message." */
  const NoReactions: string := "_No one reacted to this message\\._"
  const UnknownName: string := "(unknown)"
  const BotUsername: string := "reaxnbot"

  /** The commands that post a reaction message. */
  predicate PostsReactionMessage(c: Command)
  {
    c == React || c == Up || c == Down || c == Heart
  }

  /** The reply sent when a command that needs a reply target has none. */
  function Guidance(c: Command): string
  {
    if c == Show then ShowGuidance else ReactGuidance
  }

  /**
   * The error a delete request ends the handler with: none when the delete
   * succeeded or was refused with status 401 (the bot may not delete
   * messages there), and otherwise the request's own error.
   */
  function DeleteFailure(deleteError: Option<RequestError>): (r: Option<RequestError>)
    ensures r.None? <==> deleteError.None? || deleteError.value == ApiError(401)
    ensures r.Some? ==> r == deleteError
  {
    match deleteError
    case None => None
    case Some(ApiError(code)) => if code == 401 then None else deleteError
    case Some(OtherRequestError) => deleteError
  }

  /** The reaction a shortcut command seeds; `/r` seeds none. */
  function ShortcutReaction(c: Command): (r: Option<Reactions.Reaction>)
    ensures r.Some? <==> PostsReactionMessage(c) && c != React
  {
    match c
    case Up => Some(Reactions.Up)
    case Down => Some(Reactions.Down)
    case Heart => Some(Reactions.Heart)
    case _ => None
  }

  /** The shortcuts seed the reaction they are named after, each a different one. */
  lemma ShortcutsSeedTheirReaction()
    ensures ShortcutReaction(Up) == Some(Reactions.Up)
    ensures ShortcutReaction(Down) == Some(Reactions.Down)
    ensures ShortcutReaction(Heart) == Some(Reactions.Heart)
    ensures forall c1, c2 :: ShortcutReaction(c1).Some? && ShortcutReaction(c1) == ShortcutReaction(c2) ==> c1 == c2
  {
  }

  /**
   * The `/s` test on the replied message: sent by the bot account `reaxnbot`
   * with a text holding the marker. A bot sender without a username panics.
   */
  function IsReactionMessage(m: Message): (r: Result<bool, Panic>)
    ensures r.Err? <==> m.from.Some? && m.from.value.isBot && m.from.value.username.None?
    ensures r.Err? ==> r.error == MissingUsername
    ensures r == Ok(true) <==>
      m.from.Some? && m.from.value.isBot && m.from.value.username == Some(BotUsername) &&
      m.text.Some? && Marker in m.text.value
  {
    match m.from
    case None => Ok(false)
    case Some(user) =>
      if !user.isBot then Ok(false)
      else if user.username.None? then Err(MissingUsername)
      else if user.username.value != BotUsername then Ok(false)
      else Ok(m.text.Some? && Marker in m.text.value)
  }

  /** A looked-up member's full name, or the placeholder when the lookup failed. */
  function NameOf(lookup: Option<string>): string
  {
    if lookup.Some? then lookup.value else UnknownName
  }

  /** The names of the voters `ids` of chat `chatId`, in that order. */
  function NamesOf(chatId: int, ids: seq<I32>, memberName: (int, I32) -> Option<string>): (names: seq<string>)
    ensures |names| == |ids|
  {
    seq(|ids|, k requires 0 <= k < |ids| => NameOf(memberName(chatId, ids[k])))
  }

  /** `format!("{} — {}", emoji, names.join(", "))`. */
  function SummaryLine(r: Reactions.Reaction, names: seq<string>): string
  {
    Reactions.Emoji(r) + " \U{2014} " + JoinWith(names, ", ")
  }

  function SummaryLines(reactions: seq<(Reactions.Reaction, seq<string>)>): (lines: seq<string>)
    ensures |lines| == |reactions|
  {
    seq(|reactions|, i requires 0 <= i < |reactions| => SummaryLine(reactions[i].0, reactions[i].1))
  }

  /** The `/s` answer: the notice when nobody reacted, and otherwise the lines joined by newlines. */
  function SummaryText(reactions: seq<(Reactions.Reaction, seq<string>)>): string
  {
    if |reactions| == 0 then NoReactions else JoinWith(SummaryLines(reactions), "\n")
  }

  /** The per-reaction entries of `/s` for reactions `order`, voters `voterLists`. */
  function Summaries(chatId: int, order: seq<Reactions.Reaction>, voterLists: seq<seq<I32>>, memberName: (int, I32) -> Option<string>)
    : (reactions: seq<(Reactions.Reaction, seq<string>)>)
    requires |voterLists| == |order|
    ensures |reactions| == |order|
  {
    seq(|order|, i requires 0 <= i < |order| => (order[i], NamesOf(chatId, voterLists[i], memberName)))
  }

  predicate NoNewline(s: string) { '\n' !in s }

  lemma EmojiHasNoNewline(r: Reactions.Reaction)
    ensures NoNewline(Reactions.Emoji(r))
  {
  }

  lemma SummaryLineHasNoNewline(r: Reactions.Reaction, names: seq<string>)
    requires forall k :: 0 <= k < |names| ==> NoNewline(names[k])
    ensures NoNewline(SummaryLine(r, names))
  {
    JoinAvoids(names, ", ", '\n');
    EmojiHasNoNewline(r);
    assert SummaryLine(r, names) == Reactions.Emoji(r) + " \U{2014} " + JoinWith(names, ", ");
  }

  /**
   * The summary is the notice exactly when nobody reacted; otherwise it is
   * one line per reaction, each line that reaction's emoji, a dash, and its
   * voters' names joined by ", ".
   */
  lemma SummaryOneLinePerReaction(reactions: seq<(Reactions.Reaction, seq<string>)>)
    requires forall i, k :: 0 <= i < |reactions| && 0 <= k < |reactions[i].1| ==> NoNewline(reactions[i].1[k])
    ensures SummaryText(reactions) == NoReactions <==> reactions == []
    ensures reactions != [] ==>
      SplitOn(SummaryText(reactions), '\n') == SummaryLines(reactions) &&
      forall i :: 0 <= i < |reactions| ==> SplitOn(SummaryText(reactions), '\n')[i] == SummaryLine(reactions[i].0, reactions[i].1)
  {
    if reactions != [] {
      var lines := SummaryLines(reactions);
      forall i | 0 <= i < |lines|
        ensures '\n' !in lines[i]
      {
        SummaryLineHasNoNewline(reactions[i].0, reactions[i].1);
      }
      SplitJoin(lines, '\n');
      JoinStartsWithFirst(lines, "\n");
      var e := Reactions.Emoji(reactions[0].0);
      assert lines[0][0] == e[0];
      assert SummaryText(reactions)[0] == e[0];
    }
  }

  /**
   * For a decoded state listed in some order: one entry per reaction of the
   * state, each with one name per voter (failed lookups included), so the
   * notice is sent exactly when the state is empty.
   */
  lemma SummaryCoversState(s: State, chatId: int, order: seq<Reactions.Reaction>, voterLists: seq<seq<I32>>,
                           memberName: (int, I32) -> Option<string>)
    requires Enumerates(order, s.Keys) && |voterLists| == |order|
    requires forall i :: 0 <= i < |order| ==> Enumerates(voterLists[i], s[order[i]])
    ensures |Summaries(chatId, order, voterLists, memberName)| == |s.Keys|
    ensures forall i :: 0 <= i < |order| ==>
      |Summaries(chatId, order, voterLists, memberName)[i].1| == |s[order[i]]|
    ensures SummaryText(Summaries(chatId, order, voterLists, memberName)) == NoReactions <==> s == map[]
  {
    var reactions := Summaries(chatId, order, voterLists, memberName);
    EnumeratesCard(order, s.Keys);
    forall i | 0 <= i < |order|
      ensures |reactions[i].1| == |s[order[i]]|
    {
      EnumeratesCard(voterLists[i], s[order[i]]);
    }
    if reactions != [] {
      var lines := SummaryLines(reactions);
      JoinStartsWithFirst(lines, "\n");
      var e := Reactions.Emoji(reactions[0].0);
      assert lines[0][0] == e[0];
      assert SummaryText(reactions)[0] == e[0];
      assert order[0] in s;
    } else {
      assert s.Keys == {};
    }
  }

  // ---------------------------------------------------------------------------
  // The handler
  // ---------------------------------------------------------------------------

  /** One iteration of a voter set, each voter's name looked up (`(unknown)` when that fails). */
  method CollectNames(chatId: int, users: set<I32>, memberName: (int, I32) -> Option<string>)
    returns (names: seq<string>, ghost voters: seq<I32>)
    ensures Enumerates(voters, users)
    ensures names == NamesOf(chatId, voters, memberName)
    ensures |names| == |users|
  {
    names, voters := [], [];
    var pending := users;
    while pending != {}
      invariant pending <= users
      invariant NoDups(voters)
      invariant forall x :: x in voters <==> x in users && x !in pending
      invariant names == NamesOf(chatId, voters, memberName)
      decreases pending
    {
      var userId :| userId in pending;
      var userName := NameOf(memberName(chatId, userId));
      names := names + [userName];
      voters := voters + [userId];
      pending := pending - {userId};
    }
    EnumeratesCard(voters, users);
  }

  /** The `/s` loop: for each (reaction, voters) of the map, in the map's order, the voters' names. */
  method CollectReactions(chatId: int, s: State, memberName: (int, I32) -> Option<string>)
    returns (reactions: seq<(Reactions.Reaction, seq<string>)>, ghost order: seq<Reactions.Reaction>, ghost voterLists: seq<seq<I32>>)
    ensures Enumerates(order, s.Keys) && |voterLists| == |order|
    ensures forall i :: 0 <= i < |order| ==> Enumerates(voterLists[i], s[order[i]])
    ensures reactions == Summaries(chatId, order, voterLists, memberName)
    ensures |reactions| == |s.Keys| && forall i :: 0 <= i < |reactions| ==> reactions[i].0 in s
  {
    reactions, order, voterLists := [], [], [];
    var pending := s.Keys;
    while pending != {}
      invariant pending <= s.Keys
      invariant |voterLists| == |order| && NoDups(order)
      invariant forall r :: r in order <==> r in s && r !in pending
      invariant forall i :: 0 <= i < |order| ==> Enumerates(voterLists[i], s[order[i]])
      invariant reactions == Summaries(chatId, order, voterLists, memberName)
      decreases pending
    {
      var reaction :| reaction in pending;
      var userNames, voters := CollectNames(chatId, s[reaction], memberName);
      reactions := reactions + [(reaction, userNames)];
      order, voterLists := order + [reaction], voterLists + [voters];
      pending := pending - {reaction};
    }
    EnumeratesCard(order, s.Keys);
  }

  /**
   * `/r` and its shortcuts, given the message replied to: delete the command
   * message (a 401 refusal is ignored), post the reaction message under the
   * target with the reaction keyboard, and for a shortcut toggle its
   * reaction on the new message for the sender.
   */
  method HandleReact(command: Command, from: Option<User>, target: Message, api: Api)
    returns (effects: seq<Effect>, result: Outcome<()>)
    requires PostsReactionMessage(command)
    ensures |effects| >= 1 && effects[0] == DeleteCommandMessage
    ensures DeleteFailure(api.deleteError).Some? ==>
      effects == [DeleteCommandMessage] && result == Failed(Request(DeleteFailure(api.deleteError).value))
    ensures DeleteFailure(api.deleteError).None? ==>
      |effects| >= 2 && effects[1] == SendMessage([Marker], ToMessage(target.id), false, Some(ReactionKeyboard()))
    ensures DeleteFailure(api.deleteError).None? && api.sent.Err? ==>
      |effects| == 2 && result == Failed(Request(api.sent.error))
    ensures DeleteFailure(api.deleteError).None? && api.sent.Ok? && command == React ==>
      |effects| == 2 && result == Done(())
    ensures DeleteFailure(api.deleteError).None? && api.sent.Ok? && command != React && from.None? ==>
      |effects| == 2 && result == Failed(NoSender)
    ensures DeleteFailure(api.deleteError).None? && api.sent.Ok? && command != React && from.Some? ==>
      exists edit, toggled ::
        Toggled(ShortcutReaction(command).value, api.sent.value, from.value.id, api.editError, edit, toggled) &&
        effects == effects[..2] + EffectsOf(edit) && result == Forget(toggled)
  {
    effects := [DeleteCommandMessage];
    var deleteFailure := DeleteFailure(api.deleteError);
    if deleteFailure.Some? {
      return effects, Failed(Request(deleteFailure.value));
    }
    var keyboard := CreateReactionKeyboard();
    effects := effects + [SendMessage([Marker], ToMessage(target.id), false, Some(keyboard))];
    if api.sent.Err? {
      return effects, Failed(Request(api.sent.error));
    }
    var response := api.sent.value;
    if command == React {
      return effects, Done(());
    }
    if from.None? {
      return effects, Failed(NoSender);
    }
    var reaction := ShortcutReaction(command).value;
    var edit, toggled := ToggleReaction(reaction, response, from.value.id, api.editError);
    effects := effects + EffectsOf(edit);
    result := Forget(toggled);
    assert Toggled(reaction, response, from.value.id, api.editError, edit, toggled);
  }

  /**
   * `/s`, given the message replied to: refuse unless it is a reaction
   * message, otherwise answer under it with one line per decoded reaction
   * (MarkdownV2 only for the notice that nobody reacted).
   */
  method HandleShow(target: Message, api: Api)
    returns (effects: seq<Effect>, result: Outcome<()>, ghost order: seq<Reactions.Reaction>, ghost voterLists: seq<seq<I32>>)
    ensures match IsReactionMessage(target)
      case Err(p) => effects == [] && result == Panicked(p)
      case Ok(false) => effects == [SendMessage(NotReactionMessage, ToCommand, false, None)] && result == SendOutcome(api.sendError)
      case Ok(true) =>
        match Decode(target.entities)
        case Err(e) => effects == [] && result == Panicked(CorruptState(e))
        case Ok(None) => effects == [] && result == Panicked(NoEntities)
        case Ok(Some(s)) =>
          Enumerates(order, s.Keys) && |voterLists| == |order| &&
          (forall i :: 0 <= i < |order| ==> Enumerates(voterLists[i], s[order[i]])) &&
          effects == [SendMessage(SummaryText(Summaries(target.chatId, order, voterLists, api.memberName)),
                                  ToMessage(target.id), s == map[], None)] &&
          result == SendOutcome(api.sendError)
    ensures |effects| <= 1 && forall e :: e in effects ==> e.SendMessage? && e.keyboard.None?
    ensures result.Done? ==> api.sendError.None? && |effects| == 1
  {
    order, voterLists := [], [];
    var isReactionMessage := IsReactionMessage(target);
    if isReactionMessage.Err? {
      return [], Panicked(isReactionMessage.error), order, voterLists;
    }
    if !isReactionMessage.value {
      return [SendMessage(NotReactionMessage, ToCommand, false, None)], SendOutcome(api.sendError), order, voterLists;
    }
    var decoded := GetReactionsUsers(target.entities);
    if decoded.Err? {
      return [], Panicked(CorruptState(decoded.error)), order, voterLists;
    }
    if decoded.value.None? {
      return [], Panicked(NoEntities), order, voterLists;
    }
    var reactionsUsers := decoded.value.value;
    var reactions;
    reactions, order, voterLists := CollectReactions(target.chatId, reactionsUsers, api.memberName);
    SummaryCoversState(reactionsUsers, target.chatId, order, voterLists, api.memberName);
    var text := SummaryText(reactions);
    effects := [SendMessage(text, ToMessage(target.id), |reactions| == 0, None)];
    result := SendOutcome(api.sendError);
  }

  /**
   * `handle_command`. `/help` answers with the command descriptions; every
   * other command without a reply target only sends its guidance reply.
   */
  method HandleCommand(command: Command, message: CommandMessage, descriptions: string, api: Api)
    returns (effects: seq<Effect>, result: Outcome<()>)
    ensures command == Help ==>
      effects == [SendMessage(descriptions, NoReply, false, None)] && result == SendOutcome(api.sendError)
    ensures command != Help && message.replyTo.None? ==>
      effects == [SendMessage(Guidance(command), ToCommand, false, None)] && result == SendOutcome(api.sendError)
    ensures PostsReactionMessage(command) && message.replyTo.Some? ==>
      |effects| >= 1 && effects[0] == DeleteCommandMessage
    ensures command == Show ==> forall i :: 0 <= i < |effects| ==> effects[i].SendMessage? && effects[i].keyboard.None?
  {
    if command == Help {
      return [SendMessage(descriptions, NoReply, false, None)], SendOutcome(api.sendError);
    }
    if message.replyTo.None? {
      return [SendMessage(Guidance(command), ToCommand, false, None)], SendOutcome(api.sendError);
    }
    var target := message.replyTo.value;
    if command == Show {
      ghost var order, voterLists;
      effects, result, order, voterLists := HandleShow(target, api);
    } else {
      effects, result := HandleReact(command, message.from, target, api);
    }
  }
}
