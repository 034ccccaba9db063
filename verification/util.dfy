/**
 * The handler utilities: the reaction keyboard, the decoding loop over a
 * message's entities, and the toggle that rewrites a reaction message.
 * Each method is proved against the specification functions of module
 * Codec, whose laws are proved there.
 */
module Util {
  import opened Wrappers
  import opened Text
  import opened Decimal
  import opened Reactions
  import opened Platform
  import opened Codec

  /** The panics (`unwrap`, `unimplemented!`) a handler can reach, by cause. */
  datatype Panic =
    | NoEntities                         // `get_reactions_users(..).unwrap()` on a message without entities
    | CorruptState(error: DecodeError)   // an `unwrap` inside decoding
    | MissingUsername                    // a bot sender without a username
    | MissingCallbackData                // `query.data.unwrap()`
    | UnknownCallbackData(data: string)  // `from_str` on an unknown identifier

  /** An error a handler returns through `?`: a failed request, or a command without a sender. */
  datatype Failure = Request(error: RequestError) | NoSender

  /** How a handler ends: with a value, with a returned error, or by panicking. */
  datatype Outcome<T> = Done(value: T) | Failed(failure: Failure) | Panicked(panic: Panic)

  /** The outcome of a request awaited with `?` whose response is not used. */
  function SendOutcome(error: Option<RequestError>): Outcome<()>
  {
    if error.Some? then Failed(Request(error.value)) else Done(())
  }

  /** The same outcome with its success value dropped. */
  function Forget<T>(o: Outcome<T>): Outcome<()>
  {
    match o
    case Done(_) => Done(())
    case Failed(f) => Failed(f)
    case Panicked(p) => Panicked(p)
  }

  function EffectsOf(e: Option<Effect>): seq<Effect>
  {
    if e.Some? then [e.value] else []
  }

  // ---------------------------------------------------------------------------
  // Keyboard
  // ---------------------------------------------------------------------------

  /** A reaction's button: its bare emoji as label, its wire identifier as callback data. */
  function ButtonFor(r: Reaction): Button
  {
    Button(Emoji(r), ToWire(r))
  }

  /** The markup after appending the button of each reaction of `rs`, in order, to row 0. */
  function KeyboardOf(rs: seq<Reaction>): Keyboard
    decreases |rs|
  {
    if rs == [] then [] else AppendToRow(KeyboardOf(rs[..|rs| - 1]), ButtonFor(rs[|rs| - 1]), 0)
  }

  function ReactionKeyboard(): Keyboard
  {
    KeyboardOf(ReactionOrder)
  }

  /** Appending to row 0 puts every button in one row, in the order appended. */
  lemma {:induction false} KeyboardOfOneRow(rs: seq<Reaction>)
    requires rs != []
    ensures |KeyboardOf(rs)| == 1 && |KeyboardOf(rs)[0]| == |rs|
    ensures forall i :: 0 <= i < |rs| ==> KeyboardOf(rs)[0][i] == ButtonFor(rs[i])
    decreases |rs|
  {
    var init := rs[..|rs| - 1];
    if init != [] {
      KeyboardOfOneRow(init);
      forall i | 0 <= i < |rs|
        ensures KeyboardOf(rs)[0][i] == ButtonFor(rs[i])
      {
        if i < |rs| - 1 {
          assert KeyboardOf(init)[0][i] == ButtonFor(init[i]);
        }
      }
    }
  }

  /**
   * The reaction keyboard: one row with one button per catalog entry, in
   * catalog order; each button's data is read back by `from_str` as its
   * reaction, and every reaction has exactly one button.
   */
  lemma ReactionKeyboardShape()
    ensures |ReactionKeyboard()| == 1 && |ReactionKeyboard()[0]| == |ReactionOrder| == 6
    ensures forall i :: 0 <= i < 6 ==>
      ReactionKeyboard()[0][i].text == Emoji(ReactionOrder[i]) &&
      FromWire(ReactionKeyboard()[0][i].callbackData) == Some(ReactionOrder[i])
    ensures forall r: Reaction :: exists i :: 0 <= i < 6 && ReactionKeyboard()[0][i] == ButtonFor(r)
    ensures forall i, j :: 0 <= i < j < 6 ==> ReactionKeyboard()[0][i] != ReactionKeyboard()[0][j]
  {
    KeyboardOfOneRow(ReactionOrder);
    forall i | 0 <= i < 6
      ensures FromWire(ReactionKeyboard()[0][i].callbackData) == Some(ReactionOrder[i])
    {
      WireRoundTrip(ReactionOrder[i]);
    }
    ReactionOrderIsPermutation();
    forall r: Reaction
      ensures exists i :: 0 <= i < 6 && ReactionKeyboard()[0][i] == ButtonFor(r)
    {
      assert r in ReactionOrder;
      var i :| 0 <= i < 6 && ReactionOrder[i] == r;
      assert ReactionKeyboard()[0][i] == ButtonFor(r);
    }
  }

  /** `create_reaction_keyboard`. */
  method CreateReactionKeyboard() returns (markup: Keyboard)
    ensures markup == ReactionKeyboard()
    ensures |markup| == 1 && |markup[0]| == |ReactionOrder|
    ensures forall i :: 0 <= i < |ReactionOrder| ==> markup[0][i] == ButtonFor(ReactionOrder[i])
  {
    markup := [];
    for i := 0 to |ReactionOrder|
      invariant markup == KeyboardOf(ReactionOrder[..i])
    {
      assert ReactionOrder[..i + 1][..i] == ReactionOrder[..i];
      markup := AppendToRow(markup, ButtonFor(ReactionOrder[i]), 0);
    }
    assert ReactionOrder[..|ReactionOrder|] == ReactionOrder;
    KeyboardOfOneRow(ReactionOrder);
  }

  // ---------------------------------------------------------------------------
  // Decoding
  // ---------------------------------------------------------------------------

  /**
   * `get_reactions_users`: walks the entities, skipping everything but the
   * bot's links, and extends the vote set of each query pair's reaction.
   */
  method GetReactionsUsers(entities: Option<seq<Entity>>) returns (r: Result<Option<State>, DecodeError>)
    ensures r == Decode(entities)
  {
    if entities.None? {
      return Ok(None);
    }
    var es := entities.value;
    var m: State := map[];
    for i := 0 to |es|
      invariant DecodeFrom(m, es[i..]) == DecodeFrom(map[], es)
    {
      assert es[i..][1..] == es[i + 1..];
      match es[i]
      case OtherEntity =>
      case TextLink(link) =>
        if link.Unparseable? {
          return Err(MalformedUrl);
        }
        if !IsReactionLink(link) {
          continue;
        }
        var pairs := QueryPairs(link.query);
        ghost var before := m;
        for j := 0 to |pairs|
          invariant AddPairs(m, pairs[j..]) == AddPairs(before, pairs)
        {
          assert pairs[j..][1..] == pairs[j + 1..];
          var key := pairs[j].0;
          var value := pairs[j].1;
          var reaction := FromWire(key);
          if reaction.None? {
            return Err(UnknownReactionId(key));
          }
          var ids := ParseIds(value);
          if ids.None? {
            return Err(BadUserIds(value));
          }
          m := m[reaction.value := Votes(m, reaction.value) + ids.value];
        }
    }
    return Ok(Some(m));
  }

  // ---------------------------------------------------------------------------
  // Encoding and toggling
  // ---------------------------------------------------------------------------

  /** One iteration of a HashSet: its members, each once, in an order the set chooses. */
  method IterateSet(users: set<I32>) returns (ids: seq<I32>)
    ensures Enumerates(ids, users)
  {
    ids := [];
    var pending := users;
    while pending != {}
      invariant pending <= users
      invariant NoDups(ids)
      invariant forall x :: x in ids <==> x in users && x !in pending
      decreases pending
    {
      var u :| u in pending;
      ids := ids + [u];
      pending := pending - {u};
    }
  }

  lemma QueryParamsSnoc(order: seq<Reaction>, idLists: seq<seq<I32>>, r: Reaction, ids: seq<I32>)
    requires |idLists| == |order|
    ensures QueryParams(order + [r], idLists + [ids]) == QueryParams(order, idLists) + [QueryParam(r, ids)]
  {
  }

  lemma TallyEntriesSnoc(s: State, order: seq<Reaction>, r: Reaction)
    ensures TallyEntries(s, order + [r]) == TallyEntries(s, order) + [TallyEntry(r, |Votes(s, r)|)]
  {
  }

  /**
   * The encoding loop of `toggle_reaction`: for each (reaction, users) of the
   * map, in the map's order, a query parameter and a tally entry when the set
   * is not empty. `order` and `idLists` name the iteration orders taken.
   */
  method EncodeReactions(s: State)
    returns (queryParams: seq<string>, displayParams: seq<string>, ghost order: seq<Reaction>, ghost idLists: seq<seq<I32>>)
    ensures WellEnumerated(s, order, idLists)
    ensures queryParams == QueryParams(order, idLists)
    ensures displayParams == TallyEntries(s, order)
    ensures |queryParams| == |displayParams| == |NonEmpty(s).Keys|
  {
    queryParams, displayParams := [], [];
    order, idLists := [], [];
    var pending := s.Keys;
    while pending != {}
      invariant pending <= s.Keys
      invariant |idLists| == |order| && NoDups(order)
      invariant forall r :: r in order <==> r in NonEmpty(s) && r !in pending
      invariant forall i :: 0 <= i < |order| ==> Enumerates(idLists[i], Votes(s, order[i]))
      invariant queryParams == QueryParams(order, idLists)
      invariant displayParams == TallyEntries(s, order)
      decreases pending
    {
      var reaction :| reaction in pending;
      pending := pending - {reaction};
      var users := s[reaction];
      if |users| > 0 {
        var ids := IterateSet(users);
        QueryParamsSnoc(order, idLists, reaction, ids);
        TallyEntriesSnoc(s, order, reaction);
        queryParams := queryParams + [QueryParam(reaction, ids)];
        displayParams := displayParams + [TallyEntry(reaction, |users|)];
        order, idLists := order + [reaction], idLists + [ids];
      }
    }
    EnumeratesCard(order, NonEmpty(s).Keys);
  }

  /**
   * What `toggle_reaction` does to `message` for `userId`: it panics when the
   * message cannot be decoded; otherwise it edits the message in place to an
   * encoding of the toggled state, with the reaction keyboard, and reports
   * whether the vote was added unless the edit request failed.
   */
  ghost predicate Toggled(reaction: Reaction, message: Message, userId: I32, editError: Option<RequestError>,
                          edit: Option<Effect>, result: Outcome<bool>)
  {
    match Decode(message.entities)
    case Err(e) => edit.None? && result == Panicked(CorruptState(e))
    case Ok(None) => edit.None? && result == Panicked(NoEntities)
    case Ok(Some(s)) =>
      edit.Some? && edit.value.EditMessageText? &&
      edit.value.chatId == message.chatId && edit.value.messageId == message.id &&
      IsEncodingOf(edit.value.newText, Toggle(s, reaction, userId).0) &&
      edit.value.markup == ReactionKeyboard() &&
      result == (if editError.Some? then Failed(Request(editError.value)) else Done(Toggle(s, reaction, userId).1))
  }

  /**
   * `toggle_reaction`: decodes the message (panicking when it cannot), flips
   * the user's vote, and edits the message to the re-encoded state with the
   * reaction keyboard. `editError` is the outcome of the edit request; the
   * edit is the returned effect.
   */
  method ToggleReaction(reaction: Reaction, message: Message, userId: I32, editError: Option<RequestError>)
    returns (edit: Option<Effect>, result: Outcome<bool>)
    ensures Toggled(reaction, message, userId, editError, edit, result)
  {
    var decoded := GetReactionsUsers(message.entities);
    if decoded.Err? {
      return None, Panicked(CorruptState(decoded.error));
    }
    if decoded.value.None? {
      return None, Panicked(NoEntities);
    }
    var reactionsUsers := decoded.value.value;
    var reactionUsers := Votes(reactionsUsers, reaction);
    var reactionAdded := true;
    if userId in reactionUsers {
      reactionUsers := reactionUsers - {userId};
      reactionAdded := false;
    } else {
      reactionUsers := reactionUsers + {userId};
    }
    reactionsUsers := reactionsUsers[reaction := reactionUsers];
    assert (reactionsUsers, reactionAdded) == Toggle(decoded.value.value, reaction, userId);

    var queryParams, displayParams, order, idLists := EncodeReactions(reactionsUsers);
    var newText := ReactionText(JoinWith(queryParams, "&"), JoinWith(displayParams, "  "));
    assert newText == RenderedText(reactionsUsers, order, idLists);
    var keyboard := CreateReactionKeyboard();
    edit := Some(EditMessageText(message.chatId, message.id, newText, keyboard));
    if editError.Some? {
      return edit, Failed(Request(editError.value));
    }
    return edit, Done(reactionAdded);
  }
}
