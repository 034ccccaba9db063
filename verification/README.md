# Reactions bot: a verified model of the vote store

The reactions bot adds emoji reactions to chat messages. It keeps no
database. Each reaction message carries its own vote state inside an
invisible text link:

    [U+034F](https://reaxnbot.dev/reactions?love=12,34&up=56) ❤️ *2*  👍 *1*

Every button press decodes that link into a map from reaction to the set of
user ids. It then flips the presser's vote and rewrites the message.

This project models, in Dafny, the following parts of the bot:

- the reaction catalog (`src/reaction.rs`);
- decoding, toggling, re-encoding and the reaction keyboard (`src/handler/util.rs`);
- the command handler for `/help`, `/r`, `/up`, `/down`, `/heart` and `/s` (`src/handler/command.rs`);
- the button-press handler (`src/handler/callback_query.rs`).

The modules are:

- `Reactions`: the catalog as a datatype. It has the fixed keyboard order, the wire identifiers and the emoji.
- `Text` and `Decimal`: string splitting and joining, and `i32` decimal text.
  - `Decimal` writes ids the way `lexical::to_string` does. It reads an id as an optional `-` or `+` sign followed by at least one ASCII digit, range-checked to `i32`.
- `Platform`: messages, entities, users, request errors, keyboards, and the requests a handler makes. Requests are recorded as `Effect` values.
- `Codec`: the specification functions and their laws.
  - `Decode` is a left fold over the entities.
  - `Toggle` is the vote flip.
  - `IsEncodingOf` says what text the bot writes for a state.
- `Util`: the imperative code of `util.rs` as methods with loops. Each one is proved against `Codec`.
- `Commands` and `Callbacks`: the handlers. Their decision rules are functions. The request sequence they drive is a method.

Panics are modelled as an explicit outcome, not as preconditions:

- `Util.Outcome` is `Done`, `Failed` or `Panicked`. `Failed` is an error returned through `?`. `Panicked` is an `unwrap` or `unimplemented!` that fires, with its cause.
- A decode that hits a bad link, an unknown key or a bad id token returns `Err(DecodeError)`. The handlers turn it into `Panicked(CorruptState(..))`.
- `Reactions.FromWire` returns `None` where `from_str` reaches `unimplemented!()`.

The doc comment of `get_reactions_users` (src/handler/util.rs:24-26) says it returns None when a message encodes no reactions. The code returns None only for a message without an entity list, and Some of the empty map otherwise. The model follows the code; `Codec.DecodeWithoutReactionLink` states it.

Hash-map and hash-set iteration order is not fixed. The methods that iterate choose each next element with `:|`, so any order is allowed. Ghost out-parameters name the order taken. Nothing is claimed about `REACTIONS` order for the written query, the tally or the `/s` lines.

## Model

| member | source | states |
|---|---|---|
| `Reactions.ToWire` | src/reaction.rs:38-49 | every identifier is one of the six, is lower-case letters only, and so never holds `=`, `&` or `,` |
| `Reactions.FromWire` | src/reaction.rs:22-36 | defined exactly on the six identifiers; every other string is the `unimplemented!()` panic (None); a result is the reaction whose identifier was read |
| `Reactions.WireRoundTrip` | src/reaction.rs:22-49 | `from_str(to_string(r)) == r` for every reaction |
| `Reactions.ToWireInjective` | src/reaction.rs:40-47 | distinct reactions have distinct identifiers; Heart is written `love` |
| `Reactions.Emoji` | src/reaction.rs:51-62 | total; every emoji is non-empty and starts above U+2000 |
| `Reactions.EmojiInjective` | src/reaction.rs:52-61 | distinct reactions have distinct emoji |
| `Reactions.ReactionOrderIsPermutation` | src/reaction.rs:13-20 | `REACTIONS` has six entries and holds every reaction exactly once |
| `Decimal.DecimalRoundTrip` | src/handler/util.rs:95 | an `i32` written in decimal parses back to itself |
| `Decimal.ParseRejectsNonDigit` | src/handler/util.rs:49 | a token with a non-digit after its optional sign does not parse, including a first character that is neither a sign nor a digit (`x1`) |
| `Codec.Decode` | src/handler/util.rs:27-61 | None exactly when the message has no entity list |
| `Codec.DecodeWithoutReactionLink` | src/handler/util.rs:28-38 | entities with no reaction link decode to Some of the empty map, not None (the doc comment at util.rs:24-26 says None; the code returns Some, and the model follows the code) |
| `Codec.DecodeSkipsIgnored` | src/handler/util.rs:32-38 | a non-link entity, or a link to another host or path, changes nothing wherever it stands |
| `Codec.DecodeMergesByUnion` | src/handler/util.rs:31-57 | two runs of entities decode to the per-reaction union of their votes |
| `Codec.QueryMergesByUnion` | src/handler/util.rs:40-52 | repeated keys within one query merge by union |
| `Codec.DecodeFailsEarly` | src/handler/util.rs:31-34 | a panic in an earlier entity is the outcome whatever follows |
| `Codec.DecodeFailsIff` | src/handler/util.rs:34-51 | decoding panics exactly when some entity is an unparseable link, or a reaction link with an unknown key or a bad id token |
| `Codec.ParseIdsFailsIff` | src/handler/util.rs:46-51 | a value fails exactly when one of its comma-separated tokens is not an `i32` |
| `Codec.ParseIds` | src/handler/util.rs:47-51 | a value that parses yields a non-empty id set |
| `Codec.DecodeKeepsEveryVoter` | src/handler/util.rs:40-52 | every id of every pair of every reaction link is in the decoded set of that pair's reaction |
| `Codec.DecodedSetsNonEmpty` | src/handler/util.rs:43-52 | a decoded map never holds an empty set |
| `Codec.ToggleFlipsVote` | src/handler/util.rs:77-83 | reports added exactly when the user had not voted; afterwards the user is in the set exactly when added; no other user's vote for it changes |
| `Codec.ToggleOthersUnchanged` | src/handler/util.rs:73-83 | every other reaction's set (and presence) is unchanged |
| `Codec.ToggleTwice` | src/handler/util.rs:73-83 | toggling twice restores every set and reports the opposite direction |
| `Codec.PressTwiceRestores` | src/handler/util.rs:71-83 | a second press that reads back the written state reports the opposite direction and restores the votes |
| `Codec.EnumeratesCard` | src/handler/util.rs:88 | an iteration of a map or set visits one entry per member |
| `Codec.EncodingIgnoresEmptySets` | src/handler/util.rs:88-89 | a text encodes a map exactly when it encodes the map without its empty sets |
| `Codec.ReactionTextPrefix` | src/handler/util.rs:104-108 | every written text starts with `[U+034F](https://reaxnbot.dev/reactions?` |
| `Codec.EncodingShape` | src/handler/util.rs:88-102 | one query parameter and one `emoji *count*` entry per non-empty set, none for empty ones; each count is the number of ids listed |
| `Codec.IdsRoundTrip` | src/handler/util.rs:93-97 | ids written with `join(",")` parse back to their set |
| `Codec.QueryRoundTrip` | src/handler/util.rs:85-108 | the written query, read as query pairs and decoded, is the map with empty sets removed, whatever the iteration order |
| `Codec.EncodingRoundTrip` | src/handler/util.rs:27-61 | a message whose reaction link is the written one, among skipped entities, decodes to Some of the map with empty sets removed |
| `Util.KeyboardOfOneRow` | src/handler/util.rs:11-19 | appending each button to row 0 yields a single row holding the buttons in order |
| `Util.ReactionKeyboardShape` | src/handler/util.rs:8-22 | one row of six buttons in `REACTIONS` order; each labelled with its bare emoji; each with callback data that `from_str` reads back as its reaction; one button per reaction |
| `Util.CreateReactionKeyboard` | src/handler/util.rs:8-22 | the loop builds one row with button i for `REACTIONS[i]` |
| `Util.GetReactionsUsers` | src/handler/util.rs:27-61 | the nested loop computes exactly `Decode`: the same map, and the same panic cause |
| `Util.IterateSet` | src/handler/util.rs:94 | iterating a set lists each member once |
| `Util.EncodeReactions` | src/handler/util.rs:85-102 | the loop emits, for some iteration order, the query parameters and tally entries of the non-empty sets, one of each per non-empty set |
| `Util.ToggleReaction` | src/handler/util.rs:65-124 | panics when the message has no entities or cannot be decoded; otherwise edits that chat message to an encoding of the toggled map, with the reaction keyboard, and returns whether the vote was added, or the edit's error |
| `Commands.DeleteFailure` | src/handler/command.rs:25-33 | a failed delete is ignored exactly when it is an API error with status 401; any other error is returned as is |
| `Commands.ShortcutReaction` | src/handler/command.rs:46-57 | exactly the shortcut commands seed a reaction; `/r` seeds none |
| `Commands.ShortcutsSeedTheirReaction` | src/handler/command.rs:52-57 | `/up`, `/down` and `/heart` seed Up, Down and Heart, each a different one |
| `Commands.IsReactionMessage` | src/handler/command.rs:73-77 | true exactly when the sender is a bot named `reaxnbot` and the text holds U+034F; panics exactly for a bot sender without a username |
| `Commands.SummaryOneLinePerReaction` | src/handler/command.rs:109-128 | the notice exactly when the list is empty; otherwise one line per reaction, each `emoji — names joined by ", "` |
| `Commands.SummaryCoversState` | src/handler/command.rs:93-109 | one entry per reaction of the decoded map, one name per voter including failed lookups; the notice exactly when the map is empty |
| `Commands.CollectNames` | src/handler/command.rs:94-103 | looks up every voter once, any order, one name per voter; a failed lookup gives `(unknown)` |
| `Commands.CollectReactions` | src/handler/command.rs:86-106 | visits every reaction of the map once, any order, one entry per reaction, with the names of all its voters |
| `Commands.HandleReact` | src/handler/command.rs:25-60 | delete first, stopping on any non-401 error; then the U+034F message under the target with the keyboard; `/r` stops there; a shortcut toggles its reaction once on the new message for the sender, or fails without a sender |
| `Commands.HandleShow` | src/handler/command.rs:73-128 | the refusal unless the target is a reaction message; otherwise one answer under it with the summary of its decoded votes, MarkdownV2 only for the notice; panics as decoding does; at most one message, never with a keyboard |
| `Commands.HandleCommand` | src/handler/command.rs:9-133 | `/help` answers with the descriptions; any other command without a reply target sends only its guidance reply; `/r` and shortcuts with a target delete first; `/s` never attaches a keyboard |
| `Callbacks.CallbackReaction` | src/handler/callback_query.rs:21 | missing data panics; unknown data panics naming it; otherwise the reaction whose identifier the data is |
| `Callbacks.KeyboardButtonSelects` | src/handler/callback_query.rs:21 | pressing keyboard button i selects `REACTIONS[i]` |
| `Callbacks.AckTextDistinguishes` | src/handler/callback_query.rs:25-31 | the acknowledgement of an added vote differs from that of a removed one and names its reaction |
| `Callbacks.HandleCallbackQuery` | src/handler/callback_query.rs:5-36 | without a message only an alert; otherwise toggles the parsed reaction on that message for the presser; on success acknowledges with the emoji or U+274E |

## Left out

- URL parsing is not modelled. A text link is given already parsed as (domain, path, raw query), or as unparseable. `query_pairs` is modelled as:
  - split on `&`, dropping empty segments;
  - split each segment at the first `=`;
  - no percent-decoding and no `+` to space. The bot never writes either.
- `lexical::parse` itself is not part of this model. `Decimal.ParseI32` stands for it with the grammar above; whatever the library accepts beyond that grammar is not modelled.
- MarkdownV2 rendering and escaping are not modelled. The written text is kept as its markdown source. `EncodingRoundTrip` takes the rendered message to hold the written link as a text-link entity.
- Request flags are not modelled: `disable_notification`, `disable_web_page_preview` and the alert's `cache_time`.
- Network behaviour of platform requests is not modelled. Each request's outcome is a parameter: `editError`, `answerError`, and the fields of `Commands.Api`.
  - `get_chat_member` is a lookup function. It is not recorded as an effect because it changes nothing.
- The help text from `Command::descriptions()` is a parameter. The `Command` enum's definition is not part of this model.
- Concurrency is not modelled. Two presses on one message can race: each reads, modifies and writes the whole state. Every handler here runs alone.
- Hash iteration order is left open, as described above.
- `src/main.rs` is not part of this model. It is an older revision with its own enum and handler.
- `src/index.ts` is not part of this model. It is an earlier TypeScript prototype with different semantics.
- `src/handler/inline_query.rs` is not part of this model. It relies on a function not present in `util.rs`.
- `src/handler/mod.rs` is not part of this model. It only wires the modules together.
- Commands.HandleCommand: its contract states `/help`, the missing-target guard and the first effect of `/r`. The rest of each path is stated by `Commands.HandleReact` and `Commands.HandleShow`, which it calls.
