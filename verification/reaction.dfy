/**
 * The reaction catalog: the closed set of reactions, their fixed display
 * order, their wire identifiers (`Display` / `FromStr`) and their emoji.
 */
module Reactions {
  import opened Wrappers

  datatype Reaction = Laugh | Anger | Heart | Up | Down | Sad

  /** `REACTIONS`: the order in which the keyboard shows the buttons. */
  const ReactionOrder: seq<Reaction> := [Heart, Laugh, Anger, Sad, Up, Down]

  /** The six wire identifiers; these are part of the stored message format. */
  const WireIds: set<string> := {"laugh", "anger", "love", "up", "down", "sad"}

  predicate IsLowerAlpha(s: string) { forall i :: 0 <= i < |s| ==> 'a' <= s[i] <= 'z' }

  /** `reaction.to_string()`. Identifiers are lower-case letters only, so they never hold a separator. */
  function ToWire(r: Reaction): (id: string)
    ensures id in WireIds
    ensures |id| >= 2 && IsLowerAlpha(id)
  {
    match r
    case Laugh => "laugh"
    case Anger => "anger"
    case Heart => "love"
    case Up => "up"
    case Down => "down"
    case Sad => "sad"
  }

  /**
   * `Reaction::from_str(s)`. None stands for the `unimplemented!()` panic
   * that every string outside the six identifiers reaches.
   */
  function FromWire(s: string): (r: Option<Reaction>)
    ensures r.Some? <==> s in WireIds
    ensures r.Some? ==> ToWire(r.value) == s
  {
    match s
    case "laugh" => Some(Laugh)
    case "anger" => Some(Anger)
    case "love" => Some(Heart)
    case "up" => Some(Up)
    case "down" => Some(Down)
    case "sad" => Some(Sad)
    case _ => None
  }

  /** `reaction.get_emoji()`. */
  function Emoji(r: Reaction): (e: string)
    ensures |e| >= 1 && e[0] > '\U{2000}'
  {
    match r
    case Heart => "\U{2764}\U{FE0F}"
    case Laugh => "\U{1F602}"
    case Anger => "\U{1F621}"
    case Sad => "\U{1F62D}"
    case Up => "\U{1F44D}"
    case Down => "\U{1F44E}"
  }

  /** The wire identifier round-trips through `from_str`. */
  lemma WireRoundTrip(r: Reaction)
    ensures FromWire(ToWire(r)) == Some(r)
  {
  }

  /** Distinct reactions have distinct identifiers; Heart is written "love". */
  lemma ToWireInjective(r1: Reaction, r2: Reaction)
    ensures ToWire(r1) == ToWire(r2) ==> r1 == r2
    ensures ToWire(Heart) == "love"
  {
  }

  /** Distinct reactions have distinct emoji. */
  lemma EmojiInjective(r1: Reaction, r2: Reaction)
    ensures Emoji(r1) == Emoji(r2) ==> r1 == r2
  {
  }

  /** `REACTIONS` lists every reaction exactly once. */
  lemma ReactionOrderIsPermutation()
    ensures |ReactionOrder| == 6
    ensures forall r: Reaction :: r in ReactionOrder
    ensures forall i, j :: 0 <= i < j < |ReactionOrder| ==> ReactionOrder[i] != ReactionOrder[j]
  {
    forall r: Reaction ensures r in ReactionOrder {
      match r
      case Heart => assert ReactionOrder[0] == r;
      case Laugh => assert ReactionOrder[1] == r;
      case Anger => assert ReactionOrder[2] == r;
      case Sad => assert ReactionOrder[3] == r;
      case Up => assert ReactionOrder[4] == r;
      case Down => assert ReactionOrder[5] == r;
    }
  }
}
