/**
 * The reaction state stored inside a message: how it is read back from the
 * message's text-link entities, how a vote is toggled, and the shape of the
 * text the bot writes back. The functions here specify the methods of
 * module Util; the lemmas state the laws of the format.
 */
module Codec {
  import opened Wrappers
  import opened Text
  import opened Decimal
  import opened Reactions
  import opened Platform

  const Host: string := "reaxnbot.dev"
  const LinkPath: string := "/reactions"

  /** U+034F, the invisible character that marks a reaction message. */
  const Marker: char := '\U{034F}'

  /** Who voted for what: `HashMap<Reaction, HashSet<i32>>`. */
  type State = map<Reaction, set<I32>>

  /** The three ways decoding panics on a link it accepted. */
  datatype DecodeError = MalformedUrl | UnknownReactionId(key: string) | BadUserIds(ids: string)

  function Votes(s: State, r: Reaction): set<I32> { if r in s then s[r] else {} }

  /** Two states with the same keys and the same vote sets are equal. */
  lemma StateExt(a: State, b: State)
    requires a.Keys == b.Keys
    requires forall r :: Votes(a, r) == Votes(b, r)
    ensures a == b
  {
    forall r | r in a
      ensures a[r] == b[r]
    {
      assert Votes(a, r) == Votes(b, r);
    }
  }

  /** The state with every empty vote set dropped. */
  function NonEmpty(s: State): (t: State)
    ensures forall r :: r in t <==> r in s && s[r] != {}
    ensures forall r :: Votes(t, r) == Votes(s, r)
  {
    map r | r in s && s[r] != {} :: s[r]
  }

  /** Vote sets merged key by key, as `entry(..).or_insert_with(..).extend(..)` does. */
  function Merge(a: State, b: State): (m: State)
    ensures m.Keys == a.Keys + b.Keys
    ensures forall r :: Votes(m, r) == Votes(a, r) + Votes(b, r)
  {
    map r | r in a.Keys + b.Keys :: Votes(a, r) + Votes(b, r)
  }

  predicate NoDups<T(==)>(xs: seq<T>) { forall i, j :: 0 <= i < j < |xs| ==> xs[i] != xs[j] }

  /** `xs` lists the members of `S`, each once, in some order (one iteration of a HashMap or HashSet). */
  ghost predicate Enumerates<T(!new)>(xs: seq<T>, S: set<T>)
  {
    NoDups(xs) && forall x :: x in xs <==> x in S
  }

  /** An enumeration of a set has one entry per member. */
  lemma {:induction false} EnumeratesCard<T(!new)>(xs: seq<T>, S: set<T>)
    requires Enumerates(xs, S)
    ensures |xs| == |S|
    decreases |xs|
  {
    if xs != [] {
      var x := xs[0];
      assert forall y :: y in xs[1..] <==> y in S - {x} by {
        forall y ensures y in xs[1..] <==> y in S - {x} {
          if y in xs[1..] {
            var k :| 0 <= k < |xs[1..]| && xs[1..][k] == y;
            assert xs[k + 1] == y;
          }
          if y in S - {x} {
            var k :| 0 <= k < |xs| && xs[k] == y;
            assert k != 0;
            assert xs[1..][k - 1] == y;
          }
        }
      }
      EnumeratesCard(xs[1..], S - {x});
    } else {
      assert forall y :: y !in S;
      assert S == {};
    }
  }

  // ---------------------------------------------------------------------------
  // Decoding
  // ---------------------------------------------------------------------------

  /** Query segments to (key, value) pairs: empty segments skipped, split at the first '='. */
  function SegmentPairs(segments: seq<string>): seq<(string, string)>
    decreases |segments|
  {
    if segments == [] then []
    else (if segments[0] == "" then [] else [SplitFirst(segments[0], '=')]) + SegmentPairs(segments[1..])
  }

  /** `url.query_pairs()` on a raw query without percent-escapes. */
  function QueryPairs(query: string): seq<(string, string)>
  {
    SegmentPairs(SplitOn(query, '&'))
  }

  /** `tokens.map(lexical::parse).collect::<Result<Vec<i32>, _>>()`: None as soon as one token fails. */
  function ParseIdList(tokens: seq<string>): (r: Option<set<I32>>)
    ensures r.Some? && |tokens| >= 1 ==> r.value != {}
    decreases |tokens|
  {
    if tokens == [] then Some({})
    else
      match ParseI32(tokens[0])
      case None => None
      case Some(id) =>
        match ParseIdList(tokens[1..])
        case None => None
        case Some(rest) => Some({id} + rest)
  }

  /** The user ids of one query value, `value.split(",")`; a parsed list is never empty. */
  function ParseIds(value: string): (r: Option<set<I32>>)
    ensures r.Some? ==> r.value != {}
  {
    ParseIdList(SplitOn(value, ','))
  }

  /** One query pair added to the state: the key must name a reaction, every id must parse. */
  function AddPair(m: State, pair: (string, string)): Result<State, DecodeError>
  {
    match FromWire(pair.0)
    case None => Err(UnknownReactionId(pair.0))
    case Some(r) =>
      match ParseIds(pair.1)
      case None => Err(BadUserIds(pair.1))
      case Some(ids) => Ok(m[r := Votes(m, r) + ids])
  }

  function AddPairs(m: State, pairs: seq<(string, string)>): Result<State, DecodeError>
    decreases |pairs|
  {
    if pairs == [] then Ok(m)
    else
      match AddPair(m, pairs[0])
      case Err(e) => Err(e)
      case Ok(next) => AddPairs(next, pairs[1..])
  }

  predicate IsReactionLink(link: Link)
  {
    link.Link? && link.domain == Some(Host) && link.path == LinkPath
  }

  /**
   * One entity added to the state. Every text link is URL-parsed first, so an
   * unparseable one fails even when it is not the bot's; other entities and
   * links elsewhere are skipped.
   */
  function AddEntity(m: State, e: Entity): Result<State, DecodeError>
  {
    match e
    case OtherEntity => Ok(m)
    case TextLink(link) =>
      if link.Unparseable? then Err(MalformedUrl)
      else if !IsReactionLink(link) then Ok(m)
      else AddPairs(m, QueryPairs(link.query))
  }

  function DecodeFrom(m: State, entities: seq<Entity>): Result<State, DecodeError>
    decreases |entities|
  {
    if entities == [] then Ok(m)
    else
      match AddEntity(m, entities[0])
      case Err(e) => Err(e)
      case Ok(next) => DecodeFrom(next, entities[1..])
  }

  /**
   * `get_reactions_users`: None exactly when the message has no entity list;
   * an entity list with no reaction link decodes to the empty state.
   */
  function Decode(entities: Option<seq<Entity>>): (r: Result<Option<State>, DecodeError>)
    ensures r == Ok(None) <==> entities.None?
  {
    match entities
    case None => Ok(None)
    case Some(es) =>
      match DecodeFrom(map[], es)
      case Err(e) => Err(e)
      case Ok(m) => Ok(Some(m))
  }

  /** A decoding result with a state merged into its success value. */
  function Lift(m: State, r: Result<State, DecodeError>): Result<State, DecodeError>
  {
    match r
    case Err(e) => Err(e)
    case Ok(x) => Ok(Merge(m, x))
  }

  lemma MergeAssoc(a: State, b: State, c: State)
    ensures Merge(Merge(a, b), c) == Merge(a, Merge(b, c))
  {
    var lhs := Merge(Merge(a, b), c);
    var rhs := Merge(a, Merge(b, c));
    forall q
      ensures Votes(lhs, q) == Votes(rhs, q)
    {
      assert Votes(lhs, q) == Votes(a, q) + Votes(b, q) + Votes(c, q);
      assert Votes(rhs, q) == Votes(a, q) + (Votes(b, q) + Votes(c, q));
    }
    StateExt(lhs, rhs);
  }

  lemma MergeEmpty(m: State)
    ensures Merge(m, map[]) == m
  {
    forall q
      ensures Votes(Merge(m, map[]), q) == Votes(m, q)
    {
      assert Votes(map[], q) == {};
    }
    StateExt(Merge(m, map[]), m);
  }

  /** Adding one pair's ids is merging a one-entry state. */
  lemma AddIsMerge(m: State, r: Reaction, ids: set<I32>)
    ensures m[r := Votes(m, r) + ids] == Merge(m, map[r := ids])
  {
    var lhs := m[r := Votes(m, r) + ids];
    var single := map[r := ids];
    forall q
      ensures Votes(lhs, q) == Votes(Merge(m, single), q)
    {
      if q != r {
        assert Votes(single, q) == {};
      }
    }
    StateExt(lhs, Merge(m, single));
  }

  /** Decoding from a non-empty state is decoding from scratch, merged into that state. */
  lemma {:induction false} AddPairsShift(m: State, pairs: seq<(string, string)>)
    ensures AddPairs(m, pairs) == Lift(m, AddPairs(map[], pairs))
    decreases |pairs|
  {
    if pairs == [] {
      MergeEmpty(m);
    } else if !BadPair(pairs[0]) {
      var r := FromWire(pairs[0].0).value;
      var ids := ParseIds(pairs[0].1).value;
      var first := map[r := ids];
      var next := m[r := Votes(m, r) + ids];
      assert AddPair(m, pairs[0]) == Ok(next);
      assert AddPair(map[], pairs[0]) == Ok(first) by {
        assert Votes(map[], r) + ids == ids;
        assert map[][r := ids] == first;
      }
      AddIsMerge(m, r, ids);
      AddPairsShift(next, pairs[1..]);
      AddPairsShift(first, pairs[1..]);
      match AddPairs(map[], pairs[1..])
      case Err(_) =>
      case Ok(x) => MergeAssoc(m, first, x);
    }
  }

  lemma AddEntityShift(m: State, e: Entity)
    ensures AddEntity(m, e) == Lift(m, AddEntity(map[], e))
  {
    if e.TextLink? && IsReactionLink(e.link) {
      AddPairsShift(m, QueryPairs(e.link.query));
    } else {
      MergeEmpty(m);
    }
  }

  lemma {:induction false} DecodeFromShift(m: State, entities: seq<Entity>)
    ensures DecodeFrom(m, entities) == Lift(m, DecodeFrom(map[], entities))
    decreases |entities|
  {
    if entities == [] {
      MergeEmpty(m);
    } else {
      AddEntityShift(m, entities[0]);
      var firstResult := AddEntity(map[], entities[0]);
      if firstResult.Ok? {
        var first := firstResult.value;
        var next := Merge(m, first);
        assert AddEntity(m, entities[0]) == Ok(next);
        DecodeFromShift(next, entities[1..]);
        DecodeFromShift(first, entities[1..]);
        var rest := DecodeFrom(map[], entities[1..]);
        if rest.Ok? {
          MergeAssoc(m, first, rest.value);
        }
      }
    }
  }

  lemma {:induction false} DecodeFromConcat(m: State, es1: seq<Entity>, es2: seq<Entity>)
    ensures DecodeFrom(m, es1 + es2) ==
      match DecodeFrom(m, es1)
      case Err(e) => Err(e)
      case Ok(a) => DecodeFrom(a, es2)
    decreases |es1|
  {
    if es1 == [] {
      assert es1 + es2 == es2;
    } else {
      assert (es1 + es2)[0] == es1[0];
      assert (es1 + es2)[1..] == es1[1..] + es2;
      match AddEntity(m, es1[0])
      case Err(e) =>
      case Ok(next) => DecodeFromConcat(next, es1[1..], es2);
    }
  }

  lemma {:induction false} AddPairsConcat(m: State, ps1: seq<(string, string)>, ps2: seq<(string, string)>)
    ensures AddPairs(m, ps1 + ps2) ==
      match AddPairs(m, ps1)
      case Err(e) => Err(e)
      case Ok(a) => AddPairs(a, ps2)
    decreases |ps1|
  {
    if ps1 == [] {
      assert ps1 + ps2 == ps2;
    } else {
      assert (ps1 + ps2)[0] == ps1[0];
      assert (ps1 + ps2)[1..] == ps1[1..] + ps2;
      match AddPair(m, ps1[0])
      case Err(e) =>
      case Ok(next) => AddPairsConcat(next, ps1[1..], ps2);
    }
  }

  /** Two runs of entities (two reaction links, say) decode to the union of their votes, reaction by reaction. */
  lemma DecodeMergesByUnion(es1: seq<Entity>, es2: seq<Entity>, a: State, b: State)
    requires Decode(Some(es1)) == Ok(Some(a))
    requires Decode(Some(es2)) == Ok(Some(b))
    ensures Decode(Some(es1 + es2)) == Ok(Some(Merge(a, b)))
  {
    DecodeFromConcat(map[], es1, es2);
    DecodeFromShift(a, es2);
  }

  /** A failure in the first run of entities is the failure of the whole. */
  lemma DecodeFailsEarly(es1: seq<Entity>, es2: seq<Entity>)
    requires Decode(Some(es1)).Err?
    ensures Decode(Some(es1 + es2)) == Decode(Some(es1))
  {
    DecodeFromConcat(map[], es1, es2);
  }

  /** Repeated keys in one query merge by union too. */
  lemma QueryMergesByUnion(ps1: seq<(string, string)>, ps2: seq<(string, string)>, a: State, b: State)
    requires AddPairs(map[], ps1) == Ok(a)
    requires AddPairs(map[], ps2) == Ok(b)
    ensures AddPairs(map[], ps1 + ps2) == Ok(Merge(a, b))
  {
    AddPairsConcat(map[], ps1, ps2);
    AddPairsShift(a, ps2);
  }

  /** Entities that decoding skips: anything but a text link, and links to another host or path. */
  predicate Ignored(e: Entity)
  {
    e.OtherEntity? || (e.link.Link? && !IsReactionLink(e.link))
  }

  lemma {:induction false} DecodeFromIgnored(m: State, entities: seq<Entity>)
    requires forall i :: 0 <= i < |entities| ==> Ignored(entities[i])
    ensures DecodeFrom(m, entities) == Ok(m)
    decreases |entities|
  {
    if entities != [] {
      DecodeFromIgnored(m, entities[1..]);
    }
  }

  /** A message whose entities hold no reaction link decodes to Some of the empty state, not to None. */
  lemma DecodeWithoutReactionLink(entities: seq<Entity>)
    requires forall i :: 0 <= i < |entities| ==> Ignored(entities[i])
    ensures Decode(Some(entities)) == Ok(Some(map[]))
  {
    DecodeFromIgnored(map[], entities);
  }

  /** A skipped entity contributes nothing wherever it stands. */
  lemma DecodeSkipsIgnored(pre: seq<Entity>, e: Entity, post: seq<Entity>)
    requires Ignored(e)
    ensures Decode(Some(pre + [e] + post)) == Decode(Some(pre + post))
  {
    assert pre + [e] + post == pre + ([e] + post);
    DecodeFromConcat(map[], pre, [e] + post);
    DecodeFromConcat(map[], pre, post);
    assert ([e] + post)[0] == e;
    assert ([e] + post)[1..] == post;
  }

  // ---------------------------------------------------------------------------
  // When decoding fails
  // ---------------------------------------------------------------------------

  ghost predicate HasBadToken(tokens: seq<string>)
  {
    exists k :: 0 <= k < |tokens| && ParseI32(tokens[k]).None?
  }

  lemma {:induction false} ParseIdListFailsIff(tokens: seq<string>)
    ensures ParseIdList(tokens).None? <==> HasBadToken(tokens)
    decreases |tokens|
  {
    if tokens != [] {
      ParseIdListFailsIff(tokens[1..]);
      if ParseI32(tokens[0]).Some? {
        if HasBadToken(tokens) {
          var k :| 0 <= k < |tokens| && ParseI32(tokens[k]).None?;
          assert tokens[1..][k - 1] == tokens[k];
        }
        if HasBadToken(tokens[1..]) {
          var k :| 0 <= k < |tokens[1..]| && ParseI32(tokens[1..][k]).None?;
          assert tokens[k + 1] == tokens[1..][k];
        }

      }
    }
  }

  predicate BadPair(pair: (string, string))
  {
    FromWire(pair.0).None? || ParseIds(pair.1).None?
  }

  ghost predicate HasBadPair(pairs: seq<(string, string)>)
  {
    exists j :: 0 <= j < |pairs| && BadPair(pairs[j])
  }

  lemma {:induction false} AddPairsFailsIff(m: State, pairs: seq<(string, string)>)
    ensures AddPairs(m, pairs).Err? <==> HasBadPair(pairs)
    decreases |pairs|
  {
    if pairs != [] && !BadPair(pairs[0]) {
      var next := AddPair(m, pairs[0]).value;
      AddPairsFailsIff(next, pairs[1..]);
      if HasBadPair(pairs) {
        var j :| 0 <= j < |pairs| && BadPair(pairs[j]);
        assert pairs[1..][j - 1] == pairs[j];
      }
      if HasBadPair(pairs[1..]) {
        var j :| 0 <= j < |pairs[1..]| && BadPair(pairs[1..][j]);
        assert pairs[j + 1] == pairs[1..][j];
      }
    }
  }

  /** An entity that makes decoding panic: an unparseable link, or a reaction link with a bad pair. */
  ghost predicate Rejected(e: Entity)
  {
    e.TextLink? && (e.link.Unparseable? || (IsReactionLink(e.link) && HasBadPair(QueryPairs(e.link.query))))
  }

  lemma {:induction false} DecodeFromFailsIff(m: State, entities: seq<Entity>)
    ensures DecodeFrom(m, entities).Err? <==> exists i :: 0 <= i < |entities| && Rejected(entities[i])
    decreases |entities|
  {
    if entities != [] {
      var e := entities[0];
      if e.TextLink? && IsReactionLink(e.link) {
        AddPairsFailsIff(m, QueryPairs(e.link.query));
      }
      if AddEntity(m, e).Ok? {
        var next := AddEntity(m, e).value;
        DecodeFromFailsIff(next, entities[1..]);
        if exists i :: 0 <= i < |entities| && Rejected(entities[i]) {
          var i :| 0 <= i < |entities| && Rejected(entities[i]);
          assert entities[1..][i - 1] == entities[i];
        }
        if exists i :: 0 <= i < |entities[1..]| && Rejected(entities[1..][i]) {
          var i :| 0 <= i < |entities[1..]| && Rejected(entities[1..][i]);
          assert entities[i + 1] == entities[1..][i];
        }
      }
    }
  }

  /**
   * Decoding fails exactly when some entity is an unparseable link, or a
   * reaction link with an unknown key or a value with a token that is not an
   * `i32`; it never drops such a pair and carries on.
   */
  lemma DecodeFailsIff(entities: seq<Entity>)
    ensures Decode(Some(entities)).Err? <==> exists i :: 0 <= i < |entities| && Rejected(entities[i])
  {
    DecodeFromFailsIff(map[], entities);
  }

  /** A value fails to parse exactly when one of its comma-separated tokens is not an `i32`. */
  lemma ParseIdsFailsIff(value: string)
    ensures ParseIds(value).None? <==> HasBadToken(SplitOn(value, ','))
  {
    var tokens := SplitOn(value, ',');
    assert ParseIds(value) == ParseIdList(tokens);
    ParseIdListFailsIff(tokens);
  }

  // ---------------------------------------------------------------------------
  // What a successful decode contains
  // ---------------------------------------------------------------------------

  /** The pair is well formed and all of its voters are in `result`. */
  ghost predicate PairKept(pair: (string, string), result: State)
  {
    !BadPair(pair) && ParseIds(pair.1).value <= Votes(result, FromWire(pair.0).value)
  }

  lemma {:induction false} AddPairsKeeps(m: State, pairs: seq<(string, string)>, result: State)
    requires AddPairs(m, pairs) == Ok(result)
    ensures forall r :: Votes(m, r) <= Votes(result, r)
    ensures forall j :: 0 <= j < |pairs| ==> PairKept(pairs[j], result)
    decreases |pairs|
  {
    if pairs != [] {
      var next := AddPair(m, pairs[0]).value;
      AddPairsKeeps(next, pairs[1..], result);
      forall j | 0 <= j < |pairs|
        ensures PairKept(pairs[j], result)
      {
        if j > 0 {
          assert pairs[j] == pairs[1..][j - 1];
        }
      }
    }
  }

  lemma {:induction false} DecodeFromKeeps(m: State, entities: seq<Entity>, result: State)
    requires DecodeFrom(m, entities) == Ok(result)
    ensures forall r :: Votes(m, r) <= Votes(result, r)
    ensures forall i, j ::
      0 <= i < |entities| && entities[i].TextLink? && IsReactionLink(entities[i].link) &&
      0 <= j < |QueryPairs(entities[i].link.query)|
      ==> PairKept(QueryPairs(entities[i].link.query)[j], result)
    decreases |entities|
  {
    if entities != [] {
      var e := entities[0];
      var next := AddEntity(m, e).value;
      DecodeFromKeeps(next, entities[1..], result);
      if e.TextLink? && IsReactionLink(e.link) {
        AddPairsKeeps(m, QueryPairs(e.link.query), next);
        forall j | 0 <= j < |QueryPairs(e.link.query)|
          ensures PairKept(QueryPairs(e.link.query)[j], result)
        {
          assert PairKept(QueryPairs(e.link.query)[j], next);
        }
      }
      forall i, j |
        0 < i < |entities| && entities[i].TextLink? && IsReactionLink(entities[i].link) &&
        0 <= j < |QueryPairs(entities[i].link.query)|
        ensures PairKept(QueryPairs(entities[i].link.query)[j], result)
      {
        assert entities[i] == entities[1..][i - 1];
      }
    }
  }

  /** Every voter named by every pair of every reaction link is in the decoded state. */
  lemma DecodeKeepsEveryVoter(entities: seq<Entity>, result: State, i: nat, j: nat)
    requires Decode(Some(entities)) == Ok(Some(result))
    requires i < |entities| && entities[i].TextLink? && IsReactionLink(entities[i].link)
    requires j < |QueryPairs(entities[i].link.query)|
    ensures var pair := QueryPairs(entities[i].link.query)[j];
      FromWire(pair.0).Some? && ParseIds(pair.1).Some? &&
      ParseIds(pair.1).value <= Votes(result, FromWire(pair.0).value)
  {
    DecodeFromKeeps(map[], entities, result);
    assert PairKept(QueryPairs(entities[i].link.query)[j], result);
  }

  ghost predicate AllNonEmpty(s: State) { forall r :: r in s ==> s[r] != {} }

  lemma {:induction false} AddPairsNonEmpty(m: State, pairs: seq<(string, string)>)
    requires AllNonEmpty(m) && AddPairs(m, pairs).Ok?
    ensures AllNonEmpty(AddPairs(m, pairs).value)
    decreases |pairs|
  {
    if pairs != [] {
      AddPairsNonEmpty(AddPair(m, pairs[0]).value, pairs[1..]);
    }
  }

  lemma {:induction false} DecodeFromNonEmpty(m: State, entities: seq<Entity>)
    requires AllNonEmpty(m) && DecodeFrom(m, entities).Ok?
    ensures AllNonEmpty(DecodeFrom(m, entities).value)
    decreases |entities|
  {
    if entities != [] {
      var e := entities[0];
      if e.TextLink? && IsReactionLink(e.link) {
        AddPairsNonEmpty(m, QueryPairs(e.link.query));
      }
      DecodeFromNonEmpty(AddEntity(m, e).value, entities[1..]);
    }
  }

  /** A decoded state never maps a reaction to an empty set: "k=" fails to parse. */
  lemma DecodedSetsNonEmpty(entities: seq<Entity>, s: State)
    requires Decode(Some(entities)) == Ok(Some(s))
    ensures forall r :: r in s ==> s[r] != {}
    ensures NonEmpty(s) == s
  {
    DecodeFromNonEmpty(map[], entities);
    StateExt(NonEmpty(s), s);
  }

  // ---------------------------------------------------------------------------
  // Toggling
  // ---------------------------------------------------------------------------

  /** The new state and whether the vote was added (`toggle_reaction`'s set update). */
  function Toggle(s: State, r: Reaction, u: I32): (State, bool)
  {
    var users := Votes(s, r);
    if u in users then (s[r := users - {u}], false) else (s[r := users + {u}], true)
  }

  /** The vote is added exactly when the user had not voted, and removed otherwise. */
  lemma ToggleFlipsVote(s: State, r: Reaction, u: I32)
    ensures Toggle(s, r, u).1 <==> u !in Votes(s, r)
    ensures u in Votes(Toggle(s, r, u).0, r) <==> Toggle(s, r, u).1
    ensures Votes(Toggle(s, r, u).0, r) - {u} == Votes(s, r) - {u}
    ensures r in Toggle(s, r, u).0
  {
  }

  /** Toggling one reaction leaves every other reaction's set as it was. */
  lemma ToggleOthersUnchanged(s: State, r: Reaction, u: I32, q: Reaction)
    requires q != r
    ensures q in Toggle(s, r, u).0 <==> q in s
    ensures Votes(Toggle(s, r, u).0, q) == Votes(s, q)
  {
  }

  /** Toggling twice restores every vote set and reverses the reported direction. */
  lemma ToggleTwice(s: State, r: Reaction, u: I32)
    ensures var once := Toggle(s, r, u); var twice := Toggle(once.0, r, u);
      twice.1 == !once.1 &&
      (forall q :: Votes(twice.0, q) == Votes(s, q)) &&
      NonEmpty(twice.0) == NonEmpty(s)
  {
    var once := Toggle(s, r, u);
    var twice := Toggle(once.0, r, u);
    assert Votes(twice.0, r) == Votes(s, r);
    StateExt(NonEmpty(twice.0), NonEmpty(s));
  }

  /** States with the same vote sets agree once their empty sets are dropped. */
  lemma NonEmptySameVotes(a: State, b: State)
    requires forall q :: Votes(a, q) == Votes(b, q)
    ensures NonEmpty(a) == NonEmpty(b)
  {
    forall q
      ensures q in NonEmpty(a) <==> q in NonEmpty(b)
    {
      assert q in NonEmpty(a) <==> Votes(a, q) != {};
      assert q in NonEmpty(b) <==> Votes(b, q) != {};
    }
    StateExt(NonEmpty(a), NonEmpty(b));
  }

  /** Toggling sees a state only through its vote sets. */
  lemma ToggleSameVotes(a: State, b: State, r: Reaction, u: I32)
    requires forall q :: Votes(a, q) == Votes(b, q)
    ensures Toggle(a, r, u).1 == Toggle(b, r, u).1
    ensures NonEmpty(Toggle(a, r, u).0) == NonEmpty(Toggle(b, r, u).0)
  {
    var ta := Toggle(a, r, u).0;
    var tb := Toggle(b, r, u).0;
    assert forall q :: Votes(ta, q) == Votes(tb, q) by {
      forall q ensures Votes(ta, q) == Votes(tb, q) {
        if q != r {
          ToggleOthersUnchanged(a, r, u, q);
          ToggleOthersUnchanged(b, r, u, q);
        }
      }
    }
    NonEmptySameVotes(ta, tb);
  }

  /**
   * Two presses of the same button by the same user: the second press reads
   * the state the first one wrote back (its empty sets dropped), reports the
   * opposite direction, and leaves the votes as they were before the first.
   */
  lemma PressTwiceRestores(s: State, r: Reaction, u: I32)
    ensures var once := Toggle(s, r, u);
      var reread := NonEmpty(once.0);
      Toggle(reread, r, u).1 == !once.1 &&
      NonEmpty(Toggle(reread, r, u).0) == NonEmpty(s)
  {
    var once := Toggle(s, r, u);
    ToggleSameVotes(NonEmpty(once.0), once.0, r, u);
    ToggleTwice(s, r, u);
  }

  // ---------------------------------------------------------------------------
  // Encoding
  // ---------------------------------------------------------------------------

  function Decimals(ids: seq<I32>): (tokens: seq<string>)
    ensures |tokens| == |ids|
  {
    seq(|ids|, i requires 0 <= i < |ids| => ToDecimal(ids[i]))
  }

  /** `format!("{}={}", reaction, ids.join(","))`. */
  function QueryParam(r: Reaction, ids: seq<I32>): string
  {
    ToWire(r) + "=" + JoinWith(Decimals(ids), ",")
  }

  /** `format!("{} *{}*", emoji, count)`. */
  function TallyEntry(r: Reaction, count: nat): string
  {
    Emoji(r) + " *" + NatDigits(count) + "*"
  }

  function QueryParams(order: seq<Reaction>, idLists: seq<seq<I32>>): (params: seq<string>)
    requires |idLists| == |order|
    ensures |params| == |order|
  {
    seq(|order|, i requires 0 <= i < |order| => QueryParam(order[i], idLists[i]))
  }

  function TallyEntries(s: State, order: seq<Reaction>): (entries: seq<string>)
    ensures |entries| == |order|
  {
    seq(|order|, i requires 0 <= i < |order| => TallyEntry(order[i], |Votes(s, order[i])|))
  }

  /** The text link the platform makes of the bot's markdown link. */
  function ReactionLink(query: string): Link
  {
    Link(Some(Host), LinkPath, query)
  }

  /** `[\u{034f}](https://reaxnbot.dev/reactions?<query>) <tally>`. */
  function ReactionText(query: string, tally: string): string
  {
    "[" + [Marker] + "](https://" + Host + LinkPath + "?" + query + ") " + tally
  }

  /**
   * `order` is one iteration order of the non-empty reactions of `s`, and
   * `idLists[i]` one iteration order of the voters of `order[i]`.
   */
  ghost predicate WellEnumerated(s: State, order: seq<Reaction>, idLists: seq<seq<I32>>)
  {
    Enumerates(order, NonEmpty(s).Keys) && |idLists| == |order| &&
    forall i :: 0 <= i < |order| ==> Enumerates(idLists[i], Votes(s, order[i]))
  }

  function RenderedText(s: State, order: seq<Reaction>, idLists: seq<seq<I32>>): string
    requires |idLists| == |order|
  {
    ReactionText(JoinWith(QueryParams(order, idLists), "&"), JoinWith(TallyEntries(s, order), "  "))
  }

  /** `text` is what the bot writes for `s`, for some iteration order of its map and sets. */
  ghost predicate IsEncodingOf(text: string, s: State)
  {
    exists order, idLists :: WellEnumerated(s, order, idLists) && text == RenderedText(s, order, idLists)
  }

  /** Every text the bot writes starts with the marker link to the reactions page. */
  lemma ReactionTextPrefix(query: string, tally: string)
    ensures "[" + [Marker] + "](https://reaxnbot.dev/reactions?" <= ReactionText(query, tally)
  {
    var prefix := "[" + [Marker] + "](https://" + Host + LinkPath + "?";
    assert prefix == "[" + [Marker] + "](https://reaxnbot.dev/reactions?";
    assert ReactionText(query, tally) == prefix + (query + ") " + tally);
  }

  /**
   * The parts of the written text: one query parameter and one tally entry
   * per reaction with votes (no others), each tally entry showing the number
   * of ids its parameter lists.
   */
  lemma EncodingShape(s: State, order: seq<Reaction>, idLists: seq<seq<I32>>)
    requires WellEnumerated(s, order, idLists)
    ensures |QueryParams(order, idLists)| == |TallyEntries(s, order)| == |NonEmpty(s).Keys|
    ensures forall r :: r in order <==> Votes(s, r) != {}
    ensures forall i :: 0 <= i < |order| ==>
      |idLists[i]| == |Votes(s, order[i])| > 0 && TallyEntries(s, order)[i] == TallyEntry(order[i], |idLists[i]|)
  {
    EnumeratesCard(order, NonEmpty(s).Keys);
    forall i | 0 <= i < |order|
      ensures |idLists[i]| == |Votes(s, order[i])| > 0
    {
      EnumeratesCard(idLists[i], Votes(s, order[i]));
      assert order[i] in NonEmpty(s);
    }
  }

  /** Empty sets are invisible in the encoding: encoding `s` and encoding `s` without them are the same. */
  lemma EncodingIgnoresEmptySets(text: string, s: State)
    ensures IsEncodingOf(text, s) <==> IsEncodingOf(text, NonEmpty(s))
  {
    StateExt(NonEmpty(NonEmpty(s)), NonEmpty(s));
    forall order: seq<Reaction>, idLists: seq<seq<I32>> | |idLists| == |order|
      ensures WellEnumerated(s, order, idLists) <==> WellEnumerated(NonEmpty(s), order, idLists)
      ensures RenderedText(s, order, idLists) == RenderedText(NonEmpty(s), order, idLists)
    {
      assert TallyEntries(s, order) == TallyEntries(NonEmpty(s), order);
    }
    if IsEncodingOf(text, s) {
      var order, idLists :| WellEnumerated(s, order, idLists) && text == RenderedText(s, order, idLists);
      assert WellEnumerated(NonEmpty(s), order, idLists) && text == RenderedText(NonEmpty(s), order, idLists);
    }
    if IsEncodingOf(text, NonEmpty(s)) {
      var order, idLists :|
        WellEnumerated(NonEmpty(s), order, idLists) && text == RenderedText(NonEmpty(s), order, idLists);
      assert WellEnumerated(s, order, idLists) && text == RenderedText(s, order, idLists);
    }
  }

  // ---------------------------------------------------------------------------
  // Round trip
  // ---------------------------------------------------------------------------

  lemma ParseIdListCons(tokens: seq<string>, id: I32, rest: set<I32>)
    requires tokens != [] && ParseI32(tokens[0]) == Some(id) && ParseIdList(tokens[1..]) == Some(rest)
    ensures ParseIdList(tokens) == Some({id} + rest)
  {
  }

  lemma DecimalsHead(ids: seq<I32>)
    requires ids != []
    ensures ParseI32(Decimals(ids)[0]) == Some(ids[0])
    ensures Decimals(ids)[1..] == Decimals(ids[1..])
  {
    assert Decimals(ids)[0] == ToDecimal(ids[0]);
    DecimalRoundTrip(ids[0]);
  }

  /** The set of ids a list holds. */
  function Elements(ids: seq<I32>): (r: set<I32>)
    ensures forall x :: x in r <==> x in ids
  {
    if ids == [] then {} else {ids[0]} + Elements(ids[1..])
  }

  lemma {:induction false} ParseDecimals(ids: seq<I32>)
    ensures ParseIdList(Decimals(ids)) == Some(Elements(ids))
    decreases |ids|
  {
    if ids == [] {
      assert Decimals(ids) == [];
    } else {
      DecimalsHead(ids);
      ParseDecimals(ids[1..]);
      ParseIdListCons(Decimals(ids), ids[0], Elements(ids[1..]));
    }
  }

  /** A non-empty id list written with `join(",")` parses back to its set. */
  lemma IdsRoundTrip(ids: seq<I32>)
    requires |ids| >= 1
    ensures ParseIds(JoinWith(Decimals(ids), ",")) == Some(Elements(ids))
  {
    var tokens := Decimals(ids);
    forall k | 0 <= k < |tokens|
      ensures ',' !in tokens[k]
    {
      assert tokens[k] == ToDecimal(ids[k]);
    }
    SplitJoin(tokens, ',');
    ParseDecimals(ids);
  }

  lemma QueryParamShape(r: Reaction, ids: seq<I32>)
    ensures SplitFirst(QueryParam(r, ids), '=') == (ToWire(r), JoinWith(Decimals(ids), ","))
    ensures '&' !in QueryParam(r, ids) && QueryParam(r, ids) != ""
  {
    var w := ToWire(r);
    assert '=' !in w by {
      forall k | 0 <= k < |w| ensures w[k] != '=' { }
    }
    SplitFirstAt(w, '=', JoinWith(Decimals(ids), ","));
    assert ToWire(r) + "=" + JoinWith(Decimals(ids), ",") == w + ['='] + JoinWith(Decimals(ids), ",");
    var tokens := Decimals(ids);
    forall k | 0 <= k < |tokens|
      ensures '&' !in tokens[k]
    {
      assert tokens[k] == ToDecimal(ids[k]);
    }
    JoinAvoids(tokens, ",", '&');
    assert '&' !in w by {
      forall k | 0 <= k < |w| ensures w[k] != '&' { }
    }
  }

  lemma {:induction false} SegmentPairsOfNonEmpty(segments: seq<string>)
    requires forall i :: 0 <= i < |segments| ==> segments[i] != ""
    ensures |SegmentPairs(segments)| == |segments|
    ensures forall i :: 0 <= i < |segments| ==> SegmentPairs(segments)[i] == SplitFirst(segments[i], '=')
    decreases |segments|
  {
    if segments != [] {
      SegmentPairsOfNonEmpty(segments[1..]);
    }
  }

  /** Pairs with distinct, known keys and parseable values add their sets to the state. */
  lemma AddKnownPair(m: State, pair: (string, string), r: Reaction, ids: set<I32>)
    requires pair.0 == ToWire(r) && ParseIds(pair.1) == Some(ids)
    ensures AddPair(m, pair) == Ok(m[r := Votes(m, r) + ids])
  {
    WireRoundTrip(r);
  }

  /** The tail of the pairs meets the requirements of AddDistinctPairs for the state after the first pair. */
  lemma DistinctTail(m: State, pairs: seq<(string, string)>, keys: seq<Reaction>, t: State)
    requires |pairs| == |keys| >= 1 && NoDups(keys)
    requires forall i :: 0 <= i < |keys| ==> keys[i] !in m
    requires forall i :: 0 <= i < |pairs| ==>
      pairs[i].0 == ToWire(keys[i]) && ParseIds(pairs[i].1) == Some(Votes(t, keys[i]))
    ensures NoDups(keys[1..])
    ensures forall i :: 0 <= i < |keys| - 1 ==> keys[1..][i] !in m[keys[0] := Votes(t, keys[0])]
    ensures forall i :: 0 <= i < |pairs| - 1 ==>
      pairs[1..][i].0 == ToWire(keys[1..][i]) && ParseIds(pairs[1..][i].1) == Some(Votes(t, keys[1..][i]))
    ensures forall k :: k in keys <==> k == keys[0] || k in keys[1..]
  {
    forall i | 0 <= i < |keys| - 1
      ensures keys[1..][i] !in m[keys[0] := Votes(t, keys[0])]
    {
      assert keys[1..][i] == keys[i + 1] && keys[0] != keys[i + 1];
    }
    forall i | 0 <= i < |pairs| - 1
      ensures pairs[1..][i].0 == ToWire(keys[1..][i]) && ParseIds(pairs[1..][i].1) == Some(Votes(t, keys[1..][i]))
    {
      assert keys[1..][i] == keys[i + 1] && pairs[1..][i] == pairs[i + 1];
    }
    assert keys == [keys[0]] + keys[1..];
  }

  /** Pairs with distinct, known keys and parseable values add their sets to the state. */
  lemma {:induction false} AddDistinctPairs(m: State, pairs: seq<(string, string)>, keys: seq<Reaction>, t: State)
    requires |pairs| == |keys| && NoDups(keys)
    requires forall i :: 0 <= i < |keys| ==> keys[i] !in m
    requires forall i :: 0 <= i < |pairs| ==>
      pairs[i].0 == ToWire(keys[i]) && ParseIds(pairs[i].1) == Some(Votes(t, keys[i]))
    ensures AddPairs(m, pairs).Ok?
    ensures forall k :: k in AddPairs(m, pairs).value <==> k in m || k in keys
    ensures forall k :: k in m ==> AddPairs(m, pairs).value[k] == m[k]
    ensures forall i :: 0 <= i < |keys| ==> AddPairs(m, pairs).value[keys[i]] == Votes(t, keys[i])
    decreases |pairs|
  {
    if pairs != [] {
      var k0 := keys[0];
      var next := m[k0 := Votes(t, k0)];
      AddKnownPair(m, pairs[0], k0, Votes(t, k0));
      assert Votes(m, k0) + Votes(t, k0) == Votes(t, k0);
      DistinctTail(m, pairs, keys, t);
      AddDistinctPairs(next, pairs[1..], keys[1..], t);
      assert AddPairs(m, pairs) == AddPairs(next, pairs[1..]);
      var result := AddPairs(m, pairs).value;
      forall i | 0 < i < |keys|
        ensures result[keys[i]] == Votes(t, keys[i])
      {
        assert keys[i] == keys[1..][i - 1];
      }
    }
  }

  /** The query pairs read back from a non-empty written query are the written (key, ids) pairs. */
  lemma QueryPairsOfParams(order: seq<Reaction>, idLists: seq<seq<I32>>)
    requires |idLists| == |order| >= 1
    ensures |QueryPairs(JoinWith(QueryParams(order, idLists), "&"))| == |order|
    ensures forall i :: 0 <= i < |order| ==>
      QueryPairs(JoinWith(QueryParams(order, idLists), "&"))[i] == (ToWire(order[i]), JoinWith(Decimals(idLists[i]), ","))
  {
    var params := QueryParams(order, idLists);
    forall i | 0 <= i < |params|
      ensures '&' !in params[i] && params[i] != ""
      ensures SplitFirst(params[i], '=') == (ToWire(order[i]), JoinWith(Decimals(idLists[i]), ","))
    {
      QueryParamShape(order[i], idLists[i]);
    }
    SplitJoin(params, '&');
    SegmentPairsOfNonEmpty(params);
  }

  /** Each written id list parses back to the voters it lists. */
  lemma WrittenIdsParse(s: State, order: seq<Reaction>, idLists: seq<seq<I32>>, i: nat)
    requires WellEnumerated(s, order, idLists) && i < |order|
    ensures ParseIds(JoinWith(Decimals(idLists[i]), ",")) == Some(Votes(s, order[i]))
  {
    var ids := idLists[i];
    assert order[i] in NonEmpty(s);
    var u :| u in Votes(s, order[i]);
    assert u in ids;
    IdsRoundTrip(ids);
    assert Elements(ids) == Votes(s, order[i]);
  }

  /** The query written for a state decodes to that state with its empty sets removed. */
  lemma QueryRoundTrip(s: State, order: seq<Reaction>, idLists: seq<seq<I32>>)
    requires WellEnumerated(s, order, idLists)
    ensures AddPairs(map[], QueryPairs(JoinWith(QueryParams(order, idLists), "&"))) == Ok(NonEmpty(s))
  {
    if |order| == 0 {
      assert QueryPairs("") == [];
      StateExt(NonEmpty(s), map[]);
    } else {
      QueryPairsOfParams(order, idLists);
      var pairs := QueryPairs(JoinWith(QueryParams(order, idLists), "&"));
      forall i | 0 <= i < |pairs|
        ensures pairs[i].0 == ToWire(order[i]) && ParseIds(pairs[i].1) == Some(Votes(s, order[i]))
      {
        WrittenIdsParse(s, order, idLists, i);
      }
      AddDistinctPairs(map[], pairs, order, s);
      var result := AddPairs(map[], pairs).value;
      forall r
        ensures Votes(result, r) == Votes(NonEmpty(s), r)
      {
        if r in NonEmpty(s) {
          var i :| 0 <= i < |order| && order[i] == r;
        }
      }
      StateExt(result, NonEmpty(s));
    }
  }

  /**
   * Round trip: a message whose only reaction link is the one the bot wrote
   * for `s` (surrounded by any skipped entities, such as the bold tally)
   * decodes to `s` with its empty sets removed.
   */
  lemma EncodingRoundTrip(s: State, order: seq<Reaction>, idLists: seq<seq<I32>>, pre: seq<Entity>, post: seq<Entity>)
    requires WellEnumerated(s, order, idLists)
    requires forall i :: 0 <= i < |pre| ==> Ignored(pre[i])
    requires forall i :: 0 <= i < |post| ==> Ignored(post[i])
    ensures Decode(Some(pre + [TextLink(ReactionLink(JoinWith(QueryParams(order, idLists), "&")))] + post))
         == Ok(Some(NonEmpty(s)))
  {
    var link := TextLink(ReactionLink(JoinWith(QueryParams(order, idLists), "&")));
    QueryRoundTrip(s, order, idLists);
    DecodeFromConcat(map[], pre + [link], post);
    DecodeFromConcat(map[], pre, [link]);
    DecodeFromIgnored(map[], pre);
    DecodeFromIgnored(NonEmpty(s), post);
  }
}
