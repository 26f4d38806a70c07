/**
 * The Truco rule engine for one two-player match. Every entry point takes a
 * game state and returns a new one or a domain error; nothing is mutated.
 *
 * The source keeps per-player data in objects keyed by player id. They are
 * maps here; `seats` records the key order of `wonTricks` (the two ids in the
 * order the game was initialised with), which is what `Object.keys` yields;
 * the invariant `Valid` keeps the keys of `hands` and `wonTricks` equal to
 * the two seats.
 * Randomness is passed in: `freshDeck` stands for the shuffled deck `createDeck`
 * returned, `pick` for the random choice of the first hand starter.
 */
module Engine {
  import opened Results
  import opened Cards
  import opened Envido

  type PlayerId = string

  /** The winning score: 15 or 30. */
  type MaxPoints = n: int | n == 15 || n == 30 witness 15

  datatype GameConfig = GameConfig(maxPoints: MaxPoints, withFlor: bool)

  datatype Phase = FlorPhase | EnvidoPhase | TrucoPhase | PlayingPhase

  datatype CallType = TrucoCall | EnvidoCall | RealEnvidoCall | FaltaEnvidoCall | FlorCall

  predicate IsEnvidoKind(kind: CallType) {
    kind == EnvidoCall || kind == RealEnvidoCall || kind == FaltaEnvidoCall
  }

  datatype Call = Call(kind: CallType, level: int, caller: PlayerId, points: Option<int>)

  datatype Play = Play(playerId: PlayerId, card: Card)

  datatype Trick = Trick(plays: seq<Play>, winnerId: Option<PlayerId>)

  datatype GameState = GameState(
    deck: seq<Card>,
    hands: map<PlayerId, seq<Card>>,
    table: Trick,
    wonTricks: map<PlayerId, int>,
    turnPlayerId: PlayerId,
    handStarterId: PlayerId,
    roundNumber: int,
    call: Option<Call>,
    accepted: bool,
    scores: map<PlayerId, int>,
    winnerId: Option<PlayerId>,
    phase: Phase,
    config: GameConfig,
    envidoPoints: map<PlayerId, int>,
    florCalled: bool,
    envidoCalled: bool,
    seats: seq<PlayerId>)

  datatype EngineError =
    | WrongPlayerCount     // "Truco requires exactly 2 players"
    | InvalidCardPlay      // "Invalid card play"
    | TrickNotComplete     // "Trick must have exactly 2 cards"
    | NotEnvidoPhase       // "Cannot call Envido in this phase"
    | EnvidoAlreadyCalled  // "Envido already called this hand"
    | NotFlorPhase         // "Cannot call Flor in this phase"
    | FlorAlreadyCalled    // "Flor already called this hand"
    | NoFlorInHand         // "Player does not have Flor"
    | NoCall               // "No call to respond to"
    | OwnCall              // "Cannot respond to your own call"

  /**
   * The state invariant every entry point keeps: two distinct seats, hands
   * and trick counters for exactly those two, a score for each, turn and hand
   * starter among them, only seated players on the table, round 1..3.
   */
  ghost predicate Valid(g: GameState) {
    && |g.seats| == 2 && g.seats[0] != g.seats[1]
    && g.hands.Keys == {g.seats[0], g.seats[1]}
    && g.wonTricks.Keys == {g.seats[0], g.seats[1]}
    && g.seats[0] in g.scores && g.seats[1] in g.scores
    && Seated(g.seats, g.turnPlayerId) && Seated(g.seats, g.handStarterId)
    && (forall i :: 0 <= i < |g.table.plays| ==> Seated(g.seats, g.table.plays[i].playerId))
    && 1 <= g.roundNumber <= 3
  }

  predicate Seated(seats: seq<PlayerId>, p: PlayerId)
    requires |seats| == 2
  {
    p == seats[0] || p == seats[1]
  }

  // ---------------------------------------------------------------------
  // Lookups with the source's `|| []` and `|| 0` defaults

  function HandOf(g: GameState, p: PlayerId): seq<Card> {
    if p in g.hands then g.hands[p] else []
  }

  function ScoreOf(scores: map<PlayerId, int>, p: PlayerId): int {
    if p in scores then scores[p] else 0
  }

  function TricksOf(wonTricks: map<PlayerId, int>, p: PlayerId): int {
    if p in wonTricks then wonTricks[p] else 0
  }

  /** `indexOf`: the first position of `x`, or -1. */
  function IndexOf(s: seq<PlayerId>, x: PlayerId): (k: int)
    ensures -1 <= k < |s|
    ensures k >= 0 ==> s[k] == x && forall j :: 0 <= j < k ==> s[j] != x
    ensures k == -1 ==> x !in s
  {
    if s == [] then -1
    else if s[0] == x then 0
    else
      var k := IndexOf(s[1..], x);
      if k == -1 then -1 else k + 1
  }

  /** The seat after `p` in key order, wrapping around: `(indexOf + 1) % length`. */
  function NextSeat(seats: seq<PlayerId>, p: PlayerId): PlayerId
    requires |seats| > 0
  {
    seats[(IndexOf(seats, p) + 1) % |seats|]
  }

  lemma NextSeatIsOther(seats: seq<PlayerId>, p: PlayerId)
    requires |seats| == 2 && seats[0] != seats[1] && p in seats
    ensures NextSeat(seats, p) in seats && NextSeat(seats, p) != p
  {
    if p == seats[0] {
      assert IndexOf(seats, p) == 0;
    } else {
      assert IndexOf(seats, p) == 1;
    }
  }

  /** `findIndex` on card ids: the first position holding `cardId`, or -1. */
  function FindCard(hand: seq<Card>, cardId: string): (k: int)
    ensures -1 <= k < |hand|
    ensures k >= 0 ==> hand[k].id == cardId && forall j :: 0 <= j < k ==> hand[j].id != cardId
    ensures k == -1 ==> forall j :: 0 <= j < |hand| ==> hand[j].id != cardId
  {
    if hand == [] then -1
    else if hand[0].id == cardId then 0
    else
      var k := FindCard(hand[1..], cardId);
      if k == -1 then -1 else k + 1
  }

  /** The key order of `{ [ids[0]]: 0, [ids[1]]: 0 }`: one key when both ids are equal. */
  function KeyOrder(ids: seq<PlayerId>): (keys: seq<PlayerId>)
    requires |ids| == 2
  {
    if ids[0] == ids[1] then [ids[0]] else ids
  }

  // ---------------------------------------------------------------------
  // Dealing

  /** The order in which `dealCards` serves players: three rounds, round-robin. */
  function Schedule(ids: seq<PlayerId>): seq<PlayerId> {
    ids + ids + ids
  }

  /** Where round `k` (0, 1, 2, or 3 for the end) of the schedule starts. */
  function RoundStart(n: nat, k: nat): nat
    requires k <= 3
  {
    if k == 0 then 0 else if k == 1 then n else if k == 2 then n + n else n + n + n
  }

  /** Round `k` of the schedule serves every id once, in order. */
  lemma ScheduleRound(ids: seq<PlayerId>, k: nat)
    requires k < 3
    ensures var st := RoundStart(|ids|, k);
      && st + |ids| <= |Schedule(ids)|
      && (forall i :: 0 <= i < |ids| ==> Schedule(ids)[st + i] == ids[i])
      && RoundStart(|ids|, k + 1) == st + |ids|
  {
    var n := |ids|;
    var s := Schedule(ids);
    var st := RoundStart(n, k);
    forall i | 0 <= i < n ensures s[st + i] == ids[i] {
      if k == 1 {
        assert s == (ids + ids) + ids && (ids + ids)[n + i] == ids[i];
      } else if k == 2 {
        assert s == (ids + ids) + ids;
      }
    }
  }

  /** The hands after the first `t` steps of the schedule `sched`, starting
      from an empty hand for each of `ids`; step t hands card t to its player
      when the deck still has a card t. */
  function DealHands(deck: seq<Card>, ids: seq<PlayerId>, sched: seq<PlayerId>, t: nat): (h: map<PlayerId, seq<Card>>)
    requires t <= |sched|
  {
    if t == 0 then map p | p in ids :: []
    else
      var h := DealHands(deck, ids, sched, t - 1);
      var p := sched[t - 1];
      if t - 1 < |deck| then h[p := HandIn(h, p) + [deck[t - 1]]] else h
  }

  /** One more step of the schedule. */
  lemma DealStep(deck: seq<Card>, ids: seq<PlayerId>, sched: seq<PlayerId>, t: nat, p: PlayerId)
    requires t < |sched| && sched[t] == p
    ensures var h := DealHands(deck, ids, sched, t);
      DealHands(deck, ids, sched, t + 1) == if t < |deck| then h[p := HandIn(h, p) + [deck[t]]] else h
  {
  }

  function HandIn(h: map<PlayerId, seq<Card>>, p: PlayerId): seq<Card> {
    if p in h then h[p] else []
  }

  /** Every scheduled player, and no one else, has a hand. */
  lemma {:induction false} DealHandsKeys(deck: seq<Card>, ids: seq<PlayerId>, t: nat)
    requires t <= |Schedule(ids)|
    ensures DealHands(deck, ids, Schedule(ids), t).Keys == set p | p in ids
  {
    if t > 0 {
      DealHandsKeys(deck, ids, t - 1);
      assert Schedule(ids)[t - 1] in ids;
    }
  }

  datatype Dealt = Dealt(hands: map<PlayerId, seq<Card>>, remainingDeck: seq<Card>)

  /** The specification of `dealCards`. */
  function Deal(deck: seq<Card>, ids: seq<PlayerId>): Dealt {
    var steps := |Schedule(ids)|;
    Dealt(DealHands(deck, ids, Schedule(ids), steps), deck[if steps < |deck| then steps else |deck|..])
  }

  /** With two ids, the dealt hands belong to exactly those two. */
  lemma DealKeys(deck: seq<Card>, ids: seq<PlayerId>)
    requires |ids| == 2
    ensures Deal(deck, ids).hands.Keys == {ids[0], ids[1]}
  {
    DealHandsKeys(deck, ids, |Schedule(ids)|);
    assert (set p | p in ids) == {ids[0], ids[1]};
  }

  /** Two distinct players and a deck of at least six cards: the first player
      gets cards 0, 2, 4, the second 1, 3, 5, and the rest stays in the deck. */
  lemma TwoPlayerDeal(deck: seq<Card>, ids: seq<PlayerId>)
    requires |ids| == 2 && ids[0] != ids[1] && |deck| >= 6
    ensures Deal(deck, ids).hands == map[ids[0] := [deck[0], deck[2], deck[4]], ids[1] := [deck[1], deck[3], deck[5]]]
    ensures Deal(deck, ids).remainingDeck == deck[6..]
  {
    var s := Schedule(ids);
    var a, b := ids[0], ids[1];
    assert s == [a, b, a, b, a, b];
    assert s[0] == a && s[1] == b;
    var h0 := DealHands(deck, ids, s, 0);
    assert h0[a] == [] && h0[b] == [];
    var h1 := DealHands(deck, ids, s, 1);
    assert h1[a] == [deck[0]] && h1[b] == [];
    var h2 := DealHands(deck, ids, s, 2);
    assert h2[a] == [deck[0]] && h2[b] == [deck[1]];
    var h3 := DealHands(deck, ids, s, 3);
    assert h3[a] == [deck[0], deck[2]] && h3[b] == [deck[1]];
    var h4 := DealHands(deck, ids, s, 4);
    assert h4[a] == [deck[0], deck[2]] && h4[b] == [deck[1], deck[3]];
    var h5 := DealHands(deck, ids, s, 5);
    assert h5[a] == [deck[0], deck[2], deck[4]] && h5[b] == [deck[1], deck[3]];
    var h6 := DealHands(deck, ids, s, 6);
    assert h6[a] == [deck[0], deck[2], deck[4]] && h6[b] == [deck[1], deck[3], deck[5]];
    DealKeys(deck, ids);
  }

  /** The first loop of `dealCards`: an empty hand for every player. */
  method EmptyHands(playerIds: seq<PlayerId>) returns (hands: map<PlayerId, seq<Card>>)
    ensures hands == map p | p in playerIds :: []
  {
    hands := map[];
    for i := 0 to |playerIds|
      invariant hands == map p | p in playerIds[..i] :: []
    {
      hands := hands[playerIds[i] := []];
      assert playerIds[..i + 1] == playerIds[..i] + [playerIds[i]];
    }
    assert playerIds[..|playerIds|] == playerIds;
  }

  /** One pass of `dealCards`' inner loop: each player in turn takes the card
      at `deckIndex` while the deck lasts. `t` counts the steps taken so far. */
  method DealRound(deck: seq<Card>, playerIds: seq<PlayerId>, hands0: map<PlayerId, seq<Card>>, deckIndex0: nat,
                   ghost sched: seq<PlayerId>, ghost t0: nat)
    returns (hands: map<PlayerId, seq<Card>>, deckIndex: nat, ghost t: nat)
    requires t0 + |playerIds| <= |sched|
    requires forall i :: 0 <= i < |playerIds| ==> sched[t0 + i] == playerIds[i]
    requires deckIndex0 == if t0 < |deck| then t0 else |deck|
    requires hands0 == DealHands(deck, playerIds, sched, t0)
    ensures t == t0 + |playerIds|
    ensures deckIndex == if t < |deck| then t else |deck|
    ensures hands == DealHands(deck, playerIds, sched, t)
  {
    hands, deckIndex, t := hands0, deckIndex0, t0 + |playerIds|;
    for i := 0 to |playerIds|
      invariant deckIndex == if t0 + i < |deck| then t0 + i else |deck|
      invariant hands == DealHands(deck, playerIds, sched, t0 + i)
    {
      var playerId := playerIds[i];
      DealStep(deck, playerIds, sched, t0 + i, playerId);
      if deckIndex < |deck| {
        hands := hands[playerId := HandIn(hands, playerId) + [deck[deckIndex]]];
        deckIndex := deckIndex + 1;
      }
    }
  }

  /** The source's `dealCards`: three rounds over the players, each taking the
      next card while the deck lasts. */
  method DealCards(deck: seq<Card>, playerIds: seq<PlayerId>) returns (hands: map<PlayerId, seq<Card>>, remainingDeck: seq<Card>)
    ensures hands == Deal(deck, playerIds).hands
    ensures remainingDeck == Deal(deck, playerIds).remainingDeck
  {
    ghost var sched := Schedule(playerIds);
    hands := EmptyHands(playerIds);
    assert hands == DealHands(deck, playerIds, sched, 0);
    var deckIndex: nat := 0;
    ghost var t: nat := 0;
    for cardNum := 0 to 3
      invariant t == RoundStart(|playerIds|, cardNum) && t <= |sched|
      invariant deckIndex == if t < |deck| then t else |deck|
      invariant hands == DealHands(deck, playerIds, sched, t)
    {
      ScheduleRound(playerIds, cardNum);
      hands, deckIndex, t := DealRound(deck, playerIds, hands, deckIndex, sched, t);
    }
    remainingDeck := deck[deckIndex..];
  }

  // ---------------------------------------------------------------------
  // Starting a game and a new hand

  /** The source's `initializeGame`; the starter is `playerIds[pick % 2]`. */
  function InitializeGame(playerIds: seq<PlayerId>, config: GameConfig, freshDeck: seq<Card>, pick: nat): (r: Result<GameState, EngineError>)
    ensures r.Failure? <==> |playerIds| != 2
    ensures r.Success? ==>
      && r.value.scores.Keys == r.value.wonTricks.Keys == {playerIds[0], playerIds[1]}
      && (forall p :: p in r.value.scores ==> r.value.scores[p] == 0 && r.value.wonTricks[p] == 0)
      && r.value.roundNumber == 1
      && r.value.turnPlayerId == r.value.handStarterId
      && r.value.handStarterId in playerIds
      && (r.value.phase == FlorPhase <==> config.withFlor)
      && (r.value.phase == EnvidoPhase <==> !config.withFlor)
      && r.value.call.None? && r.value.winnerId.None? && r.value.table.plays == []
    ensures r.Success? && playerIds[0] != playerIds[1] ==> Valid(r.value)
  {
    if |playerIds| != 2 then Failure(WrongPlayerCount)
    else
      var dealt := Deal(freshDeck, playerIds);
      DealKeys(freshDeck, playerIds);
      var starter := playerIds[pick % 2];
      Success(GameState(
        deck := dealt.remainingDeck,
        hands := dealt.hands,
        table := Trick([], None),
        wonTricks := map[playerIds[0] := 0, playerIds[1] := 0],
        turnPlayerId := starter,
        handStarterId := starter,
        roundNumber := 1,
        call := None,
        accepted := false,
        scores := map[playerIds[0] := 0, playerIds[1] := 0],
        winnerId := None,
        phase := if config.withFlor then FlorPhase else EnvidoPhase,
        config := config,
        envidoPoints := map[],
        florCalled := false,
        envidoCalled := false,
        seats := KeyOrder(playerIds)))
  }

  /** A game started from a Spanish deck deals three cards to each player and keeps 34. */
  lemma InitialDeal(playerIds: seq<PlayerId>, config: GameConfig, freshDeck: seq<Card>, pick: nat)
    requires |playerIds| == 2 && playerIds[0] != playerIds[1] && IsSpanishDeck(freshDeck)
    ensures var g := InitializeGame(playerIds, config, freshDeck, pick).value;
      |g.hands[playerIds[0]]| == 3 && |g.hands[playerIds[1]]| == 3 && |g.deck| == 34
  {
    TwoPlayerDeal(freshDeck, playerIds);
  }

  /** The source's `startNewHand`: re-deal from `freshDeck`, pass the hand-starter
      role to the next player, and reset everything but scores and winner. */
  function StartNewHand(g: GameState, playerIds: seq<PlayerId>, freshDeck: seq<Card>): (r: GameState)
    requires |playerIds| == 2
    ensures r.scores == g.scores && r.winnerId == g.winnerId && r.config == g.config
    ensures r.roundNumber == 1 && r.table == Trick([], None) && r.call.None? && !r.accepted
    ensures forall p :: p in r.wonTricks ==> r.wonTricks[p] == 0
    ensures !r.florCalled && !r.envidoCalled && r.envidoPoints == map[]
    ensures r.hands == Deal(freshDeck, playerIds).hands && r.deck == Deal(freshDeck, playerIds).remainingDeck
  {
    var dealt := Deal(freshDeck, playerIds);
    var newHandStarter := NextSeat(playerIds, g.handStarterId);
    g.(
      deck := dealt.remainingDeck,
      hands := dealt.hands,
      table := Trick([], None),
      wonTricks := map[playerIds[0] := 0, playerIds[1] := 0],
      turnPlayerId := newHandStarter,
      handStarterId := newHandStarter,
      roundNumber := 1,
      call := None,
      accepted := false,
      phase := if g.config.withFlor then FlorPhase else EnvidoPhase,
      envidoPoints := map[],
      florCalled := false,
      envidoCalled := false,
      seats := KeyOrder(playerIds))
  }

  /** A new hand is started by the other player, who also leads it, and opens
      with Flor when the game plays Flor and with Envido otherwise. */
  lemma NewHandPassesStarter(g: GameState, playerIds: seq<PlayerId>, freshDeck: seq<Card>)
    requires |playerIds| == 2 && playerIds[0] != playerIds[1] && g.handStarterId in playerIds
    ensures var r := StartNewHand(g, playerIds, freshDeck);
      && r.handStarterId in playerIds && r.handStarterId != g.handStarterId
      && r.turnPlayerId == r.handStarterId
      && (r.phase == FlorPhase <==> g.config.withFlor) && (r.phase == EnvidoPhase <==> !g.config.withFlor)
  {
    NextSeatIsOther(playerIds, g.handStarterId);
  }

  /** A new hand between two distinct scored players satisfies the invariant. */
  lemma NewHandValid(g: GameState, playerIds: seq<PlayerId>, freshDeck: seq<Card>)
    requires |playerIds| == 2 && playerIds[0] != playerIds[1]
    requires playerIds[0] in g.scores && playerIds[1] in g.scores
    ensures Valid(StartNewHand(g, playerIds, freshDeck)) && StartNewHand(g, playerIds, freshDeck).seats == playerIds
  {
    DealKeys(freshDeck, playerIds);
  }

  /** The hand-starter role alternates: two new hands in a row give it back. */
  lemma {:induction false} StarterAlternates(g: GameState, playerIds: seq<PlayerId>, deck1: seq<Card>, deck2: seq<Card>)
    requires |playerIds| == 2 && playerIds[0] != playerIds[1] && g.handStarterId in playerIds
    ensures StartNewHand(StartNewHand(g, playerIds, deck1), playerIds, deck2).handStarterId == g.handStarterId
  {
    var h := StartNewHand(g, playerIds, deck1);
    NewHandPassesStarter(g, playerIds, deck1);
    NewHandPassesStarter(h, playerIds, deck2);
  }

  // ---------------------------------------------------------------------
  // Tricks and hands

  /** The player of the stronger card; on a tie, the first player. */
  function TrickWinner(first: Play, second: Play): (w: PlayerId)
    ensures w == first.playerId || w == second.playerId
    ensures CompareCards(first.card, second.card) >= 0 ==> w == first.playerId
    ensures CompareCards(first.card, second.card) < 0 ==> w == second.playerId
  {
    var comparison := CompareCards(first.card, second.card);
    if comparison > 0 then first.playerId
    else if comparison < 0 then second.playerId
    else first.playerId
  }

  /** The source's `evaluateTrick`. */
  function EvaluateTrick(trick: Trick): (r: Result<PlayerId, EngineError>)
    ensures r.Failure? <==> |trick.plays| != 2
    ensures r.Success? ==> r.value == TrickWinner(trick.plays[0], trick.plays[1])
  {
    if |trick.plays| != 2 then Failure(TrickNotComplete)
    else Success(TrickWinner(trick.plays[0], trick.plays[1]))
  }

  /** The trick winner's card is at least as strong as the other one, and the
      second player takes the trick only with a strictly stronger card. */
  lemma TrickWinnerStrongest(trick: Trick)
    requires |trick.plays| == 2 && trick.plays[0].playerId != trick.plays[1].playerId
    ensures var w := EvaluateTrick(trick).value;
      var (won, lost) := if w == trick.plays[0].playerId then (trick.plays[0], trick.plays[1]) else (trick.plays[1], trick.plays[0]);
      CardStrength(won.card) >= CardStrength(lost.card)
    ensures EvaluateTrick(trick).value == trick.plays[1].playerId <==>
      CardStrength(trick.plays[1].card) > CardStrength(trick.plays[0].card)
  {
  }

  /** The source's `determineHandWinner`: more tricks wins, a tie goes to the hand starter. */
  function DetermineHandWinner(g: GameState): (w: PlayerId)
    requires |g.seats| == 2
    ensures w in g.seats || w == g.handStarterId
    ensures var other := if w == g.seats[0] then g.seats[1] else g.seats[0];
      w != g.handStarterId ==> TricksOf(g.wonTricks, w) > TricksOf(g.wonTricks, other)
    ensures TricksOf(g.wonTricks, g.seats[0]) > TricksOf(g.wonTricks, g.seats[1]) ==> w == g.seats[0]
    ensures TricksOf(g.wonTricks, g.seats[1]) > TricksOf(g.wonTricks, g.seats[0]) ==> w == g.seats[1]
    ensures TricksOf(g.wonTricks, g.seats[0]) == TricksOf(g.wonTricks, g.seats[1]) ==> w == g.handStarterId
  {
    var player1, player2 := g.seats[0], g.seats[1];
    var tricks1 := TricksOf(g.wonTricks, player1);
    var tricks2 := TricksOf(g.wonTricks, player2);
    if tricks1 > tricks2 then player1
    else if tricks2 > tricks1 then player2
    else g.handStarterId
  }

  /** The source's `calculateHandPoints`: 1 without a call, level + 1 for an
      accepted call, level for a call still unanswered. */
  function CalculateHandPoints(g: GameState): (points: int)
    ensures g.call.None? ==> points == 1
    ensures g.call.Some? && g.accepted ==> points == g.call.value.level + 1
    ensures g.call.Some? && !g.accepted ==> points == g.call.value.level
  {
    match g.call
    case Some(c) => if g.accepted then c.level + 1 else c.level
    case None => 1
  }

  // ---------------------------------------------------------------------
  // Playing a card

  /** The source's `canPlayCard`: it is the player's turn and the card id is in their hand. */
  predicate CanPlayCard(g: GameState, playerId: PlayerId, cardId: string) {
    g.turnPlayerId == playerId && exists c :: c in HandOf(g, playerId) && c.id == cardId
  }

  lemma CanPlayCardFinds(g: GameState, playerId: PlayerId, cardId: string)
    ensures CanPlayCard(g, playerId, cardId) <==>
      g.turnPlayerId == playerId && FindCard(HandOf(g, playerId), cardId) >= 0
  {
    if FindCard(HandOf(g, playerId), cardId) == -1 {
      forall c | c in HandOf(g, playerId) ensures c.id != cardId {
        var j :| 0 <= j < |HandOf(g, playerId)| && HandOf(g, playerId)[j] == c;
      }
    }
  }

  function RemoveAt(hand: seq<Card>, k: nat): (r: seq<Card>)
    requires k < |hand|
  {
    hand[..k] + hand[k + 1..]
  }

  /** Removing position `k` loses exactly that card. */
  lemma RemoveAtLosesOne(hand: seq<Card>, k: nat)
    requires k < |hand|
    ensures |RemoveAt(hand, k)| == |hand| - 1
    ensures multiset(RemoveAt(hand, k)) + multiset{hand[k]} == multiset(hand)
  {
    assert hand == hand[..k] + [hand[k]] + hand[k + 1..];
  }

  /** The card of the player's hand that carries `cardId` (the first one). */
  function PlayedCard(g: GameState, playerId: PlayerId, cardId: string): Card
    requires FindCard(HandOf(g, playerId), cardId) >= 0
  {
    HandOf(g, playerId)[FindCard(HandOf(g, playerId), cardId)]
  }

  /** The player's hand without that card. */
  function HandAfterPlay(g: GameState, playerId: PlayerId, cardId: string): seq<Card>
    requires FindCard(HandOf(g, playerId), cardId) >= 0
  {
    RemoveAt(HandOf(g, playerId), FindCard(HandOf(g, playerId), cardId))
  }

  /** The card leaves the player's hand and is appended to the trick. */
  function PlaceCard(g: GameState, playerId: PlayerId, cardId: string): GameState
    requires FindCard(HandOf(g, playerId), cardId) >= 0
  {
    g.(hands := g.hands[playerId := HandAfterPlay(g, playerId, cardId)],
       table := g.table.(plays := g.table.plays + [Play(playerId, PlayedCard(g, playerId, cardId))]))
  }

  /** A trick of two plays is recorded: its winner is set and gains one trick. */
  function CountTrick(s: GameState): GameState
    requires |s.table.plays| == 2
  {
    var trickWinner := TrickWinner(s.table.plays[0], s.table.plays[1]);
    s.(table := s.table.(winnerId := Some(trickWinner)),
       wonTricks := s.wonTricks[trickWinner := TricksOf(s.wonTricks, trickWinner) + 1])
  }

  /** A hand ends once a player holds two tricks or the third round is played. */
  predicate HandOver(s: GameState)
    requires |s.seats| == 2
  {
    Envido.Max(TricksOf(s.wonTricks, s.seats[0]), TricksOf(s.wonTricks, s.seats[1])) >= 2 || s.roundNumber == 3
  }

  /** The hand winner scores `calculateHandPoints`. */
  function ScoreHand(s: GameState): GameState
    requires |s.seats| == 2
  {
    var handWinner := DetermineHandWinner(s);
    s.(scores := s.scores[handWinner := ScoreOf(s.scores, handWinner) + CalculateHandPoints(s)])
  }

  /** Resolving a complete trick: count it for its winner, then either start the
      next round led by that winner, or score the hand and end the game or
      deal a new hand from `freshDeck`. */
  function CloseTrick(s: GameState, freshDeck: seq<Card>): GameState
    requires |s.table.plays| == 2 && |s.seats| == 2
  {
    var trickWinner := TrickWinner(s.table.plays[0], s.table.plays[1]);
    var s1 := CountTrick(s);
    if HandOver(s1) then
      var handWinner := DetermineHandWinner(s1);
      var s2 := ScoreHand(s1);
      if s2.scores[handWinner] >= s2.config.maxPoints then s2.(winnerId := Some(handWinner))
      else StartNewHand(s2, s2.seats, freshDeck)
    else
      s1.(roundNumber := s1.roundNumber + 1, table := Trick([], None), turnPlayerId := trickWinner)
  }

  lemma PlaceCardValid(g: GameState, playerId: PlayerId, cardId: string)
    requires Valid(g) && CanPlayCard(g, playerId, cardId) && FindCard(HandOf(g, playerId), cardId) >= 0
    ensures Valid(PlaceCard(g, playerId, cardId))
  {
    var s := PlaceCard(g, playerId, cardId);
    forall i | 0 <= i < |s.table.plays| ensures Seated(s.seats, s.table.plays[i].playerId) {
      if i < |g.table.plays| {
        assert s.table.plays[i] == g.table.plays[i];
      }
    }
  }

  lemma CountTrickValid(s: GameState)
    requires Valid(s) && |s.table.plays| == 2
    ensures Seated(s.seats, TrickWinner(s.table.plays[0], s.table.plays[1]))
    ensures Valid(CountTrick(s))
  {
  }

  lemma ScoreHandValid(s: GameState)
    requires Valid(s)
    ensures Seated(s.seats, DetermineHandWinner(s))
    ensures Valid(ScoreHand(s))
  {
  }

  /** Resolving a trick keeps the state invariant. */
  lemma CloseTrickValid(s: GameState, freshDeck: seq<Card>)
    requires Valid(s) && |s.table.plays| == 2
    ensures Valid(CloseTrick(s, freshDeck))
  {
    CountTrickValid(s);
    var s1 := CountTrick(s);
    if HandOver(s1) {
      ScoreHandValid(s1);
      var s2 := ScoreHand(s1);
      NewHandValid(s2, s2.seats, freshDeck);
    }
  }

  /** The specification of `playCard`. */
  function PlayOutcome(g: GameState, playerId: PlayerId, cardId: string, freshDeck: seq<Card>): (r: Result<GameState, EngineError>)
    requires |g.seats| == 2
    ensures r.Failure? <==> !CanPlayCard(g, playerId, cardId)
  {
    CanPlayCardFinds(g, playerId, cardId);
    if !CanPlayCard(g, playerId, cardId) then Failure(InvalidCardPlay)
    else
      var s := PlaceCard(g, playerId, cardId);
      if |s.table.plays| == 2 then Success(CloseTrick(s, freshDeck))
      else Success(s.(turnPlayerId := NextSeat(s.seats, playerId)))
  }

  /** The trick-completion block of the source's `playCard`: count the trick,
      then either score the hand (ending the game or dealing a new hand) or
      open the next round led by the trick's winner. */
  method ResolveTrick(s: GameState, freshDeck: seq<Card>) returns (newState: GameState)
    requires |s.table.plays| == 2 && |s.seats| == 2
    ensures newState == CloseTrick(s, freshDeck)
  {
    var trickWinner := EvaluateTrick(s.table).value;
    newState := CountTrick(s);
    var playerIds := newState.seats;
    if HandOver(newState) {
      var handWinner := DetermineHandWinner(newState);
      newState := ScoreHand(newState);
      if newState.scores[handWinner] >= newState.config.maxPoints {
        newState := newState.(winnerId := Some(handWinner));
      } else {
        newState := StartNewHand(newState, playerIds, freshDeck);
      }
    } else {
      newState := newState.(roundNumber := newState.roundNumber + 1, table := Trick([], None), turnPlayerId := trickWinner);
    }
  }

  /** The source's `playCard`, step by step on a copy of the state. */
  method PlayCard(g: GameState, playerId: PlayerId, cardId: string, freshDeck: seq<Card>) returns (r: Result<GameState, EngineError>)
    requires Valid(g)
    ensures r == PlayOutcome(g, playerId, cardId, freshDeck)
    ensures r.Success? ==> Valid(r.value)
  {
    CanPlayCardFinds(g, playerId, cardId);
    if !CanPlayCard(g, playerId, cardId) {
      return Failure(InvalidCardPlay);
    }
    PlayCardKeepsValid(g, playerId, cardId, freshDeck);
    var newState := g;
    // The source's second check ("Card not found in player's hand") cannot
    // fail once `canPlayCard` has passed.
    newState := PlaceCard(newState, playerId, cardId);
    if |newState.table.plays| == 2 {
      newState := ResolveTrick(newState, freshDeck);
    } else {
      var playerIds := newState.seats;
      newState := newState.(turnPlayerId := NextSeat(playerIds, playerId));
    }
    return Success(newState);
  }

  /** Playing a card keeps the state invariant. */
  lemma PlayCardKeepsValid(g: GameState, playerId: PlayerId, cardId: string, freshDeck: seq<Card>)
    requires Valid(g)
    ensures PlayOutcome(g, playerId, cardId, freshDeck).Success? ==> Valid(PlayOutcome(g, playerId, cardId, freshDeck).value)
  {
    CanPlayCardFinds(g, playerId, cardId);
    if CanPlayCard(g, playerId, cardId) {
      PlaceCardValid(g, playerId, cardId);
      var s := PlaceCard(g, playerId, cardId);
      if |s.table.plays| == 2 {
        CloseTrickValid(s, freshDeck);
      } else {
        NextSeatIsOther(s.seats, playerId);
      }
    }
  }

  /** Before a trick is complete, playing moves exactly the chosen card from the
      player's hand to the trick, leaves the other hand alone, and passes the
      turn to the other player. */
  lemma PlayCardMidTrick(g: GameState, playerId: PlayerId, cardId: string, freshDeck: seq<Card>)
    requires Valid(g) && CanPlayCard(g, playerId, cardId) && |g.table.plays| != 1
    ensures FindCard(HandOf(g, playerId), cardId) >= 0
    ensures var r := PlayOutcome(g, playerId, cardId, freshDeck).value;
      && r.hands == g.hands[playerId := HandAfterPlay(g, playerId, cardId)]
      && multiset(r.hands[playerId]) + multiset{PlayedCard(g, playerId, cardId)} == multiset(g.hands[playerId])
      && r.table.plays == g.table.plays + [Play(playerId, PlayedCard(g, playerId, cardId))]
      && r.turnPlayerId in g.seats && r.turnPlayerId != playerId
      && r.wonTricks == g.wonTricks && r.scores == g.scores
      && r.roundNumber == g.roundNumber && r.winnerId == g.winnerId
  {
    CanPlayCardFinds(g, playerId, cardId);
    NextSeatIsOther(g.seats, playerId);
    RemoveAtLosesOne(HandOf(g, playerId), FindCard(HandOf(g, playerId), cardId));
  }

  /** Closing a trick that does not end the hand: its winner (the stronger
      card, the first player on a tie) gains exactly one trick and leads the
      next round on a cleared table; hands and scores stay. */
  lemma CloseTrickNextRound(s: GameState, freshDeck: seq<Card>)
    requires Valid(s) && |s.table.plays| == 2 && !HandOver(CountTrick(s))
    ensures var w := EvaluateTrick(s.table).value;
      var r := CloseTrick(s, freshDeck);
      && Seated(s.seats, w)
      && r.wonTricks == s.wonTricks[w := s.wonTricks[w] + 1]
      && r.roundNumber == s.roundNumber + 1
      && r.table == Trick([], None)
      && r.turnPlayerId == w
      && r.hands == s.hands && r.scores == s.scores && r.winnerId == s.winnerId
  {
    CountTrickValid(s);
  }

  /** The score the hand winner reaches when a trick ends the hand. */
  function HandWinnerScore(s: GameState): int
    requires |s.seats| == 2 && |s.table.plays| == 2
  {
    var handWinner := DetermineHandWinner(CountTrick(s));
    ScoreOf(s.scores, handWinner) + CalculateHandPoints(s)
  }

  /** Closing a trick that ends the hand with the hand winner (more tricks, the
      hand starter on a tie) reaching `maxPoints`: that player alone scores
      `calculateHandPoints` and wins the game; hands and tricks stay as they are. */
  lemma CloseTrickWinsGame(s: GameState, freshDeck: seq<Card>)
    requires Valid(s) && |s.table.plays| == 2 && HandOver(CountTrick(s))
    requires HandWinnerScore(s) >= s.config.maxPoints
    ensures var counted := CountTrick(s);
      var handWinner := DetermineHandWinner(counted);
      var r := CloseTrick(s, freshDeck);
      && Seated(s.seats, handWinner)
      && r.scores == s.scores[handWinner := HandWinnerScore(s)]
      && r.winnerId == Some(handWinner)
      && r.wonTricks == counted.wonTricks && r.hands == s.hands
  {
    CountTrickValid(s);
    var s1 := CountTrick(s);
    ScoreHandValid(s1);
    var handWinner := DetermineHandWinner(s1);
    var s2 := ScoreHand(s1);
    assert s2.scores[handWinner] == HandWinnerScore(s);
    assert CloseTrick(s, freshDeck) == s2.(winnerId := Some(handWinner));
  }

  /** Closing a trick that ends the hand below `maxPoints`: the hand winner
      scores, and a new hand starts with the other hand starter leading, all
      trick counters at zero and fresh hands. */
  lemma CloseTrickNewHand(s: GameState, freshDeck: seq<Card>)
    requires Valid(s) && |s.table.plays| == 2 && HandOver(CountTrick(s))
    requires HandWinnerScore(s) < s.config.maxPoints
    ensures var handWinner := DetermineHandWinner(CountTrick(s));
      var r := CloseTrick(s, freshDeck);
      && Seated(s.seats, handWinner)
      && r.scores == s.scores[handWinner := HandWinnerScore(s)]
      && r.winnerId == s.winnerId
      && Seated(s.seats, r.handStarterId) && r.handStarterId != s.handStarterId
      && r.turnPlayerId == r.handStarterId
      && r.roundNumber == 1 && r.table == Trick([], None)
      && (forall p :: p in r.wonTricks ==> r.wonTricks[p] == 0)
      && r.hands == Deal(freshDeck, s.seats).hands
  {
    CountTrickValid(s);
    var s1 := CountTrick(s);
    ScoreHandValid(s1);
    var s2 := ScoreHand(s1);
    CloseTrickDealsAnew(s, freshDeck);
    NewHandPassesStarter(s2, s2.seats, freshDeck);
  }

  lemma CloseTrickDealsAnew(s: GameState, freshDeck: seq<Card>)
    requires Valid(s) && |s.table.plays| == 2 && HandOver(CountTrick(s))
    requires HandWinnerScore(s) < s.config.maxPoints
    ensures CloseTrick(s, freshDeck) == StartNewHand(ScoreHand(CountTrick(s)), s.seats, freshDeck)
  {
  }

  /** A hand re-dealt from a Spanish deck after a trick: each seat holds three
      cards again and 34 stay in the deck. */
  lemma CloseTrickRedeals(s: GameState, freshDeck: seq<Card>)
    requires Valid(s) && |s.table.plays| == 2 && HandOver(CountTrick(s))
    requires HandWinnerScore(s) < s.config.maxPoints
    requires IsSpanishDeck(freshDeck)
    ensures var r := CloseTrick(s, freshDeck);
      && r.hands.Keys == {s.seats[0], s.seats[1]}
      && |r.hands[s.seats[0]]| == 3 && |r.hands[s.seats[1]]| == 3 && |r.deck| == 34
  {
    CloseTrickDealsAnew(s, freshDeck);
    TwoPlayerDeal(freshDeck, s.seats);
  }

  // ---------------------------------------------------------------------
  // Envido and Flor calls

  function EnvidoLevel(kind: CallType): int
    requires IsEnvidoKind(kind)
  {
    if kind == EnvidoCall then 1 else if kind == RealEnvidoCall then 2 else 3
  }

  /** The source's `callEnvido`: only in the Envido phase and once per hand; the
      call records the caller's Envido value. */
  function CallEnvido(g: GameState, playerId: PlayerId, kind: CallType): (r: Result<GameState, EngineError>)
    requires IsEnvidoKind(kind)
    ensures r.Failure? <==> g.phase != EnvidoPhase || g.envidoCalled
    ensures r.Success? ==>
      && r.value.call == Some(Call(kind, EnvidoLevel(kind), playerId, Some(EnvidoValue(HandOf(g, playerId)))))
      && r.value.envidoCalled && !r.value.accepted
      && r.value == g.(call := r.value.call, accepted := false, envidoCalled := true)
    ensures r.Success? && Valid(g) ==> Valid(r.value)
  {
    if g.phase != EnvidoPhase then Failure(NotEnvidoPhase)
    else if g.envidoCalled then Failure(EnvidoAlreadyCalled)
    else
      var envidoPoints := EnvidoValue(HandOf(g, playerId));
      Success(g.(call := Some(Call(kind, EnvidoLevel(kind), playerId, Some(envidoPoints))),
                 accepted := false, envidoCalled := true))
  }

  /** The source's `callFlor`: only in the Flor phase, once per hand, and only
      with three cards of one suit; the call records the caller's Flor value. */
  function CallFlor(g: GameState, playerId: PlayerId): (r: Result<GameState, EngineError>)
    ensures r.Failure? <==> g.phase != FlorPhase || g.florCalled || !HasFlor(HandOf(g, playerId))
    ensures r.Success? ==>
      && r.value.call == Some(Call(FlorCall, 1, playerId, Some(FlorValue(HandOf(g, playerId)))))
      && r.value.florCalled && !r.value.accepted
      && r.value == g.(call := r.value.call, accepted := false, florCalled := true)
    ensures r.Success? && Valid(g) ==> Valid(r.value)
  {
    if g.phase != FlorPhase then Failure(NotFlorPhase)
    else if g.florCalled then Failure(FlorAlreadyCalled)
    else if !HasFlor(HandOf(g, playerId)) then Failure(NoFlorInHand)
    else
      var florPoints := FlorValue(HandOf(g, playerId));
      Success(g.(call := Some(Call(FlorCall, 1, playerId, Some(florPoints))),
                 accepted := false, florCalled := true))
  }

  /** Higher value wins; a tie goes to the hand starter. */
  function BetWinner(callerPoints: int, responderPoints: int, caller: PlayerId, responder: PlayerId, handStarter: PlayerId): (w: PlayerId)
    ensures callerPoints > responderPoints ==> w == caller
    ensures responderPoints > callerPoints ==> w == responder
    ensures callerPoints == responderPoints ==> w == handStarter
  {
    if callerPoints > responderPoints then caller
    else if responderPoints > callerPoints then responder
    else handStarter
  }

  /** The value recorded for an empty hand, standing in for any number `low`
      below every card value (the source's `-Infinity`). */
  function StandIn(v: int, low: int): int {
    if v < 0 then low else v
  }

  /** An Envido bet has the same winner whichever negative number stands for
      an empty hand: only the recorded value differs. */
  lemma BetWinnerStandIn(callerPoints: int, responderPoints: int, low: int, caller: PlayerId, responder: PlayerId, handStarter: PlayerId)
    requires callerPoints >= -1 && responderPoints >= -1 && low < 0
    ensures BetWinner(StandIn(callerPoints, low), StandIn(responderPoints, low), caller, responder, handStarter)
         == BetWinner(callerPoints, responderPoints, caller, responder, handStarter)
  {
  }

  /** Points for accepting an Envido-family call: 2, 3, or what the winner lacks to reach `maxPoints`. */
  function EnvidoAward(kind: CallType, maxPoints: int, winnerScore: int): int {
    if kind == RealEnvidoCall then 3
    else if kind == FaltaEnvidoCall then maxPoints - winnerScore
    else 2
  }

  /** Points the caller earns when the call is rejected. */
  function RejectionPoints(c: Call): (points: int)
    ensures IsEnvidoKind(c.kind) ==> points == 1
    ensures c.kind == FlorCall ==> points == 3
    ensures c.kind == TrucoCall ==> points == c.level
  {
    if IsEnvidoKind(c.kind) then 1
    else if c.kind == FlorCall then 3
    else c.level
  }

  /** Only `p`'s score changes, by `delta`; the key is added if it was missing. */
  ghost predicate OnlyScoreOf(before: map<PlayerId, int>, after: map<PlayerId, int>, p: PlayerId, delta: int) {
    && after.Keys == before.Keys + {p}
    && after[p] == ScoreOf(before, p) + delta
    && forall q :: q in before && q != p ==> after[q] == before[q]
  }

  function AddPoints(scores: map<PlayerId, int>, p: PlayerId, points: int): (r: map<PlayerId, int>)
    ensures OnlyScoreOf(scores, r, p, points)
  {
    scores[p := ScoreOf(scores, p) + points]
  }

  /** Accepting an Envido-family call: compare the caller's recorded value with
      the responder's, award the winner, record both values, move on to Truco. */
  function SettleEnvido(g: GameState, playerId: PlayerId): GameState
    requires g.call.Some? && IsEnvidoKind(g.call.value.kind)
  {
    var c := g.call.value;
    var responderPoints := EnvidoValue(HandOf(g, playerId));
    var callerPoints := c.points.GetOr(0);
    var winner := BetWinner(callerPoints, responderPoints, c.caller, playerId, g.handStarterId);
    var pointsToAward := EnvidoAward(c.kind, g.config.maxPoints, ScoreOf(g.scores, winner));
    g.(scores := AddPoints(g.scores, winner, pointsToAward),
       envidoPoints := map[c.caller := callerPoints, playerId := responderPoints],
       phase := TrucoPhase, call := None, accepted := false)
  }

  /** Accepting a Flor: with Flor on both sides the higher value takes 3 points,
      otherwise the caller does; move on to Envido. */
  function SettleFlor(g: GameState, playerId: PlayerId): GameState
    requires g.call.Some?
  {
    var c := g.call.value;
    var responderHand := HandOf(g, playerId);
    var winner :=
      if HasFlor(responderHand)
      then BetWinner(c.points.GetOr(0), FlorValue(responderHand), c.caller, playerId, g.handStarterId)
      else c.caller;
    g.(scores := AddPoints(g.scores, winner, 3), phase := EnvidoPhase, call := None, accepted := false)
  }

  /** Rejecting a call: the caller scores, the phase moves past a Flor or Envido
      call, and reaching `maxPoints` wins the game. */
  function Decline(g: GameState): GameState
    requires g.call.Some?
  {
    var c := g.call.value;
    var scores := AddPoints(g.scores, c.caller, RejectionPoints(c));
    g.(scores := scores,
       phase := if c.kind == FlorCall then EnvidoPhase else if IsEnvidoKind(c.kind) then TrucoPhase else g.phase,
       call := None, accepted := false,
       winnerId := if scores[c.caller] >= g.config.maxPoints then Some(c.caller) else g.winnerId)
  }

  /** What answering a call yields: there must be a call, and the caller cannot
      answer it. */
  function RespondOutcome(g: GameState, playerId: PlayerId, accept: bool): (r: Result<GameState, EngineError>)
    ensures r.Failure? <==> g.call.None? || g.call.value.caller == playerId
  {
    if g.call.None? then Failure(NoCall)
    else if g.call.value.caller == playerId then Failure(OwnCall)
    else if !accept then Success(Decline(g))
    else if IsEnvidoKind(g.call.value.kind) then Success(SettleEnvido(g, playerId))
    else if g.call.value.kind == FlorCall then Success(SettleFlor(g, playerId))
    else Success(g.(accepted := true))
  }

  /** The accepted-Envido block of the source's `respondToCall`. */
  method AcceptEnvido(g: GameState, playerId: PlayerId) returns (newState: GameState)
    requires g.call.Some? && IsEnvidoKind(g.call.value.kind)
    ensures newState == SettleEnvido(g, playerId)
  {
    var call := g.call.value;
    newState := g.(accepted := true);
    var responderPoints := EnvidoValue(HandOf(newState, playerId));
    var callerPoints := call.points.GetOr(0);
    var winner := BetWinner(callerPoints, responderPoints, call.caller, playerId, g.handStarterId);
    var pointsToAward := EnvidoAward(call.kind, newState.config.maxPoints, ScoreOf(newState.scores, winner));
    newState := newState.(scores := AddPoints(newState.scores, winner, pointsToAward));
    newState := newState.(envidoPoints := map[call.caller := callerPoints, playerId := responderPoints]);
    newState := newState.(phase := TrucoPhase, call := None, accepted := false);
  }

  /** The accepted-Flor block of the source's `respondToCall`. */
  method AcceptFlor(g: GameState, playerId: PlayerId) returns (newState: GameState)
    requires g.call.Some?
    ensures newState == SettleFlor(g, playerId)
  {
    var call := g.call.value;
    newState := g.(accepted := true);
    var responderHand := HandOf(newState, playerId);
    if HasFlor(responderHand) {
      var responderPoints := FlorValue(responderHand);
      var callerPoints := call.points.GetOr(0);
      var winner := BetWinner(callerPoints, responderPoints, call.caller, playerId, g.handStarterId);
      newState := newState.(scores := AddPoints(newState.scores, winner, 3));
    } else {
      newState := newState.(scores := AddPoints(newState.scores, call.caller, 3));
    }
    newState := newState.(phase := EnvidoPhase, call := None, accepted := false);
  }

  /** The rejection block of the source's `respondToCall`. */
  method DeclineCall(g: GameState) returns (newState: GameState)
    requires g.call.Some?
    ensures newState == Decline(g)
  {
    var call := g.call.value;
    newState := g;
    var points := RejectionPoints(call);
    var callerId := call.caller;
    newState := newState.(scores := AddPoints(newState.scores, callerId, points));
    var phase := newState.phase;
    if call.kind == FlorCall {
      phase := EnvidoPhase;
    } else if IsEnvidoKind(call.kind) {
      phase := TrucoPhase;
    }
    newState := newState.(phase := phase, call := None, accepted := false);
    if newState.scores[callerId] >= newState.config.maxPoints {
      newState := newState.(winnerId := Some(callerId));
    }
  }

  /**
   * The source's `respondToCall`, step by step on a copy of the state.
   * Accepting an Envido-family call or a Flor settles it at once; accepting
   * Truco only marks it accepted; rejecting pays the caller.
   */
  method RespondToCall(g: GameState, playerId: PlayerId, accept: bool) returns (r: Result<GameState, EngineError>)
    requires Valid(g)
    ensures r == RespondOutcome(g, playerId, accept)
    ensures r.Success? ==> Valid(r.value)
  {
    if g.call.None? {
      return Failure(NoCall);
    }
    var call := g.call.value;
    if call.caller == playerId {
      return Failure(OwnCall);
    }
    RespondKeepsValid(g, playerId, accept);
    var newState := g;
    if accept {
      if IsEnvidoKind(call.kind) {
        newState := AcceptEnvido(g, playerId);
      } else if call.kind == FlorCall {
        newState := AcceptFlor(g, playerId);
      } else {
        newState := newState.(accepted := true);
      }
    } else {
      newState := DeclineCall(g);
    }
    return Success(newState);
  }

  /** Answering a call changes only the scores, the phase, the call, its
      acceptance, the recorded Envido values and the game's winner: never the
      cards, the tricks, the turn or the round. */
  lemma RespondLeavesPlay(g: GameState, playerId: PlayerId, accept: bool)
    requires RespondOutcome(g, playerId, accept).Success?
    ensures var r := RespondOutcome(g, playerId, accept).value;
      r == g.(scores := r.scores, phase := r.phase, call := r.call, accepted := r.accepted,
              envidoPoints := r.envidoPoints, winnerId := r.winnerId)
  {
    var c := g.call.value;
    if !accept {
      assert RespondOutcome(g, playerId, accept).value == Decline(g);
    } else if IsEnvidoKind(c.kind) {
      assert RespondOutcome(g, playerId, accept).value == SettleEnvido(g, playerId);
    } else if c.kind == FlorCall {
      assert RespondOutcome(g, playerId, accept).value == SettleFlor(g, playerId);
    }
  }

  /** Answering a call keeps the state invariant. */
  lemma RespondKeepsValid(g: GameState, playerId: PlayerId, accept: bool)
    requires Valid(g) && RespondOutcome(g, playerId, accept).Success?
    ensures Valid(RespondOutcome(g, playerId, accept).value)
  {
    RespondLeavesPlay(g, playerId, accept);
    var r := RespondOutcome(g, playerId, accept).value;
    assert g.scores.Keys <= r.scores.Keys;
  }

  /** Rejecting: the caller alone gains 1 (Envido family), 3 (Flor) or the
      call's level (Truco); the call is cleared; the phase moves to Envido
      after Flor and to Truco after Envido; the caller wins the game on
      reaching `maxPoints`. */
  lemma RejectPaysCaller(g: GameState, playerId: PlayerId)
    requires g.call.Some? && g.call.value.caller != playerId
    ensures var c := g.call.value;
      var r := RespondOutcome(g, playerId, false).value;
      && OnlyScoreOf(g.scores, r.scores, c.caller, RejectionPoints(c))
      && r.call.None? && !r.accepted
      && r.phase == (if c.kind == FlorCall then EnvidoPhase else if IsEnvidoKind(c.kind) then TrucoPhase else g.phase)
      && (r.scores[c.caller] >= g.config.maxPoints ==> r.winnerId == Some(c.caller))
      && (r.scores[c.caller] < g.config.maxPoints ==> r.winnerId == g.winnerId)
  {
  }

  /** Accepting an Envido-family call: the higher Envido value wins (the hand
      starter on a tie) and alone scores 2, 3, or what it lacks to reach
      `maxPoints`; both values are recorded; play moves on to Truco. */
  lemma AcceptEnvidoSettles(g: GameState, playerId: PlayerId)
    requires g.call.Some? && g.call.value.caller != playerId && IsEnvidoKind(g.call.value.kind)
    ensures var c := g.call.value;
      var callerPoints := c.points.GetOr(0);
      var responderPoints := EnvidoValue(HandOf(g, playerId));
      var w := BetWinner(callerPoints, responderPoints, c.caller, playerId, g.handStarterId);
      var r := RespondOutcome(g, playerId, true).value;
      && (w == c.caller || w == playerId || w == g.handStarterId)
      && OnlyScoreOf(g.scores, r.scores, w, EnvidoAward(c.kind, g.config.maxPoints, ScoreOf(g.scores, w)))
      && r.envidoPoints == map[c.caller := callerPoints, playerId := responderPoints]
      && r.phase == TrucoPhase && r.call.None? && !r.accepted
      && r.winnerId == g.winnerId
  {
  }

  /** Accepted Falta Envido brings its winner to exactly `maxPoints`, yet the
      game's winner is left as it was (no check follows an accepted call). */
  lemma FaltaEnvidoReachesMax(g: GameState, playerId: PlayerId)
    requires g.call.Some? && g.call.value.caller != playerId && g.call.value.kind == FaltaEnvidoCall
    ensures var c := g.call.value;
      var w := BetWinner(c.points.GetOr(0), EnvidoValue(HandOf(g, playerId)), c.caller, playerId, g.handStarterId);
      var r := RespondOutcome(g, playerId, true).value;
      r.scores[w] == g.config.maxPoints && r.winnerId == g.winnerId
  {
  }

  /** Accepting a Flor: with Flor on both sides the higher Flor value wins (the
      hand starter on a tie), otherwise the caller; the winner alone scores 3
      and play moves on to Envido. */
  lemma AcceptFlorSettles(g: GameState, playerId: PlayerId)
    requires g.call.Some? && g.call.value.caller != playerId && g.call.value.kind == FlorCall
    ensures var c := g.call.value;
      var responderHand := HandOf(g, playerId);
      var w := if HasFlor(responderHand)
               then BetWinner(c.points.GetOr(0), FlorValue(responderHand), c.caller, playerId, g.handStarterId)
               else c.caller;
      var r := RespondOutcome(g, playerId, true).value;
      && OnlyScoreOf(g.scores, r.scores, w, 3)
      && r.phase == EnvidoPhase && r.call.None? && !r.accepted
      && r.winnerId == g.winnerId
  {
  }

  /** Accepting Truco changes nothing but the accepted flag. */
  lemma AcceptTrucoMarksAccepted(g: GameState, playerId: PlayerId)
    requires g.call.Some? && g.call.value.caller != playerId && g.call.value.kind == TrucoCall
    ensures RespondOutcome(g, playerId, true).value == g.(accepted := true)
  {
  }

  // ---------------------------------------------------------------------
  // Valid actions

  datatype Action =
    | CallFlorAction | SkipFlor
    | CallEnvidoAction | CallRealEnvidoAction | CallFaltaEnvidoAction | SkipEnvido
    | CallTrucoAction | PlayCardAction
    | AcceptCall | RejectCall

  /** Flor options: calling it needs three cards of one suit; skipping does not. */
  function FlorActions(g: GameState, playerId: PlayerId): (actions: seq<Action>)
    ensures forall a :: a in actions ==> a == CallFlorAction || a == SkipFlor
    ensures CallFlorAction in actions <==>
      g.phase == FlorPhase && g.config.withFlor && HasFlor(HandOf(g, playerId)) && !g.florCalled
    ensures SkipFlor in actions <==> g.phase == FlorPhase && g.config.withFlor && !g.florCalled
  {
    if g.phase == FlorPhase && g.config.withFlor then
      (if HasFlor(HandOf(g, playerId)) && !g.florCalled then [CallFlorAction] else [])
      + (if !g.florCalled then [SkipFlor] else [])
    else []
  }

  function EnvidoActions(g: GameState): (actions: seq<Action>)
    ensures forall a :: a in actions ==>
      a == CallEnvidoAction || a == CallRealEnvidoAction || a == CallFaltaEnvidoAction || a == SkipEnvido
    ensures CallEnvidoAction in actions <==> g.phase == EnvidoPhase && !g.envidoCalled
    ensures CallRealEnvidoAction in actions <==> CallEnvidoAction in actions
    ensures CallFaltaEnvidoAction in actions <==> CallEnvidoAction in actions
    ensures SkipEnvido in actions <==> CallEnvidoAction in actions
  {
    if g.phase == EnvidoPhase && !g.envidoCalled
    then [CallEnvidoAction, CallRealEnvidoAction, CallFaltaEnvidoAction, SkipEnvido]
    else []
  }

  /** Truco may be raised up to level 4, never over one's own call; a card is
      played only in the playing phase and on one's turn. */
  function TrucoActions(g: GameState, playerId: PlayerId): (actions: seq<Action>)
    ensures forall a :: a in actions ==> a == CallTrucoAction || a == PlayCardAction
    ensures CallTrucoAction in actions <==>
      && (g.phase == TrucoPhase || g.phase == PlayingPhase)
      && (g.call.None? || (g.call.value.kind == TrucoCall && g.call.value.level < 4 && g.call.value.caller != playerId))
    ensures PlayCardAction in actions <==> g.phase == PlayingPhase && g.turnPlayerId == playerId
  {
    if g.phase == TrucoPhase || g.phase == PlayingPhase then
      var currentLevel := match g.call case Some(c) => c.level case None => 0;
      (if g.call.None? || g.call.value.kind == TrucoCall then
         (if currentLevel < 4 && (g.call.None? || g.call.value.caller != playerId) then [CallTrucoAction] else [])
       else [])
      + (if g.phase == PlayingPhase && g.turnPlayerId == playerId then [PlayCardAction] else [])
    else []
  }

  /** A pending call the player did not make can be accepted or rejected. */
  function ResponseActions(g: GameState, playerId: PlayerId): (actions: seq<Action>)
    ensures forall a :: a in actions ==> a == AcceptCall || a == RejectCall
    ensures AcceptCall in actions <==> g.call.Some? && !g.accepted && g.call.value.caller != playerId
    ensures RejectCall in actions <==> AcceptCall in actions
  {
    if g.call.Some? && !g.accepted && g.call.value.caller != playerId then [AcceptCall, RejectCall] else []
  }

  /** The source's `getValidActions`, in the order it pushes them. */
  function GetValidActions(g: GameState, playerId: PlayerId): (actions: seq<Action>)
  {
    FlorActions(g, playerId) + EnvidoActions(g) + TrucoActions(g, playerId) + ResponseActions(g, playerId)
  }

  /** Flor options are offered exactly under their conditions. */
  lemma FlorOffered(g: GameState, playerId: PlayerId)
    ensures var actions := GetValidActions(g, playerId);
      && (CallFlorAction in actions <==>
            g.phase == FlorPhase && g.config.withFlor && HasFlor(HandOf(g, playerId)) && !g.florCalled)
      && (SkipFlor in actions <==> g.phase == FlorPhase && g.config.withFlor && !g.florCalled)
  {
    var f, e, t, r := FlorActions(g, playerId), EnvidoActions(g), TrucoActions(g, playerId), ResponseActions(g, playerId);
    OfferedIn(f, e, t, r, CallFlorAction, 0);
    OfferedIn(f, e, t, r, SkipFlor, 0);
  }

  /** The three Envido calls and skipping Envido are offered together, in the
      Envido phase before any Envido call. */
  lemma EnvidoOffered(g: GameState, playerId: PlayerId)
    ensures var actions := GetValidActions(g, playerId);
      && (CallEnvidoAction in actions <==> g.phase == EnvidoPhase && !g.envidoCalled)
      && (CallRealEnvidoAction in actions <==> CallEnvidoAction in actions)
      && (CallFaltaEnvidoAction in actions <==> CallEnvidoAction in actions)
      && (SkipEnvido in actions <==> CallEnvidoAction in actions)
  {
    var f, e, t, r := FlorActions(g, playerId), EnvidoActions(g), TrucoActions(g, playerId), ResponseActions(g, playerId);
    OfferedIn(f, e, t, r, CallEnvidoAction, 1);
    OfferedIn(f, e, t, r, CallRealEnvidoAction, 1);
    OfferedIn(f, e, t, r, CallFaltaEnvidoAction, 1);
    OfferedIn(f, e, t, r, SkipEnvido, 1);
  }

  /** Truco is offered in the Truco and playing phases unless another kind of
      call is pending, the level is already 4, or the player made the call;
      playing a card only in the playing phase and on the player's turn. */
  lemma TrucoOffered(g: GameState, playerId: PlayerId)
    ensures var actions := GetValidActions(g, playerId);
      && (CallTrucoAction in actions <==>
            && (g.phase == TrucoPhase || g.phase == PlayingPhase)
            && (g.call.None? || (g.call.value.kind == TrucoCall && g.call.value.level < 4 && g.call.value.caller != playerId)))
      && (PlayCardAction in actions <==> g.phase == PlayingPhase && g.turnPlayerId == playerId)
  {
    var f, e, t, r := FlorActions(g, playerId), EnvidoActions(g), TrucoActions(g, playerId), ResponseActions(g, playerId);
    OfferedIn(f, e, t, r, CallTrucoAction, 2);
    OfferedIn(f, e, t, r, PlayCardAction, 2);
  }

  /** Accepting and rejecting are offered together, only to the player who did
      not make the pending, not yet accepted call. */
  lemma ResponseOffered(g: GameState, playerId: PlayerId)
    ensures var actions := GetValidActions(g, playerId);
      && (AcceptCall in actions <==> g.call.Some? && !g.accepted && g.call.value.caller != playerId)
      && (RejectCall in actions <==> AcceptCall in actions)
  {
    var f, e, t, r := FlorActions(g, playerId), EnvidoActions(g), TrucoActions(g, playerId), ResponseActions(g, playerId);
    OfferedIn(f, e, t, r, AcceptCall, 3);
    OfferedIn(f, e, t, r, RejectCall, 3);
  }

  /** An action that only part `k` can hold is in the whole list exactly when it is in that part. */
  lemma OfferedIn(f: seq<Action>, e: seq<Action>, t: seq<Action>, r: seq<Action>, a: Action, k: nat)
    requires k < 4
    requires k != 0 ==> a !in f
    requires k != 1 ==> a !in e
    requires k != 2 ==> a !in t
    requires k != 3 ==> a !in r
    ensures a in f + e + t + r <==> a in [f, e, t, r][k]
  {
  }


  /** The phases are exclusive, so Flor, Envido and Truco options are never offered together. */
  lemma ValidActionsOnePhase(g: GameState, playerId: PlayerId)
    ensures var actions := GetValidActions(g, playerId);
      && !(SkipFlor in actions && SkipEnvido in actions)
      && !(SkipEnvido in actions && CallTrucoAction in actions)
      && !(SkipFlor in actions && CallTrucoAction in actions)
  {
    FlorOffered(g, playerId);
    EnvidoOffered(g, playerId);
    TrucoOffered(g, playerId);
  }
}
