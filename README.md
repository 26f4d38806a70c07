# Truco engine and room registry, in Dafny

This project models the two parts of the multiplayer Argentine Truco game that hold its rules and its bookkeeping:

- **The rule engine** (`TrucoEngine`, lib/truco-engine.ts). It is a state machine for one two-player match:
  - the card-strength table and the 40-card Spanish deck (no 8s or 9s);
  - the Fisher-Yates shuffle and the round-robin deal of three cards each;
  - trick and hand resolution, hand scoring, the rotation of the hand starter;
  - Envido and Flor values, the Envido and Flor calls and the answers to a call;
  - the list of actions a player may take.

  Every entry point takes a game state and returns a new one or a domain error. Thrown errors are `Failure` values of `Result`.
- **The room registry** (class `RoomManager`, backend/src/services/room-manager.ts). It keeps four in-memory tables:
  - rooms by id;
  - each player's room;
  - room codes;
  - the quick-match queue.

  It creates and joins rooms (by id or by code, with reconnection), pairs players from the queue, handles leaving, starts games, applies moves, sweeps idle rooms and lists waiting rooms.

Layout:

| file | module | what |
|---|---|---|
| Results.dfy | `Results` | `Option` and `Result` |
| Cards.dfy | `Cards` | suits, ranks, the strength table, `CompareCards`, the shuffle and the deck |
| Envido.dfy | `Envido` | Envido and Flor values: specification functions and the source's loops |
| Engine.dfy | `Engine` | the game state, dealing, tricks, hands, calls, answers, valid actions |
| RoomManager.dfy | `Rooms` | rooms, players and the queue as values; the `RoomManager` class over four tables |

Modelling choices:

- **Engine.** The code that works step by step is written as methods with loops:
  - building and shuffling the deck;
  - the deal;
  - grouping cards by suit;
  - the two score loops;
  - `playCard` and `respondToCall`, which copy the state and assign its fields one by one.

  Each of these methods is proved equal to a specification function. The properties are lemmas about those functions.
- **Registry.** It is a class whose fields are the four tables:
  - `rooms`, `playerRooms` and `roomCodes` are `map`s;
  - the queue is a `seq`, because a JavaScript `Map` iterates in insertion order.

  Its invariant `Valid()` says:
  - the maps agree (codes and rooms one to one, each player's room stored and holding that player);
  - no room holds more than two players, and they are distinct;
  - a room has a game exactly once it has left "waiting", and that game satisfies `Engine.Valid`;
  - queue keys are distinct.

- **Randomness** is passed in as parameters:
  - `roll` for the shuffle's `Math.random()`;
  - `nonce` for the card-id suffix;
  - `freshDeck` for the shuffled deck `createDeck` returns inside `initializeGame` and `startNewHand`;
  - `pick` for the first hand starter;
  - `idDraws` and `codeDraws` for the random strings the id and code generators try in turn.
- **Time** `Date` is an integer millisecond clock, `now`.

The registry imports its engine from `../game/truco-engine`. backend/src/game/truco-engine.ts is not part of this model. The registry here calls the engine of lib/truco-engine.ts, which has the entry points it uses except `callTruco` and `skipPhase`.

## Model

| member | source | states |
|---|---|---|
| Cards.Strength | lib/truco-engine.ts:4-58 | every (suit, rank) of the deck has a table strength between 1 and 14, so the fallback to 0 is never taken |
| Cards.TopCardsOrder | lib/truco-engine.ts:4-58 | strength 14 is exactly the 1 of espadas, 13 the 1 of bastos, 12 the 7 of espadas, 11 the 7 of oros; every other card is at most 10 |
| Cards.CompareCards | lib/truco-engine.ts:65-75 | the result is 1, -1 or 0 exactly when the first card's strength is greater than, less than or equal to the second's |
| Cards.CompareAntisymmetric | lib/truco-engine.ts:65-75 | `compareCards(a, b) == -compareCards(b, a)` |
| Cards.CompareTransitive | lib/truco-engine.ts:65-75 | "at least as strong" and "stronger" are transitive |
| Cards.CompareTies | lib/truco-engine.ts:4-58 | all cards of rank 2, 3, 4, 5, 6, 10, 11 or 12 tie with their rank-mates; the false aces (oros, copas) tie; the false sevens (bastos, copas) tie |
| Cards.FiguresRanked | lib/truco-engine.ts:28-39 | the figures do not tie: any 12 beats any 11 and any 10, and any 11 beats any 10, whatever the suits |
| Cards.StandardFacesDistinct | lib/truco-engine.ts:81-93 | the suit-major walk over 4 suits and 10 ranks yields 40 pairwise distinct (suit, rank) pairs |
| Cards.StandardFacesComplete | lib/truco-engine.ts:81-93 | every (suit, rank) of the deck occurs in that walk |
| Cards.BuildOrderedDeck | lib/truco-engine.ts:83-93 | the nested loops push one card per (suit, rank) in suit-major order, each id starting with `rank-suit-` |
| Cards.ShuffleDeck | lib/truco-engine.ts:101-108 | Fisher-Yates on a copy: the result has the input's length and multiset of cards, whatever the random rolls |
| Cards.PermutedSpanishDeck | lib/truco-engine.ts:95-108 | any permutation of a Spanish deck is again a Spanish deck |
| Cards.CreateDeck | lib/truco-engine.ts:80-96 | 40 cards, each (suit, rank) exactly once, no 8 or 9, each id starting with its card's `rank-suit-` key |
| Envido.CardValue | lib/truco-engine.ts:341 | a card's Envido value is 0..7, and 0 for the figures 10, 11 and 12 |
| Envido.SuitOrderMembers | lib/truco-engine.ts:324-337 | the suits visited by `for (suit in suitGroups)` are exactly the suits present in the hand |
| Envido.TopTwoIsBestPair | lib/truco-engine.ts:341-344 | the first two values after the descending sort form a pair of distinct positions with the largest sum |
| Envido.HighestValue | lib/truco-engine.ts:349-353 | the largest Envido value in a non-empty hand, -1 for an empty hand |
| Envido.EnvidoCharacterization | lib/truco-engine.ts:323-356 | if some suit has two or more cards, the Envido value is 20 plus the best top-two sum over such suits, and it is at least that for each of them; otherwise it is the hand's highest value |
| Envido.EnvidoRange | lib/truco-engine.ts:323-356 | a non-empty hand of distinct cards scores between 0 and 33 |
| Envido.EnvidoNegativeOnlyEmpty | lib/truco-engine.ts:323-356 | the Envido value is at least -1, and below 0 exactly for an empty hand |
| Envido.HasFlorMeaning | lib/truco-engine.ts:361-369 | `hasFlor` holds exactly when some suit has exactly three cards in the hand |
| Envido.FlorCharacterization | lib/truco-engine.ts:374-394 | with Flor, the value is that suit's card values plus 20 and at least 20; without Flor it is 0 |
| Envido.FlorOfThreeCards | lib/truco-engine.ts:374-394 | a three-card hand with Flor scores the sum of its three values plus 20 |
| Envido.GroupBySuit | lib/truco-engine.ts:324-332 | the grouping loop maps every present suit, in order of first appearance, to exactly the hand's cards of that suit |
| Envido.CalculateEnvidoPoints | lib/truco-engine.ts:323-356 | the two loops compute the Envido value characterised above |
| Envido.CalculateFlorPoints | lib/truco-engine.ts:374-394 | the two loops compute the Flor value characterised above |
| Engine.NextSeatIsOther | lib/truco-engine.ts:253-257 | `(indexOf(p) + 1) % 2` over two distinct seats names the other player |
| Engine.FindCard | lib/truco-engine.ts:196 | the first index of a card with the given id, or -1 when the hand has none |
| Engine.DealHandsKeys | lib/truco-engine.ts:120-133 | the deal gives a hand to every player id and to nobody else |
| Engine.DealKeys | lib/truco-engine.ts:113-139 | with two ids the dealt hands are keyed by exactly those two |
| Engine.TwoPlayerDeal | lib/truco-engine.ts:113-139 | with two distinct ids and at least six cards, the first player gets deck[0], deck[2], deck[4], the second deck[1], deck[3], deck[5], and the remaining deck is deck[6..] |
| Engine.EmptyHands | lib/truco-engine.ts:120-123 | the first loop gives every player an empty hand |
| Engine.DealRound | lib/truco-engine.ts:127-132 | one pass of the inner loop deals the next card to each player while cards remain |
| Engine.DealCards | lib/truco-engine.ts:113-139 | the nested loops produce the round-robin deal above |
| Engine.InitializeGame | lib/truco-engine.ts:144-170 | fails exactly when there are not two ids; otherwise both scores and trick counts are 0, round 1, no call and no winner, the turn holder is the hand starter and is one of the ids, the phase is Flor iff the game plays Flor and Envido otherwise, and the state invariant holds |
| Engine.InitialDeal | lib/truco-engine.ts:149-150 | from a Spanish deck each player gets three cards and 34 stay in the deck |
| Engine.StartNewHand | lib/truco-engine.ts:651-675 | scores, winner and configuration are kept; round 1, an empty table, no call, trick counts 0, both bet flags cleared, and hands and deck freshly dealt |
| Engine.NewHandPassesStarter | lib/truco-engine.ts:655-670 | the new hand starter is the other player, holds the turn, and the phase is Flor iff the game plays Flor |
| Engine.NewHandValid | lib/truco-engine.ts:651-675 | a new hand between two distinct scored players satisfies the state invariant |
| Engine.StarterAlternates | lib/truco-engine.ts:655-657 | two new hands in a row give the hand-starter role back to the same player |
| Engine.TrickWinner | lib/truco-engine.ts:271-281 | the player of the stronger card wins, and the first player wins a tie |
| Engine.EvaluateTrick | lib/truco-engine.ts:266-282 | fails exactly when the trick does not hold two plays; otherwise it returns the trick winner |
| Engine.TrickWinnerStrongest | lib/truco-engine.ts:266-282 | between two different players the winner's card is at least as strong as the other's, and the second player wins iff their card is strictly stronger |
| Engine.DetermineHandWinner | lib/truco-engine.ts:287-302 | the player with more tricks wins the hand, and the hand starter wins on equal tricks |
| Engine.CalculateHandPoints | lib/truco-engine.ts:307-318 | 1 with no call, the call's level plus 1 when it was accepted, the level itself when it was not |
| Engine.CanPlayCardFinds | lib/truco-engine.ts:175-184 | a card may be played exactly when it is the player's turn and the player's hand holds a card with that id |
| Engine.RemoveAtLosesOne | lib/truco-engine.ts:205 | `splice` removes exactly one card: one fewer card, and exactly that card gone from the multiset |
| Engine.PlayOutcome | lib/truco-engine.ts:189-192 | `playCard` fails exactly when `canPlayCard` is false |
| Engine.ResolveTrick | lib/truco-engine.ts:215-251 | the trick-closing block computes `CloseTrick`: count the trick, then score the hand or start the next round |
| Engine.PlayCard | lib/truco-engine.ts:189-261 | the step-by-step update of the copied state is `PlayOutcome`, and a successful play keeps the state invariant |
| Engine.PlayCardKeepsValid | lib/truco-engine.ts:189-261 | every successful play keeps the state invariant |
| Engine.PlayCardMidTrick | lib/truco-engine.ts:194-258 | while a trick is open, exactly the chosen card leaves the player's hand and is appended to the table, the other hand is unchanged, the turn passes to the other player, and tricks, scores, round and winner are kept |
| Engine.CloseTrickNextRound | lib/truco-engine.ts:215-251 | a completed trick that does not end the hand gives its winner exactly one more trick, clears the table, advances the round and lets the winner lead; hands and scores are kept |
| Engine.CloseTrickWinsGame | lib/truco-engine.ts:215-241 | when the hand ends and the hand winner reaches `maxPoints`, only that player's score rises by the hand points and the player becomes the game's winner |
| Engine.CloseTrickNewHand | lib/truco-engine.ts:215-245 | when the hand ends below `maxPoints`, the hand winner scores and a new hand starts with the other hand starter leading, round 1, an empty table, trick counts 0 and freshly dealt hands |
| Engine.CloseTrickDealsAnew | lib/truco-engine.ts:242-245 | below `maxPoints` the result is exactly `startNewHand` applied to the scored state |
| Engine.CloseTrickRedeals | lib/truco-engine.ts:242-245 | when a trick ends the hand below `maxPoints` and the fresh deck is a Spanish deck, the new hands belong to the two seats, hold three cards each, and 34 cards stay in the deck |
| Engine.CallEnvido | lib/truco-engine.ts:399-430 | fails exactly outside the Envido phase or after an Envido call this hand; otherwise it records a pending call of the caller with level 1, 2 or 3 and the caller's Envido value, marks Envido as called, and keeps the invariant |
| Engine.CallFlor | lib/truco-engine.ts:435-462 | fails exactly outside the Flor phase, after a Flor call, or when the caller has no Flor; otherwise it records a level-1 call with the caller's Flor value, marks Flor as called, and keeps the invariant |
| Engine.BetWinner | lib/truco-engine.ts:491-499 | the caller wins with more points, the responder with more points, and the hand starter on a tie |
| Engine.BetWinnerStandIn | lib/truco-engine.ts:489-499 | the bet has the same winner whichever negative number stands for an empty hand's value, so -1 here and `-Infinity` in the source pick the same player |
| Engine.RejectionPoints | lib/truco-engine.ts:561-567 | a refused Envido, Real Envido or Falta Envido pays 1, a refused Flor 3, a refused Truco its level |
| Engine.AddPoints | lib/truco-engine.ts:510-513 | adding points changes only that player's score, by exactly that amount, counting a missing score as 0 |
| Engine.RespondOutcome | lib/truco-engine.ts:467-474 | answering fails exactly when there is no pending call or the responder made it |
| Engine.AcceptEnvido | lib/truco-engine.ts:482-524 | the step-by-step settling of an accepted Envido-family call computes `SettleEnvido` |
| Engine.AcceptFlor | lib/truco-engine.ts:525-558 | the step-by-step settling of an accepted Flor computes `SettleFlor` |
| Engine.DeclineCall | lib/truco-engine.ts:559-594 | the step-by-step handling of a refusal computes `Decline` |
| Engine.RespondToCall | lib/truco-engine.ts:467-597 | the step-by-step update is `RespondOutcome`, and a successful answer keeps the state invariant |
| Engine.RespondLeavesPlay | lib/truco-engine.ts:476-597 | an answer changes only the scores, phase, call, acceptance flag, recorded Envido values and winner, never the cards, tricks, turn or round |
| Engine.RespondKeepsValid | lib/truco-engine.ts:467-597 | every successful answer keeps the state invariant |
| Engine.RejectPaysCaller | lib/truco-engine.ts:559-594 | on a refusal only the caller scores (1, 3 or the Truco level) and the call is cleared; Flor moves on to Envido and Envido to Truco; the caller becomes the winner exactly when reaching `maxPoints` |
| Engine.AcceptEnvidoSettles | lib/truco-engine.ts:482-524 | an accepted Envido-family call goes to the higher Envido value, or the hand starter on a tie; only that player scores 2, 3 or what they lack to reach `maxPoints`; both values are recorded; play moves to Truco with no call |
| Engine.FaltaEnvidoReachesMax | lib/truco-engine.ts:504-524 | an accepted Falta Envido brings its winner to exactly `maxPoints`, and the game's winner is not set |
| Engine.AcceptFlorSettles | lib/truco-engine.ts:525-558 | an accepted Flor goes to the higher Flor value when both players hold Flor (the hand starter on a tie) and to the caller otherwise; only that player scores 3; play moves to Envido with no call |
| Engine.AcceptTrucoMarksAccepted | lib/truco-engine.ts:478-479 | accepting a Truco changes nothing but the acceptance flag |
| Engine.FlorActions | lib/truco-engine.ts:606-614 | the Flor options and their conditions |
| Engine.EnvidoActions | lib/truco-engine.ts:616-623 | the three Envido calls and the Envido skip, together, only in the Envido phase before any Envido call |
| Engine.TrucoActions | lib/truco-engine.ts:625-638 | Truco is offered in the Truco and playing phases with no call pending, or over a Truco of level below 4 the player did not make; playing a card is offered in the playing phase on the player's turn |
| Engine.ResponseActions | lib/truco-engine.ts:641-643 | accepting and rejecting are offered together, only to the player who did not make a pending, unaccepted call |
| Engine.FlorOffered | lib/truco-engine.ts:602-646 | in the full list, calling Flor is offered iff in the Flor phase of a Flor game the player holds Flor and Flor was not called; skipping it likewise but without the hand condition |
| Engine.EnvidoOffered | lib/truco-engine.ts:602-646 | in the full list the Envido options appear exactly under the Envido conditions |
| Engine.TrucoOffered | lib/truco-engine.ts:602-646 | in the full list the Truco call and card play appear exactly under their conditions |
| Engine.ResponseOffered | lib/truco-engine.ts:602-646 | in the full list accept and reject appear exactly under the response condition |
| Engine.ValidActionsOnePhase | lib/truco-engine.ts:602-646 | Flor, Envido and Truco options are never offered together |
| Rooms.AsciiUpper | backend/src/services/room-manager.ts:59 | upper-casing keeps the code's length |
| Rooms.UpperIdempotent | backend/src/services/room-manager.ts:21-28 | an upper-cased code upper-cases to itself, so a generated code is found by its own lookup |
| Rooms.UpperHasNoLowerCase | backend/src/services/room-manager.ts:25 | an upper-cased code holds no lower-case letter |
| Rooms.FindPlayer | backend/src/services/room-manager.ts:77 | the index of the first seat with that player id, or -1 when none has it |
| Rooms.ConnectedCount | backend/src/services/room-manager.ts:309 | the number of connected players is at most the number of seats, and 0 exactly when every player is disconnected |
| Rooms.SeatedInIdSet | backend/src/services/room-manager.ts:77 | a player has a seat exactly when their id is among the room's player ids |
| Rooms.JoinSeats | backend/src/services/room-manager.ts:76-94 | joining a room with a free seat leaves the player seated and connected, at most two distinct players; a seated player adds no seat, anyone else is appended; id, code, status and game are kept |
| Rooms.JoinedKeepsSeats | backend/src/services/room-manager.ts:76-89 | joining never removes a seat |
| Rooms.DepartSeats | backend/src/services/room-manager.ts:138-144 | leaving marks exactly that player disconnected; seats, other players, status and game are kept |
| Rooms.DepartedKeepsSeats | backend/src/services/room-manager.ts:138-142 | leaving keeps the same player ids, seat by seat, and keeps them distinct |
| Rooms.MoveEndsRoom | backend/src/services/room-manager.ts:199-204 | after a move the room is "ended" exactly when the new game has a winner or the room had already ended; without a winner the status is unchanged; only game, activity time and status change |
| Rooms.FirstMatch | backend/src/services/room-manager.ts:99-104 | the first queue entry, in insertion order, with the same `maxPoints` and `withFlor` and another player id, or -1 |
| Rooms.QueueIndex | backend/src/services/room-manager.ts:117-128 | the position of a player's queue entry, or -1 when the player is not queued |
| Rooms.QueueDeleteSpec | backend/src/services/room-manager.ts:127-129 | deleting a player from the queue keeps exactly the other players' entries, and the keys stay distinct |
| Rooms.QueueSetSpec | backend/src/services/room-manager.ts:117-122 | `set` replaces the player's entry in place or appends it; the player ends up queued with that entry, every other entry is kept, and the keys stay distinct |
| Rooms.FreshEntriesSpec | backend/src/services/room-manager.ts:294-300 | the queue keeps exactly the entries at most two minutes old, and the keys stay distinct |
| Rooms.EligibleSpec | backend/src/services/room-manager.ts:304-312 | the filter and map give exactly the summaries of waiting rooms with a connected player |
| Rooms.SortNewestSpec | backend/src/services/room-manager.ts:313 | the sort orders summaries newest first and is a permutation |
| Rooms.ListingSound | backend/src/services/room-manager.ts:303-315 | at most 20 entries, newest first, each the summary of a waiting room with a connected player |
| Rooms.ListingComplete | backend/src/services/room-manager.ts:303-315 | a listable room missing from the list means the list is full with 20 rooms, none created before it |
| Rooms.SummaryCount | backend/src/services/room-manager.ts:309 | a listed room reports 1 or 2 connected players |
| Rooms.AddRoom | backend/src/services/room-manager.ts:51-52 | storing a sound room under a fresh id and fresh code keeps the maps consistent |
| Rooms.ReplaceRoom | backend/src/services/room-manager.ts:91 | replacing a room by a sound one with the same code that keeps every seat keeps the maps consistent |
| Rooms.MapPlayer | backend/src/services/room-manager.ts:92 | pointing a player at a room they are seated in keeps the maps consistent |
| Rooms.RemoveRoom | backend/src/services/room-manager.ts:151-155 | dropping a room, its code and all its players' entries keeps the maps consistent |
| Rooms.FirstFree | backend/src/services/room-manager.ts:13-28 | the do-while retry settles on the first draw whose upper-cased form is unused, or -1 when none is |
| Rooms.JoinOutcome | backend/src/services/room-manager.ts:66-74 | joining fails exactly for an unknown room ("Room not found") or one with two or more players ("Room is full") |
| Rooms.StartOutcome | backend/src/services/room-manager.ts:171-183 | starting fails exactly for an unknown room, a room without exactly two players, or one not waiting |
| Rooms.StartedGame | backend/src/services/room-manager.ts:185-190 | a started room is "playing" with a game between its two players: no winner, both scores 0; nothing else about the room changes but the activity time |
| Rooms.Moved | backend/src/services/room-manager.ts:199-206 | an engine error fails the move and says why; otherwise the room carries the new game with the same id and players |
| Rooms.Called | backend/src/services/room-manager.ts:227-230 | an engine error fails the call; otherwise only the game and activity time change and the status stays |
| Rooms.MatchSeatsBoth | backend/src/services/room-manager.ts:106-107 | a quick match seats the queued player first and the requester second, both connected, in a waiting room with no game |
| Rooms.SearchQueue | backend/src/services/room-manager.ts:99-104 | the loop over the queue stops at the first matching entry |
| Rooms.ForgetPlayers | backend/src/services/room-manager.ts:155 | the `forEach` removes exactly the room's players from the player table |
| Rooms.KeepFresh | backend/src/services/room-manager.ts:295-300 | the loop over the queue deletes exactly the entries older than two minutes |
| Rooms.LobbyEntries | backend/src/services/room-manager.ts:303-315 | every listed entry summarises a stored waiting room with a connected player |
| Rooms.LobbyComplete | backend/src/services/room-manager.ts:303-315 | a stored listable room left out of the list means 20 entries, none older than it |
| Rooms.RoomManager.constructor | backend/src/services/room-manager.ts:5-11 | all four tables start empty and the invariant holds |
| Rooms.RoomManager.GenerateRoomId | backend/src/services/room-manager.ts:13-19 | the id is not already a room id: the first upper-cased draw that is free |
| Rooms.RoomManager.GenerateRoomCode | backend/src/services/room-manager.ts:21-28 | the code is not already in use: the first upper-cased draw that is free |
| Rooms.RoomManager.CreateRoom | backend/src/services/room-manager.ts:30-56 | a new waiting room with no game and one connected player under a fresh id and code; the code table and the player's entry point at it; the queue is unchanged; the invariant holds |
| Rooms.RoomManager.JoinRoom | backend/src/services/room-manager.ts:66-95 | the outcome is `JoinOutcome`; on success the room is replaced and the player points at it; on failure nothing changes; the invariant holds |
| Rooms.RoomManager.JoinRoomByCode | backend/src/services/room-manager.ts:58-64 | an unknown upper-cased code fails with "Room code not found" and changes nothing; a known one joins its room, and a joined room's code is the upper-cased code |
| Rooms.RoomManager.FindQuickMatch | backend/src/services/room-manager.ts:97-125 | with a matching queued player, a new room holds that player and the requester, both point at it, and the queued entry is removed; without one, the requester is queued, nothing else changes and the result is empty |
| Rooms.RoomManager.MatchWith | backend/src/services/room-manager.ts:105-112 | creating the room for the queued player, seating the requester and dequeuing the partner, with the invariant kept |
| Rooms.RoomManager.RemoveFromQuickMatchQueue | backend/src/services/room-manager.ts:127-129 | only the queue changes, losing exactly that player's entry |
| Rooms.RoomManager.DeleteRoom | backend/src/services/room-manager.ts:151-155 | the room, its code and all its players' entries are removed; the queue stays; the invariant holds |
| Rooms.RoomManager.LeaveRoom | backend/src/services/room-manager.ts:131-160 | an unknown player changes nothing and gets nothing; a known one is marked disconnected and dequeued; a waiting room nobody is connected to any more is deleted with its code and players' entries and nothing is returned; otherwise the updated room is returned; after a call that returns nothing, the player has no room, so another call also returns nothing |
| Rooms.RoomManager.MarkDeparted | backend/src/services/room-manager.ts:138-144 | the stored room becomes `Departed`, with the same seats; the tables are otherwise unchanged |
| Rooms.RoomManager.StartGame | backend/src/services/room-manager.ts:171-191 | the outcome is `StartOutcome`; on success the room is replaced, otherwise nothing changes; the invariant holds |
| Rooms.RoomManager.PlayCard | backend/src/services/room-manager.ts:193-207 | with no room or no game it fails with "Game not found"; otherwise the outcome is `Moved` with the engine's play; only the room changes, and only on success |
| Rooms.RoomManager.RespondToCall | backend/src/services/room-manager.ts:257-271 | with no room or no game it fails; otherwise the outcome is `Moved` with the engine's answer; only the room changes, and only on success |
| Rooms.RoomManager.CallEnvido | backend/src/services/room-manager.ts:221-231 | with no room or no game it fails; otherwise the outcome is `Called` with the engine's Envido call |
| Rooms.RoomManager.CallFlor | backend/src/services/room-manager.ts:233-243 | with no room or no game it fails; otherwise the outcome is `Called` with the engine's Flor call |
| Rooms.RoomManager.Cleanup | backend/src/services/room-manager.ts:273-301 | exactly the rooms idle for more than five minutes that are "ended", or "waiting" with nobody connected, are removed with their codes and players' entries; the queue keeps exactly the entries at most two minutes old; the invariant holds |
| Rooms.RoomManager.SweepRooms | backend/src/services/room-manager.ts:279-292 | the loop over the rooms removes exactly the stale ones with their codes and players' entries |
| Rooms.RoomManager.SweepIfStale | backend/src/services/room-manager.ts:280-290 | one room is removed with its code and players' entries exactly when it is stale |
| Rooms.RoomManager.GetWaitingRooms | backend/src/services/room-manager.ts:303-315 | the list is `Listing` of the stored rooms in some order of the table, so the listing lemmas apply to it |

## Left out

- Randomness is a parameter, as described above. The model does not say which permutations or strings are likely.
- Rooms.RoomManager.GenerateRoomId and Rooms.RoomManager.GenerateRoomCode require one of the given draws to be free. The source's do-while can in principle retry forever.
- `Math.random().toString(36).substring(2, 8)` is not modelled as a format. A draw is any string, and only its upper-casing is modelled.
- Rooms.AsciiUpper upper-cases ASCII letters only. JavaScript's `toUpperCase` also maps other scripts.
- Every `new Date()` inside one operation reads the same `now`. In the source, `createdAt`, `lastActivity` and `lastSeen` may differ by the milliseconds between calls.
- JavaScript truthiness of empty strings is ignored. An empty room id, code or winner id counts as present here. In the source, `if (!roomId)`, `if (room.code)` and `if (room.game.winnerId)` would treat "" as absent.
- Rooms.RoomManager.GetWaitingRooms: `Array.from(rooms.values())` yields insertion order. The model proves its result for some order of the table's rooms, held in the ghost out-parameters. The order of rooms with equal `createdAt` is therefore not pinned down.
- Room and player objects are shared references in the source. Here they are values, and a returned room is a snapshot of the stored one. For example, `findQuickMatch` returns the room object that `joinRoom` then mutated. The model returns the joined room value, which is the same content.
- The second `if (!room) return null` in `leaveRoom` cannot be reached under the invariant: a player's room is always stored. The model does not branch on it.
- `getRoom` and `getPlayerRoom` are lookups, and the model has no operation for them.
- The `callTruco` and `skipPhase` wrappers (backend/src/services/room-manager.ts:209-219, 245-255) are left out. They call engine functions that do not exist in lib/truco-engine.ts.
- The room methods require the registry invariant `Valid()`, and Engine.PlayCard and Engine.RespondToCall require `Engine.Valid`. The source assumes these; the constructor establishes them and every operation keeps them.
- Envido.HighestValue: `Math.max()` of an empty hand is `-Infinity` in the source and -1 here. Empty hands do occur: `callEnvido` checks neither the turn nor the hand, so a player who has played all three cards, or any player after a game that ended in round 3, can still call Envido. Only the recorded number differs: `call.points` and `envidoPoints` hold -1 where the source holds `-Infinity` (which survives `|| 0`). The winner and the points awarded are the same (Engine.BetWinnerStandIn, Envido.EnvidoNegativeOnlyEmpty).
- A game's `maxPoints` is 15 or 30, the two values the source's `GameConfig` type allows.
- Falta Envido: an accepted Falta Envido brings its winner to exactly `maxPoints`, but `respondToCall` never sets `winnerId` on acceptance. The model follows the code; see Engine.FaltaEnvidoReachesMax.
- Where the code and the design description differ, the code is followed:
  - `joinRoom` checks for a full room before looking for a returning player, so a seated player of a full room cannot reconnect through it;
  - `startGame` checks the number of players but not that both are connected.
- The test file lib/__tests__/truco-engine.test.ts:28-33 expects the 12, 11 and 10 of espadas to tie. The strength table (lib/truco-engine.ts:28-39) gives them 7, 6 and 5, so `compareCards` ranks them apart. The model follows the table; see Cards.FiguresRanked.
- `callEnvido` and `respondToCall` do not check that the caller or responder is seated. The model follows this: the score map may gain a key for an outsider, and `Engine.Valid` only requires the two seats to have scores. Hands and trick counters, by contrast, are keyed by exactly the two seats.
- Concurrency is not modelled: the registry runs on one event loop and has no locks. Transport, UI, database hooks and the server's timers are outside this model.
