# Old Maid (Baba-nuki) game engine, modelled in Dafny

This project models the server-side core of a multiplayer Old Maid card game with a rating
system. A game uses 53 cards: four suits of 1..13 and one joker. After the deal, every
player throws away the pairs of equal number in their hand. Players then take turns drawing
one card from a target player's hand and discarding any pair it completes. A player whose
hand empties finishes and takes the next rank. When at most one player is left holding
cards, the round ends: that player takes the last place and every ranked player's rate
changes by a rule that depends on rank, previous rank and current rate.

Files and modules:

- `types.dfy` (`Types`): cards, players, phases, and the multiset of all cards at the table.
- `rating.dfy` (`Rating`): the rate change and its application, as pure functions.
- `game_logic.dfy` (`GameLogic`):
  - the 53-card deck, and the in-place Fisher–Yates shuffle on an `array`;
  - the round-robin deal;
  - the pair-discarding scan.
  Each loop is a method proved against a specification function.
- `engine_spec.dfy` (`EngineSpec`):
  - the GameManager's operations as functions on values;
  - the lemmas that state what they promise (card conservation, ranks 1..n, the next turn
    and target, tease toggling, reset);
  - the invariant the class keeps.
- `game_manager.dfy` (`Engine`): the `GameManager` class. Its fields are the game state, which
  its methods update in place. Each method is proved to leave exactly the state that the
  matching `EngineSpec` function describes. The constructor establishes the invariant
  `Valid()`, and the public operations Join, Start, Draw, Tease and Reset keep it. The private
  steps Begin, Finish, CheckFinished, CalculateRatings, AdvanceTurn and UpdateTarget are proved
  only against their `EngineSpec` functions. The invariant across them is proved as lemmas
  about those functions and used by Start and Draw.
- `server_store.dfy` (`Store`): the `GameStore` of the polled API. It holds one global record
  and replaces it whole on every operation. Its new values are pure functions of the old
  record.

Nondeterminism becomes parameters:

- each `uuidv4()` call is a fresh id passed in (53 card ids for `start`, one player id for
  `join` and `addPlayer`);
- each `Math.random()` is a pick sequence for the shuffles, or a `real` in [0, 1) for the
  draw index;
- `Date.now()` is a parameter `now`.

The rating correction multiplies a positive integer change by the doubles 0.8 and 1.2 and
floors the product. For integer changes these products floor to exactly (4c)/5 and (6c)/5:
the double nearest 0.8 lies just above 0.8, and the error of the one nearest 1.2 is too small
to move a multiple of 6 below the next lower double. The model therefore uses these integer
quotients.

## Model

| member | source | states |
|---|---|---|
| Rating.FirstGameChange | src/lib/rating.ts:25-29 | The first-game points are 4, 3, 2, 1 for ranks 1..4. Any other rank, including 5, 6 and ranks outside the table, scores 0. |
| Rating.BaseChange | src/lib/rating.ts:25-38 | A first game or an unknown previous rank gives the first-game points. Otherwise the change is 8 points per place gained, or lost, since the previous round, and 10 for the same rank. |
| Rating.Corrected | src/lib/rating.ts:51-58 | A change <= 0 is returned unchanged. A gain at rate >= 130 becomes floor(0.8c), which lies in [0, c]. A gain at rate <= 70 becomes floor(1.2c), which is >= c. A gain in between is unchanged. |
| Rating.CalculateRateChange | src/lib/rating.ts:17-61 | The result is the base change with the correction applied. A loss is kept as it is, a gain stays non-negative, and the bounds above hold for each rate band. |
| Rating.ApplyRateChange | src/lib/rating.ts:63-72 | The new rate is rate + change when that is at least 30, and exactly 30 otherwise. The history grows by exactly that rate at its end. Every other field is unchanged. |
| Rating.FirstGameTable | src/lib/rating.ts:25-29 | At a rate between the correction bands, a first game scores 4, 3, 2, 1 for ranks 1..4 and 0 otherwise. |
| Rating.SignPreserved | src/lib/rating.ts:51-58 | The correction never changes the sign: a negative base stays the same negative value, and a positive base stays >= 0. |
| Rating.ScriptExamples | src/scripts/verifyRates.ts:7-41 | The rating script's eight expected values hold: 4, 2, 16, -16, 10, 12, 19, -8. |
| GameLogic.OrderedDeckFaces | src/lib/gameLogic.ts:4-22 | The unshuffled deck holds the given ids in order, none highlighted. Cards 0..51 carry every (suit, 1..13) face exactly once. Card 52 is the only joker, with number 0. |
| GameLogic.BuildDeck | src/lib/gameLogic.ts:4-22 | The nested suit and number loops build exactly that deck. |
| GameLogic.Swap | src/lib/gameLogic.ts:33-35 | The swap exchanges the cards at two positions and leaves every other position alone. |
| GameLogic.SwapPermutes | src/lib/gameLogic.ts:33-35 | A swap keeps the multiset of cards. |
| GameLogic.FisherYates | src/lib/gameLogic.ts:27-38 | Any sequence of in-range swap picks permutes the deck: same length, same multiset. |
| GameLogic.Shuffle | src/lib/gameLogic.ts:27-38 | The in-place shuffle of the array ends in FisherYates of its old contents, so it is a permutation of them. |
| GameLogic.CreateDeck | src/lib/gameLogic.ts:4-25 | createDeck returns a 53-card permutation of the ordered deck. |
| GameLogic.SeatIsMod | src/lib/gameLogic.ts:45-51 | Deck card k goes to seat k mod n, in round k div n. |
| GameLogic.DealtHandAt | src/lib/gameLogic.ts:45-51 | Card j of seat s's hand is deck card j*n + s. |
| GameLogic.DealtHandSize | src/lib/gameLogic.ts:40-52 | Seat s receives \|deck\| div n cards, plus one when s < \|deck\| mod n. |
| GameLogic.DealBalanced | src/lib/gameLogic.ts:40-52 | Hand sizes differ by at most one, and earlier seats hold the extra cards. |
| GameLogic.DealStep | src/lib/gameLogic.ts:45-50 | Dealing one more card appends it to the hand of seat k mod n and changes nothing else. |
| GameLogic.DealConserves | src/lib/gameLogic.ts:40-53 | After the deal, the cards at the table are exactly the deck's multiset. |
| GameLogic.DealCards | src/lib/gameLogic.ts:40-54 | dealCards first empties every hand, then deals round-robin as above. It keeps order and all other fields, and returns an empty deck. |
| GameLogic.FindPartner | src/lib/gameLogic.ts:67-69 | findIndex returns the first position at or after `from` with an unchecked non-joker card of the same number, or -1 when there is none. |
| GameLogic.PairIndex | src/lib/gameLogic.ts:64-70 | pairIndex is the first later unchecked card that pairs with card i. It is always -1 for the joker. |
| GameLogic.DiscardPairsShape | src/lib/gameLogic.ts:56-82 | The kept hand is pair-free. The discarded cards come in consecutive pairs of equal-numbered non-jokers. No joker is ever discarded. |
| GameLogic.DiscardPairsPermutation | src/lib/gameLogic.ts:56-82 | For distinct ids, kept plus discarded is a permutation of the hand. The kept hand is an order-preserving subsequence. The joker is always kept. |
| GameLogic.DiscardPairsIdempotent | src/lib/gameLogic.ts:61-79 | A pair-free hand is returned whole with nothing discarded, so a second scan discards nothing. |
| GameLogic.DiscardPairs | src/lib/gameLogic.ts:56-82 | The loop computes ScanPairs, and its result carries the shape, permutation and idempotence properties above. |
| EngineSpec.FindById | src/lib/GameManager.ts:97-100 | findIndex by id returns the first seat with that id, or -1 exactly when no seat has it. |
| EngineSpec.FindByName | src/lib/GameManager.ts:29 | find by name returns the first seat with that name, or -1 exactly when no seat has it. |
| EngineSpec.ShuffledDeckUnique | src/lib/GameManager.ts:52-65 | With 53 distinct uuids, the shuffled deck holds 53 different cards with different ids. |
| EngineSpec.StartedHands | src/lib/GameManager.ts:67-86 | After the deal and discard, every hand is pair-free and is a subsequence of the dealt hand. The table holds part of the deck, with unique card ids. |
| EngineSpec.StartInvariant | src/lib/GameManager.ts:49-93 | The started table satisfies the play invariant with seat 0 to move, and no seat is ranked. |
| EngineSpec.DrawIndex | src/lib/GameManager.ts:108 | A given cardIndex is used as is. Otherwise floor(random * length) lies in [0, length). |
| EngineSpec.DrawConserves | src/lib/GameManager.ts:110-125 | With target != drawer, the target loses exactly the card at the index. The drawer's kept hand plus the discards is its old hand plus the drawn card with its highlight cleared. Other seats are untouched. The table's cards, the discards and the drawn card balance out. Card ids stay unique and the new hand is pair-free. |
| EngineSpec.MovedKeeps | src/lib/GameManager.ts:110-125 | The card move changes only hands: ids, ranks and every other field of every seat are kept. |
| EngineSpec.SelfDrawDuplicates | src/lib/GameManager.ts:110-125 | A concrete self-draw: a drawer holding only a joker who draws from itself ends with two copies of that joker, and the table gains a card. |
| EngineSpec.SelfDraw | src/lib/GameManager.ts:111-125 | A self-draw from a pair-free hand with distinct ids: a drawn joker stays at its position and is appended once more, both copies with the highlight cleared, and nothing is discarded. Any other drawn card leaves the hand and is discarded together with its own copy. Every other seat and every other field of the drawer is unchanged. |
| EngineSpec.CountRankedAssign | src/lib/GameManager.ts:162-173 | After the ranking pass, the ranked count is the old count plus the seats that finished now. |
| EngineSpec.RankPassSeats | src/lib/GameManager.ts:161-173 | Each unranked empty-handed seat, in seat order, gets the next rank after the already-ranked count. It gets finishedAt = now. Every other seat is unchanged. Ranks given in this pass increase with seat order. |
| EngineSpec.RankPassRanks | src/lib/GameManager.ts:161-173 | If ranks were 1..k without repeats before the pass, they still are after it, and every unranked seat still holds cards. |
| EngineSpec.CloseLastRanks | src/lib/GameManager.ts:175-183 | When at most one seat is unranked, closing gives it the last rank. All seats then hold distinct ranks in 1..n. Hands and the already-ranked seats are kept. |
| EngineSpec.RatePlayersKeeps | src/lib/GameManager.ts:188-199 | calculateRatings changes only rate and history. A seat with no rank, or rank 0 (falsy), is unchanged. A ranked seat's new rate is at least 30 and is appended to its history. |
| EngineSpec.RatePlayersRanks | src/lib/GameManager.ts:188-199 | calculateRatings keeps every seat's rank. |
| EngineSpec.AfterCheckKeeps | src/lib/GameManager.ts:161-199 | checkFinished keeps ids, hands and existing ranks. |
| EngineSpec.AfterCheckOver | src/lib/GameManager.ts:175-185 | When the game ends, every seat has a distinct rank in 1..n. |
| EngineSpec.AfterCheckGoesOn | src/lib/GameManager.ts:161-176 | When play goes on, only the ranking pass applies. At least two seats are unranked and each of them holds cards. |
| EngineSpec.SeekFinds | src/lib/GameManager.ts:204-210 | The scan loop from a position finds the first eligible seat in circular order, or reports that none is eligible. |
| EngineSpec.NextEligible | src/lib/GameManager.ts:201-222 | The result is the first eligible seat circularly after `from`, or None exactly when no seat is eligible. |
| EngineSpec.TurnHandOver | src/lib/GameManager.ts:201-252 | A seat may take the turn when its hand is non-empty (line 205). It may be targeted when its hand is non-empty and it is not the turn-holder (lines 236-239). While play goes on, the turn passes to a seated, unranked player with cards. That player gets a target that is another such player. |
| EngineSpec.TeaseKeeps | src/lib/GameManager.ts:146-159 | Teasing changes only highlight flags: every seat keeps every other field and its hand size, and every card keeps its id, suit and number. |
| EngineSpec.TeaseFlips | src/lib/GameManager.ts:146-159 | An unknown player or an index outside the hand changes nothing. Otherwise exactly card k of that player's hand has its highlight flipped, and every other card and seat is unchanged. |
| EngineSpec.TeaseTwice | src/lib/GameManager.ts:146-159 | Teasing the same card twice restores the table. |
| EngineSpec.TeaseUnique | src/lib/GameManager.ts:146-159 | Teasing keeps the table's card ids unique. |
| EngineSpec.TeaseInvariant | src/lib/GameManager.ts:146-159 | Teasing keeps the play invariant. |
| EngineSpec.SoftResetClears | src/lib/GameManager.ts:264-281 | After a soft reset no seat is ranked and no card is held. Ids, rates and histories are kept, and each rank becomes the previous rank. |
| EngineSpec.SoftResetInvariant | src/lib/GameManager.ts:254-282 | A soft reset keeps the invariant in the lobby. |
| EngineSpec.JoinKeeps | src/lib/GameManager.ts:43 | Appending a fresh unranked, empty-handed player keeps the invariant. |
| EngineSpec.FindAppend | src/lib/GameManager.ts:43 | Appending a player keeps every existing seat's lookup by id. |
| EngineSpec.FindSameIds | src/lib/GameManager.ts:271-276 | Changing fields other than ids keeps every lookup by id. |
| EngineSpec.MovedInvariant | src/lib/GameManager.ts:110-125 | The card move keeps rank contiguity, ranked-are-empty and unique ids. |
| EngineSpec.RoundEnds | src/lib/GameManager.ts:175-185 | Ending the round gives every seat a rank in 1..n and keeps the invariant in the finished phase. |
| EngineSpec.RoundGoesOn | src/lib/GameManager.ts:138-143 | If the round goes on, the next turn and its target exist, both are in play and they differ. |
| EngineSpec.SettleEnds | src/lib/GameManager.ts:127-143 | Settling a move that ends the round sets the finished phase and every rank in 1..n, and keeps the invariant. |
| EngineSpec.SettleGoesOn | src/lib/GameManager.ts:127-143 | Settling a move that does not end the round stays in play with a valid turn-holder and a different target, both in play. |
| EngineSpec.SettleShape | src/lib/GameManager.ts:127-138 | The last discard is null exactly when no pair formed; otherwise it holds exactly the discarded cards and names the drawer. The players are those that checkFinished produces. |
| EngineSpec.SettleKeepsHands | src/lib/GameManager.ts:127-143 | Settling keeps the card balance, unique ids, the pair structure of the last discard and the drawer's pair-free hand. |
| EngineSpec.DrawOutcome | src/lib/GameManager.ts:95-144 | A draw that passes the guards keeps the invariant and the seat count. If the game finished, every seat has a rank in 1..n. If play goes on, the turn-holder and its target exist, differ and are in play. |
| EngineSpec.DrawHands | src/lib/GameManager.ts:111-125 | With target != drawer, after the whole draw the target holds its hand minus exactly the card at the index, the drawer holds discardPairs(old hand ++ [card]).hand, the last discard holds what that call discarded, and every other seat holds the hand it had. |
| EngineSpec.DrawConservesCards | src/lib/GameManager.ts:110-138 | With target != drawer, the table's cards plus the last discard plus the drawn card equal the old table plus the drawn card with its highlight cleared. Ids stay unique, the last discard is made of pairs, and the drawer's hand is pair-free. |
| Engine.StartShuffle | src/lib/GameManager.ts:62-66 | start's own in-place shuffle ends in FisherYates of the ordered deck with the picks, so it is a permutation. |
| Engine.StartDeal | src/lib/GameManager.ts:68-76 | start's deal loop, driven by pIdx = (pIdx + 1) % n, produces exactly the round-robin deal from seat 0. |
| Engine.StartDiscard | src/lib/GameManager.ts:78-86 | Every seat keeps discardPairs' hand, with rank and finishedAt cleared. |
| Engine.RankFinishers | src/lib/GameManager.ts:162-173 | checkFinished's loop computes the ranking pass and counts its ranked seats. |
| Engine.CloseRound | src/lib/GameManager.ts:175-183 | The game-over branch gives the one seat still unranked, if any, the next rank and finishedAt = now. |
| Engine.DrawMove | src/lib/GameManager.ts:110-125 | draw's card move, including the self-draw case, is exactly Moved. |
| Engine.GameManager.constructor | src/lib/GameManager.ts:10-22 | A new game is in the lobby with no players, an empty turn id, no deck, no winners, round 0, and no last discard or target. |
| Engine.GameManager.Join | src/lib/GameManager.ts:28-47 | An existing name returns that player and changes nothing. Otherwise exactly one player is appended, with rate 100, an empty history, no ranks and no hand. The invariant is kept. |
| Engine.GameManager.Start | src/lib/GameManager.ts:49-93 | With fewer than 2 players nothing changes. Otherwise the players are the started table from the shuffled deck, in the playing phase, seat 0 to move, no last discard, the target computed. Every hand is pair-free and card ids are unique. |
| Engine.GameManager.Begin | src/lib/GameManager.ts:88-92 | The started table is installed, the turn goes to seat 0 and the target is computed. |
| Engine.GameManager.Draw | src/lib/GameManager.ts:95-144 | Each guard that fails (phase, turn, unseated drawer or target, empty target hand, index past the end) changes nothing. Otherwise the new state is DrawResult. The invariant is kept. |
| Engine.GameManager.Finish | src/lib/GameManager.ts:127-143 | After the move, the last discard is recorded, the finish is checked, and the turn passes on while still playing. |
| Engine.GameManager.Tease | src/lib/GameManager.ts:146-159 | Only the players change, to Teased. The invariant is kept. |
| Engine.GameManager.CheckFinished | src/lib/GameManager.ts:161-186 | The players become AfterCheck of the old ones. The phase becomes finished exactly when the round is over. Nothing else changes. |
| Engine.GameManager.CalculateRatings | src/lib/GameManager.ts:188-199 | The players become RatePlayers with isFirstGame = (roundCount == 0). Nothing else changes. |
| Engine.GameManager.AdvanceTurn | src/lib/GameManager.ts:201-222 | Eligibility is a non-empty hand (line 205). The turn goes to the first seat with cards circularly after the current index, and the target is recomputed. With no such seat nothing changes. |
| Engine.GameManager.UpdateTarget | src/lib/GameManager.ts:224-252 | Eligibility is a non-empty hand on a seat other than the turn-holder (lines 236-239). The target becomes the first such seat circularly after the turn-holder, or null. An unknown turn-holder changes nothing. |
| Engine.GameManager.Reset | src/lib/GameManager.ts:254-282 | A hard reset empties players, deck and turn id, sets round 0 and the lobby. A soft reset archives ranks, empties deck and turn id, counts the round and returns to the lobby. Other fields are kept and the invariant holds. |
| Store.StorePlayer | src/lib/serverStore.ts:35-45 | A store-created player is a GameManager joiner whose history starts at [100]: the given id and name, rate 100, an empty hand, no rank, no previous rank, not a bot, not finished. |
| Store.AddedPlayer | src/lib/serverStore.ts:34-52 | addPlayer appends exactly one player, StorePlayer of the fresh id and the name, after the unchanged existing ones. All other fields are unchanged. |
| Store.TableCardsAppend | src/lib/serverStore.ts:49 | A seat appended at the end adds exactly its hand to the table's cards. |
| Store.AddPlayerLookup | src/lib/serverStore.ts:34-52 | With a fresh uuid, the new player is found at the end and every other id is found where it was. No card enters the table and ids stay unique. |
| Store.SoftResetRecord | src/lib/serverStore.ts:57-73 | The soft reset applies the GameManager's per-player reset. It sets the lobby, a null turn, an empty deck and round + 1, and changes nothing else. |
| Store.SoftResetRecordKeeps | src/lib/serverStore.ts:57-73 | Same players in the same order, found by id where they were, with names, rates and histories kept. previousRank takes the old rank. Rank, hand and finishedAt are cleared, so nothing is ranked or held. |
| Store.SoftResetTwice | src/lib/serverStore.ts:57-73 | Two soft resets in a row forget every previous rank and count two rounds. |
| Store.PatchedLaws | src/lib/serverStore.ts:76-78 | updateState with an empty patch changes nothing. A patch applied twice acts once. Two updates act as their merge, where the later fields win. |
| Store.UpdatedPlayers | src/lib/serverStore.ts:80-87 | Every seat with the id gets the patch, and every other seat is unchanged. |
| Store.UpdatePlayerNoMatch | src/lib/serverStore.ts:80-87 | With no player of that id, the players are unchanged. |
| Store.UpdatePlayerIdempotent | src/lib/serverStore.ts:80-87 | updatePlayer applied twice with the same patch acts once. |
| Store.UpdatePlayerLookup | src/lib/serverStore.ts:80-87 | A patch that keeps the id changes the matching seat by exactly the patch. It keeps every other seat, every lookup by id, and unique ids. |
| Store.GameStore.constructor | src/lib/serverStore.ts:90 | A new store has no global record yet. |
| Store.GameStore.GetState | src/lib/serverStore.ts:19-32 | The first access stores and returns a fresh initial record: default-game, lobby, no players, null turn, empty deck, round 0. Later accesses return the stored record unchanged. |
| Store.GameStore.AddPlayer | src/lib/serverStore.ts:34-52 | The global record becomes AddedPlayer of the current one, and the new player is returned. |
| Store.GameStore.ResetGame | src/lib/serverStore.ts:54-74 | A hard reset restores the initial record exactly. A soft reset stores SoftResetRecord of the current one. |
| Store.GameStore.UpdateState | src/lib/serverStore.ts:76-78 | The global record becomes the current one overwritten by the supplied fields. |
| Store.GameStore.UpdatePlayer | src/lib/serverStore.ts:80-87 | Only the players change, to UpdatedPlayers of the current ones. |

## Left out

- The UI, sockets, HTTP routes, the SQLite repository and client polling are outside the engine.
- Bots, timers, vote-to-skip, chat, ownership, history and per-viewer masking of hands are not modelled.
- The `GameState` fields `ownerId`, `votes`, `history` and `messages` are not part of this model. The store's record has only the six fields its initial state sets.
- The `'back'` suit exists only for rendering face-down cards and is not modelled.
- An absent `isHighlighted` is modelled as `false`, and draw's `delete` as setting it to `false`.
- Randomness is modelled by its outcome: shuffle picks, and a `real` in [0, 1) for the draw index. No claim is made about uniformity.
- Engine.GameManager.CheckFinished: one `now` stands for every `Date.now()` call in one checkFinished. The source may read a later clock for later seats.
- Engine.GameManager.Draw: card conservation and unique card ids are proved only when the drawer names another player as target (EngineSpec.DrawConservesCards). The source accepts the drawer itself as target. In that case the drawn card object is still in the old hand and is appended again, so the card is duplicated or discarded against itself (EngineSpec.SelfDrawDuplicates). For this reason unique card ids are not part of the class invariant.
- Engine.GameManager.Draw: a negative or fractional `cardIndex` is excluded: negative values by a precondition, fractional ones because the index is an integer. The source passes the bounds check with either, reads `undefined` at that index and throws when it reads the card's highlight.
- Engine.GameManager.Tease: after a self-draw the two hand positions hold one shared card object in the source, so a tease, or the highlight reset of a later draw, changes both positions. The model keeps the two positions as separate values and changes only the addressed one.
- Engine.GameManager.Start: start builds and shuffles its own deck, with picks j in [0, i] for i = 52..1, instead of calling createDeck. Both shuffles are proved against the same FisherYates function.
- Engine.GameManager.Reset: the last discard and the target are kept, as in the source.
- The store's getter and setter act on a process-wide global. The model holds it in one field of `GameStore`, so two stores do not share it.
- Store.PatchedLaws, Store.UpdatedPlayers: a patch field present with the value `undefined` is not modelled. An absent field is `None`.
- The rating check script's console output is not modelled; its expected values are stated in Rating.ScriptExamples.
