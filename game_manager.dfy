/**
 * The GameManager class (src/lib/GameManager.ts): the authoritative in-memory game that
 * the socket server drives. Every method updates the fields in place and is proved to
 * leave exactly the state the corresponding function of EngineSpec describes.
 */
module Engine {
  import opened Types
  import opened Rating
  import opened GameLogic
  import opened EngineSpec

  /**
   * start's own shuffle: i runs from n - 1 down to 1 and swaps deck[i] with deck[j], j
   * in [0, i] (`picks[t]` stands for `Math.floor(Math.random() * (i + 1))` at i = n-1-t).
   */
  method StartShuffle(a: array<Card>, picks: seq<nat>)
    requires a.Length >= 1 && |picks| == a.Length - 1 && ValidPicks(picks, a.Length)
    modifies a
    ensures a[..] == FisherYates(old(a[..]), picks)
  {
    var i := a.Length - 1;
    ghost var a0 := a[..];
    while i > 0
      invariant 0 <= i <= a.Length - 1
      invariant a[..] == SwapsApplied(a0, picks, a.Length - 1 - i)
    {
      var j := picks[a.Length - 1 - i];
      ghost var prev := a[..];
      a[i], a[j] := a[j], a[i];
      assert a[..] == prev[i := prev[j]][j := prev[i]];
      assert a[..] == SwapsApplied(a0, picks, a.Length - i);
      i := i - 1;
    }
    assert a0 == old(a[..]) && a.Length - 1 - i == |picks|;
  }

  /** start, step 3: every hand emptied, then the deck dealt one card per seat in turn from seat 0. */
  method StartDeal(players: seq<Player>, deck: seq<Card>) returns (dealt: seq<Player>)
    requires |players| >= 1
    ensures dealt == Dealt(players, deck)
  {
    var n := |players|;
    dealt := seq(n, i requires 0 <= i < n => players[i].(hand := []));
    var pIdx := 0;
    assert deck[..0] == [];
    for k := 0 to |deck|
      invariant |dealt| == n && pIdx == Seat(k, n)
      invariant dealt == Dealt(players, deck[..k])
    {
      if pIdx < |dealt| {
        DealStep(players, deck, k);
        dealt := dealt[pIdx := dealt[pIdx].(hand := dealt[pIdx].hand + [deck[k]])];
        pIdx := (pIdx + 1) % n;
        assert pIdx == NextSeat(Seat(k, n), n);
      }
    }
    assert deck[..|deck|] == deck;
  }

  /** The first pass of checkFinished: every seat that has just emptied its hand is ranked in seat order. */
  method RankFinishers(ps: seq<Player>, now: int) returns (ranked: seq<Player>, finishedCount: nat)
    ensures ranked == RankPass(ps, now)
    ensures finishedCount == CountRanked(ranked)
  {
    ranked := ps;
    finishedCount := CountRanked(ps);
    ghost var base := finishedCount;
    for i := 0 to |ps|
      invariant |ranked| == |ps|
      invariant forall j :: 0 <= j < i ==> ranked[j] == RankPass(ps, now)[j]
      invariant forall j :: i <= j < |ps| ==> ranked[j] == ps[j]
      invariant finishedCount == base + NewlyFinished(ps[..i])
    {
      AssignRanksStep(ps, base, now, i);
      RankPassSeat(ps, now, i);
      var p := ranked[i];
      if p.rank.None? && |p.hand| == 0 {
        finishedCount := finishedCount + 1;
        ranked := ranked[i := p.(rank := Some(finishedCount), finishedAt := Some(now))];
      }
    }
    assert ranked == RankPass(ps, now);
    assert ps[..|ps|] == ps;
    CountRankedAssign(ps, base, now);
  }

  /** The game-over step of checkFinished: the one seat still unranked, if any, comes last. */
  method CloseRound(q: seq<Player>, finishedCount: nat, now: int) returns (f: seq<Player>)
    requires finishedCount == CountRanked(q) && |q| - finishedCount <= 1
    ensures f == CloseLast(q, now)
  {
    f := q;
    if |q| - finishedCount == 1 {
      var u := FirstUnranked(q);
      assert u != -1 by {
        ghost var w := UnrankedExists(q, -1);
      }
      f := q[u := q[u].(rank := Some(finishedCount + 1), finishedAt := Some(now))];
    } else {
      CountedAllRanked(q);
    }
  }

  /**
   * draw's card move: seat a takes card idx of seat t, clearing its highlight, and throws
   * away its pairs; the target's new hand is written before the drawer's.
   */
  method DrawMove(ps: seq<Player>, a: nat, t: nat, idx: nat) returns (m: Move)
    requires a < |ps| && t < |ps| && idx < |ps[t].hand|
    ensures m == Moved(ps, a, t, idx)
  {
    var targetHand := ps[t].hand;
    var card := targetHand[idx];
    if card.highlighted {
      card := card.(highlighted := false);
    }
    // the flag is cleared on the card object itself, which the drawer's own hand also
    // holds when the drawer draws from itself
    var currentHand := ps[a].hand;
    if a == t {
      currentHand := currentHand[idx := card];
    }
    var newTargetHand := targetHand[..idx] + targetHand[idx + 1..];
    var r := DiscardPairs(currentHand + [card]);
    var players := ps[t := ps[t].(hand := newTargetHand)];
    players := players[a := players[a].(hand := r.hand)];
    m := Move(players, r.discarded);
  }

  /** start, step 4: each seat keeps what discardPairs leaves of its hand; rank and finish time are cleared. */
  method StartDiscard(players: seq<Player>, deck: seq<Card>, dealt: seq<Player>) returns (ready: seq<Player>)
    requires |players| >= 1 && dealt == Dealt(players, deck)
    ensures ready == Started(players, deck)
  {
    ghost var goal := Started(players, deck);
    ready := [];
    for i := 0 to |dealt|
      invariant |ready| == i
      invariant forall j :: 0 <= j < i ==> ready[j] == goal[j]
    {
      var r := DiscardPairs(dealt[i].hand);
      assert goal[i] == dealt[i].(hand := r.hand, rank := None, finishedAt := None);
      ready := ready + [dealt[i].(hand := r.hand, rank := None, finishedAt := None)];
    }
  }

  class GameManager {
    var id: string
    var phase: Phase
    var players: seq<Player>
    var currentTurnPlayerId: PlayerId
    var deck: seq<Card>
    var winners: seq<Player>
    var roundCount: int
    var lastDiscard: Option<LastDiscard>
    var targetPlayerId: Option<PlayerId>

    /** The whole state as one value, as getState returns it. */
    function State(): GameState
      reads this
    {
      GameState(id, phase, players, currentTurnPlayerId, deck, winners, roundCount, lastDiscard, targetPlayerId)
    }

    ghost predicate Valid()
      reads this
    {
      PlayInvariant(players, phase, currentTurnPlayerId)
    }

    /** A fresh game in the lobby; `gameId` is the uuid the source draws. */
    constructor(gameId: string)
      ensures Valid()
      ensures State() == GameState(gameId, Lobby, [], "", [], [], 0, None, None)
    {
      id := gameId;
      phase := Lobby;
      players := [];
      currentTurnPlayerId := "";
      deck := [];
      winners := [];
      roundCount := 0;
      lastDiscard := None;
      targetPlayerId := None;
    }

    /**
     * join: a name already seated gets that seat's player back and nothing changes;
     * otherwise a new player with the fresh uuid `freshId` is appended.
     */
    method Join(name: string, freshId: PlayerId) returns (p: Player)
      requires Valid()
      requires forall i :: 0 <= i < |players| ==> players[i].id != freshId
      modifies this
      ensures Valid()
      ensures var k := FindByName(old(players), name);
        if k != -1 then p == old(players)[k] && State() == old(State())
        else p == NewPlayer(freshId, name) && State() == old(State()).(players := old(players) + [p])
    {
      var k := FindByName(players, name);
      if k != -1 {
        return players[k];
      }
      p := NewPlayer(freshId, name);
      JoinKeeps(players, phase, currentTurnPlayerId, p);
      players := players + [p];
    }

    /**
     * start: with at least two seats, build the deck from the 53 fresh uuids `ids`, shuffle
     * it with `picks`, deal it round-robin from seat 0, let every seat throw away its
     * pairs, and give the turn to seat 0. With fewer seats nothing changes.
     */
    method Start(ids: seq<CardId>, picks: seq<nat>)
      requires Valid()
      requires |ids| == DeckSize && forall x, y :: 0 <= x < y < |ids| ==> ids[x] != ids[y]
      requires |picks| == DeckSize - 1 && ValidPicks(picks, DeckSize)
      modifies this
      ensures Valid()
      ensures |old(players)| < 2 ==> State() == old(State())
      ensures |old(players)| >= 2 ==>
        var shuffled := FisherYates(OrderedDeck(ids), picks);
        players == Started(old(players), shuffled) &&
        State() == old(State()).(players := players, phase := Playing, currentTurnPlayerId := players[0].id,
                                 lastDiscard := None, targetPlayerId := NewTarget(players, players[0].id, old(targetPlayerId)))
      ensures |old(players)| >= 2 ==>
        var shuffled := FisherYates(OrderedDeck(ids), picks);
        (forall i :: 0 <= i < |players| ==> PairFree(players[i].hand)) &&
        TableCards(players) <= multiset(shuffled) && UniqueIds(TableCards(players))
    {
      if |players| < 2 {
        return;
      }
      // 1. the deck
      var cards := BuildDeck(ids);
      // 2. the shuffle, in place
      var a := new Card[|cards|](k requires 0 <= k < |cards| => cards[k]);
      assert a[..] == cards;
      StartShuffle(a, picks);
      var shuffled := a[..];
      // 3. the deal, and 4. every seat throws away its pairs
      var dealt := StartDeal(players, shuffled);
      var ready := StartDiscard(players, shuffled, dealt);
      assert shuffled == FisherYates(OrderedDeck(ids), picks);
      assert PlayInvariant(ready, Playing, ready[0].id) by {
        StartInvariant(players, shuffled);
      }
      assert (forall i :: 0 <= i < |ready| ==> PairFree(ready[i].hand)) &&
        TableCards(ready) <= multiset(shuffled) && UniqueIds(TableCards(ready)) by {
        ShuffledDeckUnique(ids, picks);
        StartedHands(players, shuffled);
      }
      Begin(ready);
    }

    /** start, step 5: the dealt seats take their places, seat 0 holds the turn and its target is found. */
    method Begin(ready: seq<Player>)
      requires |ready| >= 1
      modifies this
      ensures State() == old(State()).(players := ready, phase := Playing, currentTurnPlayerId := ready[0].id,
                                       lastDiscard := None, targetPlayerId := NewTarget(ready, ready[0].id, old(targetPlayerId)))
    {
      players := ready;
      phase := Playing;
      currentTurnPlayerId := players[0].id;
      lastDiscard := None;
      UpdateTarget(currentTurnPlayerId);
    }

    /**
     * draw: the turn-holder takes a card from the target's hand (at `cardIndex` when
     * given, otherwise at `floor(random * length)`), throws away its pairs, then the
     * finish is checked and, still playing, the turn passes on. A draw that fails any of
     * the guards changes nothing.
     */
    method Draw(actorId: PlayerId, targetId: PlayerId, cardIndex: Option<int>, random: real, now: int)
      requires Valid()
      requires 0.0 <= random < 1.0 && (cardIndex.Some? ==> cardIndex.value >= 0)
      modifies this
      ensures Valid()
      ensures !DrawApplies(old(State()), actorId, targetId, cardIndex, random) ==> State() == old(State())
      ensures DrawApplies(old(State()), actorId, targetId, cardIndex, random) ==>
        State() == DrawResult(old(State()), actorId, targetId, cardIndex, random, now)
    {
      ghost var s0 := State();
      if phase != Playing {
        return;
      }
      if currentTurnPlayerId != actorId {
        return;
      }
      var currentPlayerIndex := FindById(players, actorId);
      var targetPlayerIndex := FindById(players, targetId);
      if currentPlayerIndex == -1 || targetPlayerIndex == -1 {
        return;
      }
      var targetHand := players[targetPlayerIndex].hand;
      if |targetHand| == 0 {
        return;
      }
      var indexToDraw := DrawIndex(cardIndex, random, |targetHand|);
      if indexToDraw >= |targetHand| {
        return;
      }
      assert DrawApplies(s0, actorId, targetId, cardIndex, random);
      ghost var res := DrawResult(s0, actorId, targetId, cardIndex, random, now);
      assert PlayInvariant(res.players, res.phase, res.currentTurnPlayerId) by {
        DrawOutcome(s0, actorId, targetId, cardIndex, random, now);
      }
      var m := DrawMove(players, currentPlayerIndex, targetPlayerIndex, indexToDraw);
      players := m.players;
      Finish(actorId, currentPlayerIndex, m.discarded, now);
      SettleOwnPlayers(s0, m.players, actorId, currentPlayerIndex, m, now);
    }

    /** The rest of draw after the card move: record the discard, check the finish, pass the turn. */
    method Finish(actorId: PlayerId, a: nat, discarded: seq<Card>, now: int)
      requires phase == Playing && a < |players|
      modifies this
      ensures State() == Settle(old(State()), actorId, a, Move(old(players), discarded), now)
    {
      if |discarded| > 0 {
        lastDiscard := Some(LastDiscard(actorId, discarded));
      } else {
        lastDiscard := None;
      }
      CheckFinished(now);
      ghost var q := AfterCheck(old(players), now, roundCount);
      assert players == q;
      if phase == Playing {
        AdvanceTurn(a);
      }
    }

    /** tease: flip the highlight of card `cardIndex` of the player's hand, when both exist. */
    method Tease(playerId: PlayerId, cardIndex: int)
      requires Valid()
      modifies this
      ensures Valid()
      ensures State() == old(State()).(players := Teased(old(players), playerId, cardIndex))
    {
      TeaseInvariant(players, phase, currentTurnPlayerId, playerId, cardIndex);
      var pIdx := FindById(players, playerId);
      if pIdx == -1 {
        return;
      }
      var hand := players[pIdx].hand;
      if !(0 <= cardIndex < |hand|) {
        return;
      }
      var isHi := hand[cardIndex].highlighted;
      players := players[pIdx := players[pIdx].(hand := hand[cardIndex := hand[cardIndex].(highlighted := !isHi)])];
    }

    /**
     * checkFinished: rank, in seat order, every unranked seat with an empty hand; when at
     * most one seat is left unranked the game is over: that seat takes the last place and
     * ratings are computed. `now` is the one clock reading for all finish times.
     */
    method CheckFinished(now: int)
      modifies this
      ensures State() == old(State()).(
        players := AfterCheck(old(players), now, old(roundCount)),
        phase := if RoundOver(old(players), now) then Finished else old(phase))
    {
      var ranked, finishedCount := RankFinishers(players, now);
      players := ranked;
      var activeCount := |players| - finishedCount;
      if activeCount <= 1 {
        phase := Finished;
        players := CloseRound(players, finishedCount, now);
        CalculateRatings();
      }
    }

    /** calculateRatings: every seat with a rank has its rate changed for that rank. */
    method CalculateRatings()
      modifies this
      ensures State() == old(State()).(players := RatePlayers(old(players), old(roundCount) == 0))
    {
      var isFirstGame := roundCount == 0;
      ghost var ps0 := players;
      for i := 0 to |players|
        invariant State() == old(State()).(players := players)
        invariant |players| == |ps0|
        invariant forall j :: 0 <= j < i ==> players[j] == Rated(ps0[j], isFirstGame)
        invariant forall j :: i <= j < |players| ==> players[j] == ps0[j]
      {
        var p := players[i];
        if p.rank.Some? && p.rank.value != 0 {
          var change := CalculateRateChange(p.rate, p.rank.value, p.previousRank, isFirstGame);
          players := players[i := ApplyRateChange(p, change)];
        }
      }
      assert players == RatePlayers(ps0, isFirstGame);
    }

    /** advanceTurn: the turn passes to the next seat round the table that holds cards, if any. */
    method AdvanceTurn(currentIndex: nat)
      requires currentIndex < |players|
      modifies this
      ensures var k := NextEligible(HasCards(old(players)), currentIndex);
        if k.None? then State() == old(State())
        else State() == old(State()).(currentTurnPlayerId := old(players)[k.value].id,
          targetPlayerId := NewTarget(old(players), old(players)[k.value].id, old(targetPlayerId)))
    {
      var n := |players|;
      ghost var e := HasCards(players);
      var nextIndex: nat := (currentIndex + 1) % n;
      var loops := 0;
      assert nextIndex == NextSeat(currentIndex, n);
      while |players[nextIndex].hand| == 0 && loops < n
        invariant nextIndex < n && loops <= n
        invariant Seek(e, nextIndex, loops) == NextEligible(e, currentIndex)
        decreases n - loops
      {
        nextIndex := (nextIndex + 1) % n;
        loops := loops + 1;
      }
      if loops < n {
        var nextPlayerId := players[nextIndex].id;
        currentTurnPlayerId := nextPlayerId;
        UpdateTarget(nextPlayerId);
      } else {
        return;
      }
    }

    /** updateTarget: the next seat round the table that holds cards and is not the turn-holder. */
    method UpdateTarget(turnId: PlayerId)
      modifies this
      ensures State() == old(State()).(targetPlayerId := NewTarget(old(players), turnId, old(targetPlayerId)))
    {
      var currentIdx := FindById(players, turnId);
      if currentIdx == -1 {
        return;
      }
      var n := |players|;
      ghost var e := Targetable(players, turnId);
      var targetIndex: nat := (currentIdx + 1) % n;
      var loops := 0;
      assert targetIndex == NextSeat(currentIdx, n);
      while (|players[targetIndex].hand| == 0 || players[targetIndex].id == turnId) && loops < n
        invariant targetIndex < n && loops <= n
        invariant Seek(e, targetIndex, loops) == NextEligible(e, currentIdx)
        decreases n - loops
      {
        targetIndex := (targetIndex + 1) % n;
        loops := loops + 1;
      }
      if loops < n {
        targetPlayerId := Some(players[targetIndex].id);
      } else {
        targetPlayerId := None;
      }
    }

    /**
     * reset: a hard reset empties the table and the round count; a soft reset archives
     * every rank as the previous rank, clears hands, ranks and finish times and counts the
     * round. Both go back to the lobby; the last discard and the target are kept.
     */
    method Reset(hardReset: bool)
      requires Valid()
      modifies this
      ensures Valid()
      ensures hardReset ==>
        State() == old(State()).(players := [], phase := Lobby, roundCount := 0, deck := [], currentTurnPlayerId := "")
      ensures !hardReset ==>
        State() == old(State()).(roundCount := old(roundCount) + 1, deck := [], currentTurnPlayerId := "",
                                 players := SoftReset(old(players)), phase := Lobby)
    {
      if hardReset {
        players := [];
        phase := Lobby;
        roundCount := 0;
        deck := [];
        currentTurnPlayerId := "";
      } else {
        SoftResetInvariant(players, phase, currentTurnPlayerId, "");
        roundCount := roundCount + 1;
        deck := [];
        currentTurnPlayerId := "";
        players := SoftReset(players);
        phase := Lobby;
      }
    }
  }
}
