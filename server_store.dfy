/**
 * The polled-API store (src/lib/serverStore.ts): a single process-wide game record that
 * every operation replaces as a whole with a new value computed from the current one.
 */
module Store {
  import opened Types
  import opened EngineSpec

  /**
   * The stored record: the fields the initial state carries. Unlike the GameManager, the
   * store uses null (None) for "nobody's turn".
   */
  datatype Record = Record(
    id: string,
    phase: Phase,
    players: seq<Player>,
    currentTurnPlayerId: Option<PlayerId>,
    deck: seq<Card>,
    roundCount: int)

  /** INITIAL_STATE. */
  const Initial := Record("default-game", Lobby, [], None, [], 0)

  /** The state getter's value: the stored record, or a fresh copy of the initial one. */
  function Current(g: Option<Record>): Record
  {
    if g.Some? then g.value else Initial
  }

  // ---------------------------------------------------------------- addPlayer

  /** A player created by the store: like a GameManager joiner, but the history starts at [100]. */
  function StorePlayer(id: PlayerId, name: string): (p: Player)
    ensures p == NewPlayer(id, name).(rateHistory := [InitialRate])
    ensures p.id == id && p.name == name && p.rate == 100 && p.rateHistory == [100]
    ensures p.hand == [] && p.rank.None? && p.previousRank.None? && !p.isBot && p.finishedAt.None?
  {
    Player(id, name, [], None, None, 100, [100], false, None)
  }

  /** addPlayer's new record: exactly one player appended, nothing else changed. */
  function AddedPlayer(s: Record, name: string, freshId: PlayerId): (r: Record)
    ensures |r.players| == |s.players| + 1 && r.players[..|s.players|] == s.players
    ensures r.players[|s.players|] == StorePlayer(freshId, name)
    ensures r.(players := s.players) == s
  {
    s.(players := s.players + [StorePlayer(freshId, name)])
  }

  /** A seat appended at the end adds its hand to the table's cards. */
  lemma {:induction false} TableCardsAppend(ps: seq<Player>, p: Player)
    ensures TableCards(ps + [p]) == TableCards(ps) + multiset(p.hand)
  {
    if ps != [] {
      assert (ps + [p])[1..] == ps[1..] + [p];
      TableCardsAppend(ps[1..], p);
    }
  }

  /**
   * With a fresh uuid, the new player is found at the end, every other id is found where
   * it was, no card enters the table and the ids stay unique.
   */
  lemma AddPlayerLookup(s: Record, name: string, freshId: PlayerId)
    requires forall i :: 0 <= i < |s.players| ==> s.players[i].id != freshId
    ensures var r := AddedPlayer(s, name, freshId);
      FindById(r.players, freshId) == |s.players| &&
      (forall x :: x != freshId ==> FindById(r.players, x) == FindById(s.players, x)) &&
      TableCards(r.players) == TableCards(s.players) &&
      (UniquePlayerIds(s.players) ==> UniquePlayerIds(r.players))
  {
    var r := AddedPlayer(s, name, freshId);
    assert r.players[|s.players|].id == freshId;
    forall x | x != freshId
      ensures FindById(r.players, x) == FindById(s.players, x)
    {
      FindAppend(s.players, StorePlayer(freshId, name), x);
    }
    TableCardsAppend(s.players, StorePlayer(freshId, name));
  }

  // ---------------------------------------------------------------- resetGame

  /** The soft reset: same players in the same order, ranks archived; back to the lobby. */
  function SoftResetRecord(s: Record): (r: Record)
    ensures r.players == SoftReset(s.players)
    ensures r.(players := s.players) ==
      s.(phase := Lobby, currentTurnPlayerId := None, deck := [], roundCount := s.roundCount + 1)
  {
    s.(phase := Lobby, currentTurnPlayerId := None, deck := [],
       players := SoftReset(s.players), roundCount := s.roundCount + 1)
  }

  /**
   * After a soft reset every id is found where it was, rates and histories are kept, each
   * rank becomes the previous rank, and no seat is ranked or holds a card.
   */
  lemma SoftResetRecordKeeps(s: Record)
    ensures var r := SoftResetRecord(s);
      |r.players| == |s.players| &&
      (forall x :: FindById(r.players, x) == FindById(s.players, x)) &&
      (forall i :: 0 <= i < |s.players| ==>
        r.players[i].name == s.players[i].name && r.players[i].rate == s.players[i].rate &&
        r.players[i].rateHistory == s.players[i].rateHistory &&
        r.players[i].previousRank == s.players[i].rank && r.players[i].rank.None? &&
        r.players[i].hand == [] && r.players[i].finishedAt.None?) &&
      CountRanked(r.players) == 0 && TableCards(r.players) == multiset{}
  {
    var r := SoftResetRecord(s);
    forall x
      ensures FindById(r.players, x) == FindById(s.players, x)
    {
      FindSameIds(r.players, s.players, x);
    }
    SoftResetClears(s.players);
  }

  /** A second soft reset in a row forgets every previous rank and counts one more round. */
  lemma SoftResetTwice(s: Record)
    ensures var r := SoftResetRecord(SoftResetRecord(s));
      r.roundCount == s.roundCount + 2 && |r.players| == |s.players| &&
      forall i :: 0 <= i < |r.players| ==> r.players[i].previousRank.None?
  {
  }

  // ---------------------------------------------------------------- updateState

  /** `Partial<GameState>`: a field that is None is absent from the patch. */
  datatype RecordPatch = RecordPatch(
    id: Option<string>,
    phase: Option<Phase>,
    players: Option<seq<Player>>,
    currentTurnPlayerId: Option<Option<PlayerId>>,
    deck: Option<seq<Card>>,
    roundCount: Option<int>)

  const EmptyRecordPatch := RecordPatch(None, None, None, None, None, None)

  /** The spread's rule for one field: a supplied value wins over the current one. */
  function Pick<T>(o: Option<T>, current: T): T
  {
    if o.Some? then o.value else current
  }

  /** `{ ...s, ...p }`. */
  function Patched(s: Record, p: RecordPatch): Record
  {
    Record(Pick(p.id, s.id), Pick(p.phase, s.phase), Pick(p.players, s.players),
      Pick(p.currentTurnPlayerId, s.currentTurnPlayerId), Pick(p.deck, s.deck),
      Pick(p.roundCount, s.roundCount))
  }

  /** `{ ...p, ...q }` for two patches: q's fields win. */
  function Merged(p: RecordPatch, q: RecordPatch): RecordPatch
  {
    RecordPatch(
      if q.id.Some? then q.id else p.id,
      if q.phase.Some? then q.phase else p.phase,
      if q.players.Some? then q.players else p.players,
      if q.currentTurnPlayerId.Some? then q.currentTurnPlayerId else p.currentTurnPlayerId,
      if q.deck.Some? then q.deck else p.deck,
      if q.roundCount.Some? then q.roundCount else p.roundCount)
  }

  /**
   * updateState overwrites exactly the supplied fields: an empty patch changes nothing, a
   * patch applied twice acts once, and two updates in a row act as their merge.
   */
  lemma PatchedLaws(s: Record, p: RecordPatch, q: RecordPatch)
    ensures Patched(s, EmptyRecordPatch) == s
    ensures Patched(Patched(s, p), p) == Patched(s, p)
    ensures Patched(Patched(s, p), q) == Patched(s, Merged(p, q))
  {
  }

  // ---------------------------------------------------------------- updatePlayer

  /** `Partial<Player>`: a field that is None is absent from the patch. */
  datatype PlayerPatch = PlayerPatch(
    id: Option<PlayerId>,
    name: Option<string>,
    hand: Option<seq<Card>>,
    rank: Option<Option<int>>,
    previousRank: Option<Option<int>>,
    rate: Option<int>,
    rateHistory: Option<seq<int>>,
    isBot: Option<bool>,
    finishedAt: Option<Option<int>>)

  /** `{ ...p, ...patch }`. */
  function PatchPlayer(p: Player, patch: PlayerPatch): Player
  {
    Player(Pick(patch.id, p.id), Pick(patch.name, p.name), Pick(patch.hand, p.hand),
      Pick(patch.rank, p.rank), Pick(patch.previousRank, p.previousRank), Pick(patch.rate, p.rate),
      Pick(patch.rateHistory, p.rateHistory), Pick(patch.isBot, p.isBot),
      Pick(patch.finishedAt, p.finishedAt))
  }

  /** `players.map(p => p.id === pid ? { ...p, ...patch } : p)`. */
  function UpdatedPlayers(ps: seq<Player>, pid: PlayerId, patch: PlayerPatch): (r: seq<Player>)
    ensures |r| == |ps|
    ensures forall i :: 0 <= i < |ps| ==>
      r[i] == if ps[i].id == pid then PatchPlayer(ps[i], patch) else ps[i]
  {
    if ps == [] then []
    else [if ps[0].id == pid then PatchPlayer(ps[0], patch) else ps[0]] + UpdatedPlayers(ps[1..], pid, patch)
  }

  /** With no player of that id the players are unchanged. */
  lemma UpdatePlayerNoMatch(ps: seq<Player>, pid: PlayerId, patch: PlayerPatch)
    requires FindById(ps, pid) == -1
    ensures UpdatedPlayers(ps, pid, patch) == ps
  {
  }

  /** updatePlayer applied twice with the same patch acts once. */
  lemma UpdatePlayerIdempotent(ps: seq<Player>, pid: PlayerId, patch: PlayerPatch)
    ensures var r := UpdatedPlayers(ps, pid, patch);
      UpdatedPlayers(r, pid, patch) == r
  {
    var r := UpdatedPlayers(ps, pid, patch);
    var r2 := UpdatedPlayers(r, pid, patch);
    forall i | 0 <= i < |r|
      ensures r2[i] == r[i]
    {
      if ps[i].id == pid && r[i].id == pid {
        assert r[i] == PatchPlayer(ps[i], patch);
      }
    }
  }

  /**
   * A patch that leaves the id alone changes the matching seat by exactly the patch, keeps
   * every lookup by id and every other seat, and keeps the ids unique.
   */
  lemma UpdatePlayerLookup(ps: seq<Player>, pid: PlayerId, patch: PlayerPatch)
    requires patch.id.None?
    ensures var r := UpdatedPlayers(ps, pid, patch);
      (forall x :: FindById(r, x) == FindById(ps, x)) &&
      (FindById(ps, pid) != -1 ==> r[FindById(ps, pid)] == PatchPlayer(ps[FindById(ps, pid)], patch)) &&
      (forall i :: 0 <= i < |ps| && ps[i].id != pid ==> r[i] == ps[i]) &&
      (UniquePlayerIds(ps) ==> UniquePlayerIds(r))
  {
    var r := UpdatedPlayers(ps, pid, patch);
    forall x
      ensures FindById(r, x) == FindById(ps, x)
    {
      FindSameIds(r, ps, x);
    }
  }

  // ---------------------------------------------------------------- the store

  /** GameStore; `global` stands for the process-wide `__GAME_STORE__` variable. */
  class GameStore {
    var global: Option<Record>

    /** A store whose global record has not been created yet. */
    constructor()
      ensures global == None
    {
      global := None;
    }

    /** The state getter (and getState): the first access stores a fresh initial record. */
    method GetState() returns (s: Record)
      modifies this
      ensures s == Current(old(global)) && global == Some(s)
      ensures old(global).None? ==> s == Initial
      ensures old(global).Some? ==> global == old(global)
    {
      if global.None? {
        global := Some(Initial);
      }
      s := global.value;
    }

    /** addPlayer: `freshId` is the uuid the source draws. */
    method AddPlayer(name: string, freshId: PlayerId) returns (p: Player)
      modifies this
      ensures p == StorePlayer(freshId, name)
      ensures global == Some(AddedPlayer(Current(old(global)), name, freshId))
    {
      p := StorePlayer(freshId, name);
      var s := GetState();
      global := Some(s.(players := s.players + [p]));
    }

    /** resetGame: hard restores the initial record, soft starts the next round in the lobby. */
    method ResetGame(hardReset: bool)
      modifies this
      ensures hardReset ==> global == Some(Initial)
      ensures !hardReset ==> global == Some(SoftResetRecord(Current(old(global))))
    {
      if hardReset {
        global := Some(Initial);
      } else {
        var s := GetState();
        global := Some(s.(phase := Lobby, currentTurnPlayerId := None, deck := [],
                          players := SoftReset(s.players), roundCount := s.roundCount + 1));
      }
    }

    /** updateState. */
    method UpdateState(partial: RecordPatch)
      modifies this
      ensures global == Some(Patched(Current(old(global)), partial))
    {
      var s := GetState();
      global := Some(Patched(s, partial));
    }

    /** updatePlayer: every seat with that id gets the patch; nothing else changes. */
    method UpdatePlayer(playerId: PlayerId, partial: PlayerPatch)
      modifies this
      ensures var s := Current(old(global));
        global == Some(s.(players := UpdatedPlayers(s.players, playerId, partial)))
    {
      var s := GetState();
      global := Some(s.(players := UpdatedPlayers(s.players, playerId, partial)));
    }
  }
}
