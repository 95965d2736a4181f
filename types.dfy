/** Value types shared by the engine (src/types/game.ts): cards, players, the game phase. */
module Types {

  datatype Option<T> = None | Some(value: T)

  /** Card and player ids are uuids; the model only compares them. */
  type CardId = string
  type PlayerId = string

  /** The 'back' suit of the source's type exists only for the client's face-down rendering. */
  datatype Suit = Spade | Heart | Diamond | Club | Joker

  /** `isHighlighted` is an optional flag in the source; absent is modelled as false. */
  datatype Card = Card(id: CardId, suit: Suit, number: int, highlighted: bool)

  datatype Player = Player(
    id: PlayerId,
    name: string,
    hand: seq<Card>,
    rank: Option<int>,
    previousRank: Option<int>,
    rate: int,
    rateHistory: seq<int>,
    isBot: bool,
    finishedAt: Option<int>)

  datatype Phase = Lobby | Playing | Finished

  /** Every new player starts at this rate. */
  const InitialRate := 100

  /** No two cards of `s` share an id. */
  ghost predicate DistinctIds(s: seq<Card>)
  {
    forall x, y :: 0 <= x < y < |s| ==> s[x].id != s[y].id
  }

  /** All the cards held at the table, counted with multiplicity. */
  function TableCards(ps: seq<Player>): multiset<Card>
  {
    if ps == [] then multiset{} else multiset(ps[0].hand) + TableCards(ps[1..])
  }

  /** Replacing one seat's hand changes the table's cards by exactly that hand. */
  lemma {:induction false} TableCardsUpdate(ps: seq<Player>, i: nat, h: seq<Card>)
    requires i < |ps|
    ensures TableCards(ps[i := ps[i].(hand := h)]) + multiset(ps[i].hand) == TableCards(ps) + multiset(h)
  {
    if i == 0 {
      assert ps[i := ps[i].(hand := h)][1..] == ps[1..];
    } else {
      var ps' := ps[i := ps[i].(hand := h)];
      assert ps'[1..] == ps[1..][i - 1 := ps[1..][i - 1].(hand := h)];
      TableCardsUpdate(ps[1..], i - 1, h);
      assert TableCards(ps'[1..]) + multiset(ps[1..][i - 1].hand) == TableCards(ps[1..]) + multiset(h);
      calc {
        TableCards(ps') + multiset(ps[i].hand);
        multiset(ps[0].hand) + (TableCards(ps'[1..]) + multiset(ps[1..][i - 1].hand));
        multiset(ps[0].hand) + (TableCards(ps[1..]) + multiset(h));
        TableCards(ps) + multiset(h);
      }
    }
  }

  lemma MultisetCancel<T>(a: multiset<T>, b: multiset<T>, c: multiset<T>)
    requires a + c == b + c
    ensures a == b
  {
    forall x
      ensures a[x] == b[x]
    {
      assert (a + c)[x] == (b + c)[x];
    }
  }

  /** One seat's hand is part of the table. */
  lemma {:induction false} HandInTable(ps: seq<Player>, i: nat)
    requires i < |ps|
    ensures multiset(ps[i].hand) <= TableCards(ps)
  {
    if i > 0 {
      HandInTable(ps[1..], i - 1);
    }
  }

  /** Two different seats' hands are disjoint parts of the table. */
  lemma {:induction false} TwoHandsInTable(ps: seq<Player>, i: nat, j: nat)
    requires i < |ps| && j < |ps| && i != j
    ensures multiset(ps[i].hand) + multiset(ps[j].hand) <= TableCards(ps)
  {
    if i == 0 {
      HandInTable(ps[1..], j - 1);
    } else if j == 0 {
      HandInTable(ps[1..], i - 1);
    } else {
      TwoHandsInTable(ps[1..], i - 1, j - 1);
    }
  }

  /** Changing fields other than the hand leaves the table's cards alone. */
  lemma {:induction false} TableCardsSameHands(ps: seq<Player>, qs: seq<Player>)
    requires |ps| == |qs|
    requires forall i :: 0 <= i < |ps| ==> ps[i].hand == qs[i].hand
    ensures TableCards(ps) == TableCards(qs)
  {
    if ps != [] {
      TableCardsSameHands(ps[1..], qs[1..]);
    }
  }

  /** Every card of the multiset occurs once and no two of them share an id. */
  ghost predicate UniqueIds(m: multiset<Card>)
  {
    (forall c :: c in m ==> m[c] == 1) &&
    (forall c, d :: c in m && d in m && c.id == d.id ==> c == d)
  }

  /** Distinct ids within one hand follow from unique ids on the whole table. */
  lemma UniqueIdsDistinct(s: seq<Card>, m: multiset<Card>)
    requires multiset(s) <= m && UniqueIds(m)
    ensures DistinctIds(s)
  {
    forall x, y | 0 <= x < y < |s|
      ensures s[x].id != s[y].id
    {
      assert s == s[..x] + [s[x]] + s[x + 1..y] + [s[y]] + s[y + 1..];
    }
  }

  /** Unique ids survive taking a part of the multiset. */
  lemma UniqueIdsSub(m: multiset<Card>, n: multiset<Card>)
    requires UniqueIds(m) && n <= m
    ensures UniqueIds(n)
  {
  }

  /** Unique ids survive replacing a card by another with the same id. */
  lemma UniqueIdsReplace(m: multiset<Card>, c: Card, c': Card)
    requires UniqueIds(m) && c in m && c'.id == c.id
    ensures UniqueIds(m - multiset{c} + multiset{c'})
  {
    var n := m - multiset{c} + multiset{c'};
    forall d | d in n ensures n[d] == 1 {
      if d != c' {
        assert d in m && d != c;
      }
    }
  }

  /** Distinct ids within a sequence make its multiset one of unique ids. */
  lemma {:induction false} DistinctUnique(s: seq<Card>)
    requires DistinctIds(s)
    ensures UniqueIds(multiset(s))
  {
    if s != [] {
      var n := |s| - 1;
      assert DistinctIds(s[..n]);
      DistinctUnique(s[..n]);
      assert s == s[..n] + [s[n]];
      forall c | c in s[..n]
        ensures c.id != s[n].id
      {
        var k :| 0 <= k < n && s[..n][k] == c;
      }
    }
  }

  /** Hands that are each part of the corresponding hand give a part of the table. */
  lemma {:induction false} TableCardsSub(ps: seq<Player>, qs: seq<Player>)
    requires |ps| == |qs|
    requires forall i :: 0 <= i < |ps| ==> multiset(ps[i].hand) <= multiset(qs[i].hand)
    ensures TableCards(ps) <= TableCards(qs)
  {
    if ps != [] {
      TableCardsSub(ps[1..], qs[1..]);
    }
  }
}
