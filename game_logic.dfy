/**
 * The card logic of src/lib/gameLogic.ts: building the 53-card deck, the in-place
 * Fisher-Yates shuffle, the round-robin deal and the greedy removal of pairs.
 * Random choices and fresh uuids are parameters.
 */
module GameLogic {
  import opened Types

  const Suits: seq<Suit> := [Spade, Heart, Diamond, Club]
  const NumbersPerSuit := 13
  /** 4 suits of 13 numbers plus one joker. */
  const DeckSize := 53

  // ---------------------------------------------------------------- the deck

  /** Card k of the deck as createDeck pushes it, before the shuffle. */
  function DeckCard(ids: seq<CardId>, k: nat): Card
    requires |ids| == DeckSize && k < DeckSize
  {
    if k < 52 then Card(ids[k], Suits[k / NumbersPerSuit], k % NumbersPerSuit + 1, false)
    else Card(ids[52], Joker, 0, false)
  }

  /** The unshuffled deck: spades 1..13, hearts, diamonds, clubs, then the joker; card k gets the k-th fresh id. */
  function OrderedDeck(ids: seq<CardId>): (d: seq<Card>)
    requires |ids| == DeckSize
    ensures |d| == DeckSize
  {
    seq(DeckSize, k requires 0 <= k < DeckSize => DeckCard(ids, k))
  }

  /** Some card of `d` shows suit `s` and number `n`. */
  ghost predicate HasFace(d: seq<Card>, s: Suit, n: int)
  {
    exists k :: 0 <= k < |d| && d[k].suit == s && d[k].number == n
  }

  /** The ordered deck holds each suit/number pair exactly once and exactly one joker, numbered 0. */
  lemma OrderedDeckFaces(ids: seq<CardId>)
    requires |ids| == DeckSize
    ensures var d := OrderedDeck(ids);
      (forall k :: 0 <= k < DeckSize ==> d[k].id == ids[k] && !d[k].highlighted) &&
      (forall k :: 0 <= k < DeckSize ==> (d[k].suit == Joker <==> k == 52)) &&
      d[52].number == 0 &&
      (forall k :: 0 <= k < 52 ==> 1 <= d[k].number <= NumbersPerSuit) &&
      (forall s, n :: s in Suits && 1 <= n <= NumbersPerSuit ==> HasFace(d, s, n)) &&
      (forall k1, k2 :: 0 <= k1 < k2 < DeckSize ==> d[k1].suit != d[k2].suit || d[k1].number != d[k2].number)
  {
    var d := OrderedDeck(ids);
    forall s, n | s in Suits && 1 <= n <= NumbersPerSuit
      ensures HasFace(d, s, n)
    {
      var si :| 0 <= si < 4 && Suits[si] == s;
      var k := si * NumbersPerSuit + n - 1;
      assert d[k].suit == s && d[k].number == n;
    }
  }

  /** Picks for Fisher-Yates: the t-th swap exchanges position n-1-t with a position at or below it. */
  ghost predicate ValidPicks(picks: seq<nat>, n: nat)
  {
    |picks| <= n && forall t :: 0 <= t < |picks| ==> picks[t] <= n - 1 - t
  }

  /** Every pick names a position of the deck; the looser bound the swaps themselves need. */
  ghost predicate PicksInRange(picks: seq<nat>, n: nat)
  {
    |picks| <= n && forall t :: 0 <= t < |picks| ==> picks[t] < n
  }

  /** One swap of the shuffle: positions i and j exchange their cards. */
  function Swap<T>(s: seq<T>, i: nat, j: nat): (r: seq<T>)
    requires i < |s| && j < |s|
    ensures |r| == |s| && r[i] == s[j] && r[j] == s[i]
    ensures forall k :: 0 <= k < |s| && k != i && k != j ==> r[k] == s[k]
  {
    s[i := s[j]][j := s[i]]
  }

  /** A swap permutes the cards. */
  lemma SwapPermutes<T>(s: seq<T>, i: nat, j: nat)
    requires i < |s| && j < |s|
    ensures multiset(Swap(s, i, j)) == multiset(s)
  {
    assert multiset(s[i := s[j]]) == multiset(s) - multiset{s[i]} + multiset{s[j]};
  }

  /** The deck after the first m Fisher-Yates swaps: swap t exchanges position n-1-t with picks[t]. */
  function SwapsApplied<T>(s: seq<T>, picks: seq<nat>, m: nat): (r: seq<T>)
    requires PicksInRange(picks, |s|) && m <= |picks|
    ensures |r| == |s|
  {
    if m == 0 then s
    else Swap(SwapsApplied(s, picks, m - 1), |s| - m, picks[m - 1])
  }

  /** Any number of swaps permutes the cards. */
  lemma {:induction false} SwapsPermute<T>(s: seq<T>, picks: seq<nat>, m: nat)
    requires PicksInRange(picks, |s|) && m <= |picks|
    ensures multiset(SwapsApplied(s, picks, m)) == multiset(s)
  {
    if m > 0 {
      var prev := SwapsApplied(s, picks, m - 1);
      var i, j := |s| - m, picks[m - 1];
      assert SwapsApplied(s, picks, m) == Swap(prev, i, j);
      SwapsPermute(s, picks, m - 1);
      SwapPermutes(prev, i, j);
    }
  }

  /** The deck after all the given Fisher-Yates swaps, applied in order: a permutation of the deck. */
  function FisherYates(s: seq<Card>, picks: seq<nat>): (r: seq<Card>)
    requires ValidPicks(picks, |s|)
    ensures |r| == |s| && multiset(r) == multiset(s)
  {
    assert PicksInRange(picks, |s|);
    SwapsPermute(s, picks, |picks|);
    SwapsApplied(s, picks, |picks|)
  }

  /**
   * shuffle: `currentIndex` counts down from the length; each round picks a position below
   * it (`picks[t]` stands for `Math.floor(Math.random() * currentIndex)`) and swaps.
   */
  method Shuffle(a: array<Card>, picks: seq<nat>)
    requires |picks| == a.Length && ValidPicks(picks, a.Length)
    modifies a
    ensures a[..] == FisherYates(old(a[..]), picks)
    ensures multiset(a[..]) == multiset(old(a[..]))
  {
    var currentIndex := a.Length;
    ghost var a0 := a[..];
    while currentIndex != 0
      invariant 0 <= currentIndex <= a.Length
      invariant a[..] == SwapsApplied(a0, picks, a.Length - currentIndex)
    {
      var randomIndex := picks[a.Length - currentIndex];
      currentIndex := currentIndex - 1;
      ghost var prev := a[..];
      a[currentIndex], a[randomIndex] := a[randomIndex], a[currentIndex];
      assert a[..] == prev[currentIndex := prev[randomIndex]][randomIndex := prev[currentIndex]];
      assert a[..] == SwapsApplied(a0, picks, a.Length - currentIndex);
    }
    assert a0 == old(a[..]) && a.Length - currentIndex == |picks|;
  }

  /** Pushes the 52 numbered cards and the joker, each with the next fresh id. */
  method BuildDeck(ids: seq<CardId>) returns (deck: seq<Card>)
    requires |ids| == DeckSize
    ensures deck == OrderedDeck(ids)
  {
    deck := [];
    for si := 0 to |Suits|
      invariant deck == OrderedDeck(ids)[..si * NumbersPerSuit]
    {
      for i := 1 to NumbersPerSuit + 1
        invariant deck == OrderedDeck(ids)[..si * NumbersPerSuit + i - 1]
      {
        deck := deck + [Card(ids[|deck|], Suits[si], i, false)];
      }
    }
    deck := deck + [Card(ids[|deck|], Joker, 0, false)];
  }

  /** createDeck: the ordered deck shuffled in place; a permutation of the 53 cards. */
  method CreateDeck(ids: seq<CardId>, picks: seq<nat>) returns (deck: seq<Card>)
    requires |ids| == DeckSize
    requires |picks| == DeckSize && ValidPicks(picks, DeckSize)
    ensures deck == FisherYates(OrderedDeck(ids), picks)
    ensures |deck| == DeckSize && multiset(deck) == multiset(OrderedDeck(ids))
  {
    var cards := BuildDeck(ids);
    var a := new Card[|cards|](k requires 0 <= k < |cards| => cards[k]);
    assert a[..] == cards;
    Shuffle(a, picks);
    deck := a[..];
  }

  // ---------------------------------------------------------------- dealing

  /** The seat that receives deck card k: the round-robin seat index, back to seat 0 after seat n - 1. */
  function Seat(k: nat, n: nat): (s: nat)
    requires n >= 1
    ensures s < n
  {
    if k == 0 then 0
    else
      var prev := Seat(k - 1, n);
      if prev == n - 1 then 0 else prev + 1
  }

  /** The number of complete rounds dealt before deck card k. */
  function Round(k: nat, n: nat): nat
    requires n >= 1
  {
    if k == 0 then 0 else Round(k - 1, n) + (if Seat(k - 1, n) == n - 1 then 1 else 0)
  }

  /** The hand of `seat` after a round-robin deal of `deck` to n seats. */
  function DealtHand(deck: seq<Card>, n: nat, seat: nat): seq<Card>
    requires n >= 1
    decreases |deck|
  {
    if deck == [] then []
    else
      var k := |deck| - 1;
      DealtHand(deck[..k], n, seat) + (if Seat(k, n) == seat then [deck[k]] else [])
  }

  /** The players after dealCards: the same seats in the same order, each with its dealt hand and nothing else changed. */
  function Dealt(players: seq<Player>, deck: seq<Card>): (r: seq<Player>)
    requires |players| >= 1
    ensures |r| == |players|
  {
    seq(|players|, i requires 0 <= i < |players| => players[i].(hand := DealtHand(deck, |players|, i)))
  }

  lemma {:induction false} MulAtLeast(a: int, n: int)
    requires a >= 1 && n > 0
    ensures a * n >= n
  {
    if a > 1 {
      MulAtLeast(a - 1, n);
      assert a * n == (a - 1) * n + n;
    }
  }

  lemma DivModUnique(x: int, n: int, q: int, r: int)
    requires n > 0 && 0 <= r < n && x == q * n + r
    ensures x / n == q && x % n == r
  {
    var d, m := x / n, x % n;
    assert x == d * n + m;
    assert (d - q) * n == r - m by {
      assert (d - q) * n == d * n - q * n;
    }
    if d > q {
      MulAtLeast(d - q, n);
    } else if d < q {
      assert (q - d) * n == -((d - q) * n);
      MulAtLeast(q - d, n);
    }
  }

  /** Card k is dealt in round Round(k) at seat Seat(k): k = Round(k) * n + Seat(k). */
  lemma {:induction false} SeatRound(k: nat, n: nat)
    requires n >= 1
    ensures Round(k, n) * n + Seat(k, n) == k
  {
    if k > 0 {
      SeatRound(k - 1, n);
      var r := Round(k - 1, n);
      assert (r + 1) * n == r * n + n;
    }
  }

  /** The round-robin seat index is k mod n, the round k / n. */
  lemma SeatIsMod(k: nat, n: nat)
    requires n >= 1
    ensures Seat(k, n) == k % n && Round(k, n) == k / n
  {
    SeatRound(k, n);
    DivModUnique(k, n, Round(k, n), Seat(k, n));
  }

  lemma {:induction false} DealtHandCount(deck: seq<Card>, n: nat, seat: nat)
    requires n >= 1 && seat < n
    ensures |DealtHand(deck, n, seat)| == Round(|deck|, n) + (if seat < Seat(|deck|, n) then 1 else 0)
    decreases |deck|
  {
    if deck != [] {
      DealtHandCount(deck[..|deck| - 1], n, seat);
    }
  }

  /** Seat `seat` receives |deck| / n cards, plus one when it is among the first |deck| mod n seats. */
  lemma DealtHandSize(deck: seq<Card>, n: nat, seat: nat)
    requires n >= 1 && seat < n
    ensures |DealtHand(deck, n, seat)| == |deck| / n + (if seat < |deck| % n then 1 else 0)
  {
    DealtHandCount(deck, n, seat);
    SeatIsMod(|deck|, n);
  }

  /** The j-th card of a seat's hand is deck card j * n + seat: deck card k goes to seat k mod n. */
  lemma {:induction false} DealtHandAt(deck: seq<Card>, n: nat, seat: nat, j: nat)
    requires n >= 1 && seat < n && j < |DealtHand(deck, n, seat)|
    ensures j * n + seat < |deck| && DealtHand(deck, n, seat)[j] == deck[j * n + seat]
    decreases |deck|
  {
    var k := |deck| - 1;
    var prefix := DealtHand(deck[..k], n, seat);
    if j < |prefix| {
      DealtHandAt(deck[..k], n, seat, j);
    } else {
      DealtHandCount(deck[..k], n, seat);
      SeatRound(k, n);
    }
  }

  /** Hand sizes differ by at most one, and an earlier seat never holds fewer cards than a later one. */
  lemma DealBalanced(deck: seq<Card>, n: nat, s1: nat, s2: nat)
    requires n >= 1 && s1 < s2 < n
    ensures var h1, h2 := |DealtHand(deck, n, s1)|, |DealtHand(deck, n, s2)|;
      h2 <= h1 <= h2 + 1
  {
    DealtHandCount(deck, n, s1);
    DealtHandCount(deck, n, s2);
  }

  /** Dealing one more card extends exactly the hand of the seat it falls to. */
  lemma DealStep(players: seq<Player>, deck: seq<Card>, k: nat)
    requires |players| >= 1 && k < |deck|
    ensures var before := Dealt(players, deck[..k]);
      var s := Seat(k, |players|);
      Dealt(players, deck[..k + 1]) == before[s := before[s].(hand := before[s].hand + [deck[k]])]
  {
    var n := |players|;
    var before := Dealt(players, deck[..k]);
    var s := Seat(k, n);
    var after := before[s := before[s].(hand := before[s].hand + [deck[k]])];
    assert deck[..k + 1][..k] == deck[..k];
    forall i | 0 <= i < n
      ensures Dealt(players, deck[..k + 1])[i] == after[i]
    {
      assert DealtHand(deck[..k + 1], n, i) == DealtHand(deck[..k], n, i) + (if Seat(k, n) == i then [deck[k]] else []);
    }
  }

  lemma {:induction false} EmptyHandsTable(ps: seq<Player>)
    requires forall i :: 0 <= i < |ps| ==> ps[i].hand == []
    ensures TableCards(ps) == multiset{}
  {
    if ps != [] {
      EmptyHandsTable(ps[1..]);
    }
  }

  /** Dealing conserves the cards: the table holds exactly the deck. */
  lemma {:induction false} DealConserves(players: seq<Player>, deck: seq<Card>)
    requires |players| >= 1
    ensures TableCards(Dealt(players, deck)) == multiset(deck)
    decreases |deck|
  {
    if deck == [] {
      EmptyHandsTable(Dealt(players, deck));
    } else {
      var k := |deck| - 1;
      var before := Dealt(players, deck[..k]);
      DealConserves(players, deck[..k]);
      var s := Seat(k, |players|);
      var h := before[s].hand;
      DealStep(players, deck, k);
      assert deck[..k + 1] == deck;
      TableCardsUpdate(before, s, h + [deck[k]]);
      assert deck == deck[..k] + [deck[k]];
      assert multiset(h + [deck[k]]) == multiset(h) + multiset{deck[k]};
      calc {
        TableCards(Dealt(players, deck)) + multiset(h);
        TableCards(before) + multiset(h + [deck[k]]);
        multiset(deck[..k]) + multiset{deck[k]} + multiset(h);
        multiset(deck) + multiset(h);
      }
      MultisetCancel(TableCards(Dealt(players, deck)), multiset(deck), multiset(h));
    }
  }

  /**
   * dealCards: resets every hand, then deals the deck round-robin from seat 0; the
   * returned deck is empty.  With no players the source loops forever, hence n >= 1.
   */
  method DealCards(players: seq<Player>, deck: seq<Card>) returns (newPlayers: seq<Player>, rest: seq<Card>)
    requires |players| >= 1
    ensures newPlayers == Dealt(players, deck) && rest == []
  {
    var n := |players|;
    var currentCardIndex := 0;
    newPlayers := seq(n, i requires 0 <= i < n => players[i].(hand := []));
    assert deck[..0] == [];
    while currentCardIndex < |deck|
      invariant 0 <= currentCardIndex <= |deck|
      invariant currentCardIndex < |deck| ==> Seat(currentCardIndex, n) == 0
      invariant newPlayers == Dealt(players, deck[..currentCardIndex])
      decreases |deck| - currentCardIndex
    {
      ghost var start := currentCardIndex;
      for i := 0 to n
        invariant currentCardIndex == start + i
        invariant currentCardIndex <= |deck|
        invariant currentCardIndex < |deck| ==> Seat(currentCardIndex, n) == if i == n then 0 else i
        invariant newPlayers == Dealt(players, deck[..currentCardIndex])
      {
        if currentCardIndex >= |deck| {
          break;
        }
        DealStep(players, deck, currentCardIndex);
        newPlayers := newPlayers[i := newPlayers[i].(hand := newPlayers[i].hand + [deck[currentCardIndex]])];
        currentCardIndex := currentCardIndex + 1;
      }
    }
    assert deck[..|deck|] == deck;
    rest := [];
  }

  // ---------------------------------------------------------------- pairs

  /** What discardPairs returns: the kept hand and the discarded cards, pair after pair. */
  datatype Discard = Discard(hand: seq<Card>, discarded: seq<Card>)

  /** Two non-joker cards with the same number form a pair; the joker never pairs. */
  predicate Matches(c: Card, d: Card)
  {
    c.suit != Joker && d.suit != Joker && c.number == d.number
  }

  /** The findIndex test: a non-joker card with c's number whose id is not yet checked. */
  predicate IsPartner(c: Card, d: Card, checked: set<CardId>)
  {
    d.number == c.number && d.suit != Joker && d.id !in checked
  }

  /** `hand.findIndex(...)` restricted to positions from `from` on; -1 when none qualifies. */
  function FindPartner(hand: seq<Card>, i: nat, checked: set<CardId>, from: nat): (p: int)
    requires i < |hand|
    ensures p == -1 || (from <= p < |hand| && IsPartner(hand[i], hand[p], checked))
    ensures p == -1 ==> forall q :: from <= q < |hand| ==> !IsPartner(hand[i], hand[q], checked)
    ensures p != -1 ==> forall q :: from <= q < p ==> !IsPartner(hand[i], hand[q], checked)
    decreases |hand| - from
  {
    if from >= |hand| then -1
    else if IsPartner(hand[i], hand[from], checked) then from
    else FindPartner(hand, i, checked, from + 1)
  }

  /** `pairIndex` for position i: the first unchecked card after it that pairs with it, or -1 (always -1 for the joker). */
  function PairIndex(hand: seq<Card>, i: nat, checked: set<CardId>): (p: int)
    requires i < |hand|
    ensures p == -1 || (i < p < |hand| && Matches(hand[i], hand[p]) && hand[p].id !in checked)
    ensures p == -1 ==> forall q :: i < q < |hand| ==> !(Matches(hand[i], hand[q]) && hand[q].id !in checked)
    ensures p != -1 ==> forall q :: i < q < p ==> !(Matches(hand[i], hand[q]) && hand[q].id !in checked)
  {
    if hand[i].suit != Joker then FindPartner(hand, i, checked, i + 1) else -1
  }

  /** The loop of discardPairs from position i on, given its `checked` set and the output so far. */
  function ScanFrom(hand: seq<Card>, i: nat, checked: set<CardId>, kept: seq<Card>, discarded: seq<Card>): Discard
    requires i <= |hand|
    decreases |hand| - i
  {
    if i == |hand| then Discard(kept, discarded)
    else if hand[i].id in checked then ScanFrom(hand, i + 1, checked, kept, discarded)
    else
      var p := PairIndex(hand, i, checked);
      if p != -1 then
        ScanFrom(hand, i + 1, checked + {hand[i].id, hand[p].id}, kept, discarded + [hand[i], hand[p]])
      else
        ScanFrom(hand, i + 1, checked, kept + [hand[i]], discarded)
  }

  /** discardPairs as a function of the hand. */
  function ScanPairs(hand: seq<Card>): Discard
  {
    ScanFrom(hand, 0, {}, [], [])
  }

  /** No two cards of `s` form a pair. */
  ghost predicate PairFree(s: seq<Card>)
  {
    forall x, y :: 0 <= x < y < |s| ==> !Matches(s[x], s[y])
  }

  /** `d` is a run of pairs: even length, and cards 2k and 2k+1 pair up (so no joker is among them). */
  ghost predicate InPairs(d: seq<Card>)
  {
    |d| % 2 == 0 && forall k :: 0 <= k < |d| && k % 2 == 0 ==> Matches(d[k], d[k + 1])
  }

  /** The ids of the cards of `s`. */
  function CardIds(s: seq<Card>): set<CardId>
  {
    if s == [] then {} else CardIds(s[..|s| - 1]) + {s[|s| - 1].id}
  }

  /** The cards of `s` whose id is not in `ids`, in their order in `s`. */
  function Keep(s: seq<Card>, ids: set<CardId>): seq<Card>
  {
    if s == [] then []
    else Keep(s[..|s| - 1], ids) + (if s[|s| - 1].id in ids then [] else [s[|s| - 1]])
  }

  /** The cards of `s` whose id is in `ids`, in their order in `s`. */
  function Take(s: seq<Card>, ids: set<CardId>): seq<Card>
  {
    if s == [] then []
    else Take(s[..|s| - 1], ids) + (if s[|s| - 1].id in ids then [s[|s| - 1]] else [])
  }

  /** `a` is `b` with some positions left out, the rest in their order. */
  ghost predicate IsSubsequence(a: seq<Card>, b: seq<Card>)
  {
    exists idx: seq<nat> :: SubsequenceAt(a, b, idx)
  }

  ghost predicate SubsequenceAt(a: seq<Card>, b: seq<Card>, idx: seq<nat>)
  {
    |idx| == |a| &&
    (forall k :: 0 <= k < |idx| ==> idx[k] < |b| && a[k] == b[idx[k]]) &&
    (forall k, l :: 0 <= k < l < |idx| ==> idx[k] < idx[l])
  }

  lemma {:induction false} KeepTakeSplit(s: seq<Card>, ids: set<CardId>)
    ensures multiset(Keep(s, ids)) + multiset(Take(s, ids)) == multiset(s)
  {
    if s != [] {
      var n := |s| - 1;
      KeepTakeSplit(s[..n], ids);
      assert s == s[..n] + [s[n]];
    }
  }

  /** The kept cards sit in `s` at increasing positions. */
  lemma {:induction false} KeepIndices(s: seq<Card>, ids: set<CardId>) returns (idx: seq<nat>)
    ensures SubsequenceAt(Keep(s, ids), s, idx)
  {
    if s == [] {
      idx := [];
    } else {
      var n := |s| - 1;
      var prev := KeepIndices(s[..n], ids);
      idx := prev + (if s[n].id in ids then [] else [n]);
    }
  }

  lemma {:induction false} KeepIgnores(s: seq<Card>, ids: set<CardId>, x: CardId)
    requires forall k :: 0 <= k < |s| ==> s[k].id != x
    ensures Keep(s, ids + {x}) == Keep(s, ids)
  {
    if s != [] {
      KeepIgnores(s[..|s| - 1], ids, x);
    }
  }

  lemma {:induction false} TakeIgnores(s: seq<Card>, ids: set<CardId>, x: CardId)
    requires forall k :: 0 <= k < |s| ==> s[k].id != x
    ensures Take(s, ids + {x}) == Take(s, ids)
  {
    if s != [] {
      TakeIgnores(s[..|s| - 1], ids, x);
    }
  }

  /** Checking one more id moves exactly the card with that id into the taken part. */
  lemma {:induction false} TakeAdd(s: seq<Card>, ids: set<CardId>, q: nat)
    requires DistinctIds(s) && q < |s| && s[q].id !in ids
    ensures multiset(Take(s, ids + {s[q].id})) == multiset(Take(s, ids)) + multiset{s[q]}
  {
    var n := |s| - 1;
    var x := s[q].id;
    if q == n {
      assert forall k :: 0 <= k < n ==> s[..n][k].id != x;
      TakeIgnores(s[..n], ids, x);
      assert Take(s, ids + {x}) == Take(s[..n], ids + {x}) + [s[n]];
      assert Take(s, ids) == Take(s[..n], ids);
    } else {
      assert DistinctIds(s[..n]);
      assert s[..n][q] == s[q];
      TakeAdd(s[..n], ids, q);
      assert s[n].id != x;
      var tail := if s[n].id in ids then [s[n]] else [];
      assert Take(s, ids + {x}) == Take(s[..n], ids + {x}) + tail;
      assert Take(s, ids) == Take(s[..n], ids) + tail;
    }
  }

  lemma {:induction false} TakeNothing(s: seq<Card>)
    ensures Take(s, {}) == []
  {
    if s != [] {
      TakeNothing(s[..|s| - 1]);
    }
  }

  /** Invariant of the scan that yields the pair-free result. */
  ghost predicate ShapeInv(hand: seq<Card>, i: nat, checked: set<CardId>, kept: seq<Card>, discarded: seq<Card>)
  {
    i <= |hand| && PairFree(kept) && InPairs(discarded) &&
    forall x, q :: 0 <= x < |kept| && i <= q < |hand| && Matches(kept[x], hand[q]) ==> hand[q].id in checked
  }

  lemma {:induction false} ScanShape(hand: seq<Card>, i: nat, checked: set<CardId>, kept: seq<Card>, discarded: seq<Card>)
    requires ShapeInv(hand, i, checked, kept, discarded)
    ensures var r := ScanFrom(hand, i, checked, kept, discarded);
      PairFree(r.hand) && InPairs(r.discarded)
    decreases |hand| - i
  {
    if i < |hand| {
      if hand[i].id in checked {
        ScanShape(hand, i + 1, checked, kept, discarded);
      } else {
        var p := PairIndex(hand, i, checked);
        if p != -1 {
          var d := discarded + [hand[i], hand[p]];
          assert forall k :: 0 <= k < |discarded| ==> d[k] == discarded[k];
          ScanShape(hand, i + 1, checked + {hand[i].id, hand[p].id}, kept, d);
        } else {
          var k := kept + [hand[i]];
          assert forall x :: 0 <= x < |kept| ==> k[x] == kept[x];
          ScanShape(hand, i + 1, checked, k, discarded);
        }
      }
    }
  }

  /** Invariant of the scan that yields the permutation, for a hand with distinct ids. */
  ghost predicate ContentInv(hand: seq<Card>, i: nat, checked: set<CardId>, kept: seq<Card>, discarded: seq<Card>)
  {
    i <= |hand| && DistinctIds(hand) &&
    checked == CardIds(discarded) &&
    kept == Keep(hand[..i], checked) &&
    multiset(discarded) == multiset(Take(hand, checked))
  }

  /** Discarding hand[i] with its partner hand[p] keeps the content invariant. */
  lemma ContentPairStep(hand: seq<Card>, i: nat, checked: set<CardId>, kept: seq<Card>, discarded: seq<Card>, p: nat)
    requires ContentInv(hand, i, checked, kept, discarded) && i < p < |hand|
    requires hand[i].id !in checked && hand[p].id !in checked
    ensures ContentInv(hand, i + 1, checked + {hand[i].id, hand[p].id}, kept, discarded + [hand[i], hand[p]])
  {
    var a, b := hand[i].id, hand[p].id;
    var checked' := checked + {a, b};
    var d := discarded + [hand[i], hand[p]];
    assert CardIds(d) == checked' by {
      assert d[..|d| - 1] == discarded + [hand[i]];
      assert (discarded + [hand[i]])[..|discarded|] == discarded;
    }
    assert hand[..i + 1][..i] == hand[..i];
    KeepIgnores(hand[..i], checked, a);
    KeepIgnores(hand[..i], checked + {a}, b);
    assert checked + {a} + {b} == checked';
    TakeAdd(hand, checked, i);
    TakeAdd(hand, checked + {a}, p);
  }

  lemma ContentKeepStep(hand: seq<Card>, i: nat, checked: set<CardId>, kept: seq<Card>, discarded: seq<Card>)
    requires ContentInv(hand, i, checked, kept, discarded) && i < |hand| && hand[i].id !in checked
    ensures ContentInv(hand, i + 1, checked, kept + [hand[i]], discarded)
  {
    assert hand[..i + 1][..i] == hand[..i];
  }

  lemma ContentSkipStep(hand: seq<Card>, i: nat, checked: set<CardId>, kept: seq<Card>, discarded: seq<Card>)
    requires ContentInv(hand, i, checked, kept, discarded) && i < |hand| && hand[i].id in checked
    ensures ContentInv(hand, i + 1, checked, kept, discarded)
  {
    assert hand[..i + 1][..i] == hand[..i];
  }

  lemma {:induction false} ScanContent(hand: seq<Card>, i: nat, checked: set<CardId>, kept: seq<Card>, discarded: seq<Card>)
    requires ContentInv(hand, i, checked, kept, discarded)
    ensures var r := ScanFrom(hand, i, checked, kept, discarded);
      r.hand == Keep(hand, CardIds(r.discarded)) &&
      multiset(r.discarded) == multiset(Take(hand, CardIds(r.discarded)))
    decreases |hand| - i
  {
    if i == |hand| {
      assert hand[..i] == hand;
    } else if hand[i].id in checked {
      ContentSkipStep(hand, i, checked, kept, discarded);
      ScanContent(hand, i + 1, checked, kept, discarded);
    } else {
      var p := PairIndex(hand, i, checked);
      if p != -1 {
        ContentPairStep(hand, i, checked, kept, discarded, p);
        ScanContent(hand, i + 1, checked + {hand[i].id, hand[p].id}, kept, discarded + [hand[i], hand[p]]);
      } else {
        ContentKeepStep(hand, i, checked, kept, discarded);
        ScanContent(hand, i + 1, checked, kept + [hand[i]], discarded);
      }
    }
  }

  /** discardPairs leaves no pair in the hand, and discards a run of pairs of non-joker cards with equal numbers. */
  lemma DiscardPairsShape(hand: seq<Card>)
    ensures PairFree(ScanPairs(hand).hand) && InPairs(ScanPairs(hand).discarded)
    ensures forall c :: c in ScanPairs(hand).discarded ==> c.suit != Joker
  {
    ScanShape(hand, 0, {}, [], []);
    var d := ScanPairs(hand).discarded;
    forall c | c in d
      ensures c.suit != Joker
    {
      var k :| 0 <= k < |d| && d[k] == c;
      if k % 2 == 0 {
        assert Matches(d[k], d[k + 1]);
      } else {
        assert Matches(d[k - 1], d[k]);
      }
    }
  }

  /**
   * For a hand with distinct ids, discardPairs keeps exactly the cards whose ids it did
   * not discard, in their order; kept and discarded together are a permutation of the
   * hand, and a joker in the hand is always kept.
   */
  lemma DiscardPairsPermutation(hand: seq<Card>)
    requires DistinctIds(hand)
    ensures var r := ScanPairs(hand);
      multiset(r.hand) + multiset(r.discarded) == multiset(hand) &&
      r.hand == Keep(hand, CardIds(r.discarded)) &&
      IsSubsequence(r.hand, hand) &&
      forall c :: c in hand && c.suit == Joker ==> c in r.hand
  {
    assert hand[..0] == [];
    TakeNothing(hand);
    ScanContent(hand, 0, {}, [], []);
    var r := ScanPairs(hand);
    KeepTakeSplit(hand, CardIds(r.discarded));
    var idx := KeepIndices(hand, CardIds(r.discarded));
    DiscardPairsShape(hand);
    forall c | c in hand && c.suit == Joker
      ensures c in r.hand
    {
      assert c in multiset(hand);
      assert c !in r.discarded;
    }
  }

  lemma {:induction false} ScanPairFree(hand: seq<Card>, i: nat)
    requires PairFree(hand) && i <= |hand|
    ensures ScanFrom(hand, i, {}, hand[..i], []) == Discard(hand, [])
    decreases |hand| - i
  {
    if i == |hand| {
      assert hand[..i] == hand;
    } else {
      assert PairIndex(hand, i, {}) == -1;
      assert hand[..i] + [hand[i]] == hand[..i + 1];
      ScanPairFree(hand, i + 1);
    }
  }

  /** A hand without pairs comes back unchanged, with nothing discarded; so discardPairs is idempotent. */
  lemma DiscardPairsIdempotent(hand: seq<Card>)
    ensures PairFree(hand) ==> ScanPairs(hand) == Discard(hand, [])
    ensures var kept := ScanPairs(hand).hand; ScanPairs(kept) == Discard(kept, [])
  {
    assert hand[..0] == [];
    if PairFree(hand) {
      ScanPairFree(hand, 0);
    }
    var kept := ScanPairs(hand).hand;
    DiscardPairsShape(hand);
    assert kept[..0] == [];
    ScanPairFree(kept, 0);
  }

  /**
   * discardPairs: one pass over the hand; a card whose id is already checked is skipped,
   * otherwise it is discarded with its first unchecked partner or kept.
   */
  method DiscardPairs(hand: seq<Card>) returns (r: Discard)
    ensures r == ScanPairs(hand)
    ensures PairFree(r.hand) && InPairs(r.discarded)
    ensures DistinctIds(hand) ==>
      multiset(r.hand) + multiset(r.discarded) == multiset(hand) && IsSubsequence(r.hand, hand)
    ensures PairFree(hand) ==> r == Discard(hand, [])
  {
    var newHand: seq<Card> := [];
    var discarded: seq<Card> := [];
    var checked: set<CardId> := {};
    for i := 0 to |hand|
      invariant ScanFrom(hand, i, checked, newHand, discarded) == ScanPairs(hand)
    {
      if hand[i].id in checked {
        continue;
      }
      var pairIndex := -1;
      if hand[i].suit != Joker {
        pairIndex := FindPartner(hand, i, checked, i + 1);
      }
      if pairIndex != -1 {
        checked := checked + {hand[i].id, hand[pairIndex].id};
        discarded := discarded + [hand[i], hand[pairIndex]];
      } else {
        newHand := newHand + [hand[i]];
      }
    }
    r := Discard(newHand, discarded);
    DiscardPairsShape(hand);
    if DistinctIds(hand) {
      DiscardPairsPermutation(hand);
    }
    DiscardPairsIdempotent(hand);
  }
}
