/**
 * The set-up and wind-down of a game (GameController.startGame): n decks
 * numbered 0 .. n - 1, the hands dealt and the decks filled from one
 * configuration, the players wired into a ring (player i draws from deck i
 * and discards to deck (i + 1) mod n), and one output file per deck,
 * numbered from 1. Between set-up and wind-down the players take turns;
 * each turn holds the locks of both its decks, so the game is modelled as
 * whole turns taken one after another in any order.
 */
module GameControl {
  import opened JavaLang
  import opened Cards
  import opened Hands
  import opened Decks
  import opened RoundRobin
  import opened GameConfiguration
  import opened Players
  import PlayerLogging
  import DeckLogging

  // ---------------------------------------------------------------------------
  // The ring
  // ---------------------------------------------------------------------------

  /** The deck player i discards to: the next one around the ring of n. */
  function RightIndex(i: nat, n: nat): (r: nat)
    requires i < n
    ensures r < n
    ensures r == i + 1 || (i == n - 1 && r == 0)
  {
    if i + 1 < n then i + 1 else 0
  }

  /** RightIndex is the source's `(i + 1) % numPlayers` for every player index. */
  lemma RightIndexIsMod(i: nat, n: nat)
    requires i < n
    ensures RightIndex(i, n) == (i + 1) % n
  {
    if i + 1 == n {
      assert (i + 1) % n == 0;
    }
  }

  /** The player discarding to deck e: the one before it around the ring. */
  function Feeder(e: nat, n: nat): (i: nat)
    requires e < n
    ensures i < n && RightIndex(i, n) == e
  {
    if e == 0 then n - 1 else e - 1
  }

  /** The only player discarding to deck e is its feeder. */
  lemma OneFeeder(e: nat, n: nat)
    requires e < n
    ensures forall i :: 0 <= i < n && RightIndex(i, n) == e ==> i == Feeder(e, n)
  {
  }

  /**
   * With deck ids equal to their positions, every player locks the deck with
   * the lower number first: player i < n - 1 its own left deck, and the last
   * player the right deck, deck 0, which is what breaks the cycle of the ring.
   */
  lemma RingLockOrder(decks: seq<Deck>, i: nat)
    requires i < |decks|
    requires forall e :: 0 <= e < |decks| ==> decks[e].id == e
    ensures i + 1 < |decks| ==> LockOrder(decks[i], decks[RightIndex(i, |decks|)]) == (decks[i], decks[i + 1])
    ensures i + 1 == |decks| ==> LockOrder(decks[i], decks[RightIndex(i, |decks|)]).0 == decks[0]
  {
  }

  // ---------------------------------------------------------------------------
  // All the cards in the game
  // ---------------------------------------------------------------------------

  /** The cards of a list of hands or decks, all together. */
  function Pooled(qs: seq<seq<Card>>): multiset<Card>
  {
    if qs == [] then multiset{} else Pooled(qs[..|qs| - 1]) + multiset(qs[|qs| - 1])
  }

  /** Replacing entry i of the list changes the pool by exactly the old and new entry. */
  lemma {:induction false} PooledUpdate(qs: seq<seq<Card>>, i: nat, q: seq<Card>)
    requires i < |qs|
    ensures Pooled(qs[i := q]) + multiset(qs[i]) == Pooled(qs) + multiset(q)
    decreases |qs|
  {
    var last := |qs| - 1;
    var qs' := qs[i := q];
    assert Pooled(qs) == Pooled(qs[..last]) + multiset(qs[last]);
    assert Pooled(qs') == Pooled(qs'[..last]) + multiset(qs'[last]);
    if i < last {
      assert qs'[..last] == qs[..last][i := q] && qs'[last] == qs[last] && qs[..last][i] == qs[i];
      PooledUpdate(qs[..last], i, q);
      forall x
        ensures (Pooled(qs') + multiset(qs[i]))[x] == (Pooled(qs) + multiset(q))[x]
      {
        assert (Pooled(qs[..last][i := q]) + multiset(qs[i]))[x] == (Pooled(qs[..last]) + multiset(q))[x];
      }
    } else {
      assert qs'[..last] == qs[..last];
    }
  }

  /** The shares of receivers 0 .. k - 1 when s is dealt round-robin to L receivers. */
  function Shares<T>(s: seq<T>, L: nat, k: nat): (r: seq<seq<T>>)
    requires k <= L
    ensures |r| == k
    ensures forall j :: 0 <= j < k ==> r[j] == Stride(s, L, j)
  {
    if k == 0 then [] else Shares(s, L, k - 1) + [Stride(s, L, k - 1)]
  }

  /** One more list at the end adds its cards to the pool. */
  lemma PooledSnoc(qs: seq<seq<Card>>, q: seq<Card>)
    ensures Pooled(qs + [q]) == Pooled(qs) + multiset(q)
  {
    assert (qs + [q])[..|qs|] == qs;
  }

  /** The shares of the first k receivers hold, card by card, what Dealt counts. */
  lemma {:induction false} PooledShares(s: seq<Card>, L: nat, k: nat, x: Card)
    requires k <= L
    ensures Pooled(Shares(s, L, k))[x] == Dealt(s, L, k, x)
    decreases k
  {
    if k > 0 {
      var st := Stride(s, L, k - 1);
      PooledSnoc(Shares(s, L, k - 1), st);
      PooledShares(s, L, k - 1, x);
      CountIsMultiplicity(st, x);
    }
  }

  /** Dealt round-robin to L > 0 receivers, s is shared out with nothing lost or added. */
  lemma SharesPoolToAll(s: seq<Card>, L: nat)
    requires L > 0
    ensures Pooled(Shares(s, L, L)) == multiset(s)
  {
    forall x
      ensures Pooled(Shares(s, L, L))[x] == multiset(s)[x]
    {
      PooledShares(s, L, L, x);
      DealtAll(s, L, x);
      CountIsMultiplicity(s, x);
    }
  }

  /** Two exchanges that balance each other leave the total as it was (the single-deck turn). */
  lemma Rebalance(a: multiset<Card>, a': multiset<Card>, out1: multiset<Card>, in1: multiset<Card>,
                  b: multiset<Card>, b': multiset<Card>, out2: multiset<Card>, in2: multiset<Card>)
    requires a' + out1 == a + in1 && b' + out2 == b + in2
    requires in1 + in2 == out1 + out2
    ensures a' + b' == a + b
  {
    forall x
      ensures (a' + b')[x] == (a + b)[x]
    {
      assert (a' + out1)[x] == (a + in1)[x];
      assert (b' + out2)[x] == (b + in2)[x];
      assert (in1 + in2)[x] == (out1 + out2)[x];
    }
  }

  /** Three exchanges that balance each other leave the total as it was (the two-deck turn). */
  lemma Rebalance3(a: multiset<Card>, a': multiset<Card>, out1: multiset<Card>, in1: multiset<Card>,
                   b: multiset<Card>, m: multiset<Card>, out2: multiset<Card>, in2: multiset<Card>,
                   b': multiset<Card>, out3: multiset<Card>, in3: multiset<Card>)
    requires a' + out1 == a + in1 && m + out2 == b + in2 && b' + out3 == m + in3
    requires in1 + in2 + in3 == out1 + out2 + out3
    ensures a' + b' == a + b
  {
    forall x
      ensures (a' + b')[x] == (a + b)[x]
    {
      assert (a' + out1)[x] == (a + in1)[x];
      assert (m + out2)[x] == (b + in2)[x];
      assert (b' + out3)[x] == (m + in3)[x];
      assert (in1 + in2 + in3)[x] == (out1 + out2 + out3)[x];
    }
  }

  /** A turn that draws from deck i and discards onto the same deck, on the pools of all hands and decks. */
  lemma SharedTurnPool(hs: seq<seq<Card>>, ds: seq<seq<Card>>, i: nat, h: seq<Card>, q: seq<Card>)
    requires i < |hs| && i < |ds|
    requires multiset(h) + multiset(q) == multiset(hs[i]) + multiset(ds[i])
    ensures Pooled(hs[i := h]) + Pooled(ds[i := q]) == Pooled(hs) + Pooled(ds)
  {
    PooledUpdate(hs, i, h);
    PooledUpdate(ds, i, q);
    Rebalance(Pooled(hs), Pooled(hs[i := h]), multiset(hs[i]), multiset(h),
              Pooled(ds), Pooled(ds[i := q]), multiset(ds[i]), multiset(q));
  }

  /** A turn that draws from deck i and discards onto another deck r, on the pools of all hands and decks. */
  lemma ApartTurnPool(hs: seq<seq<Card>>, ds: seq<seq<Card>>, i: nat, r: nat, h: seq<Card>, t: seq<Card>, q: seq<Card>)
    requires i < |hs| && i < |ds| && r < |ds| && r != i
    requires multiset(h) + multiset(t) + multiset(q) == multiset(hs[i]) + multiset(ds[i]) + multiset(ds[r])
    ensures Pooled(hs[i := h]) + Pooled(ds[i := t][r := q]) == Pooled(hs) + Pooled(ds)
  {
    var mid := ds[i := t];
    PooledUpdate(hs, i, h);
    PooledUpdate(ds, i, t);
    PooledUpdate(mid, r, q);
    assert mid[r] == ds[r];
    Rebalance3(Pooled(hs), Pooled(hs[i := h]), multiset(hs[i]), multiset(h),
               Pooled(ds), Pooled(mid), multiset(ds[i]), multiset(t),
               Pooled(mid[r := q]), multiset(ds[r]), multiset(q));
  }

  /**
   * Player i's turn on the ring, on values: hands hs and decks ds before,
   * hs' and ds' after. The cards of all hands and all decks together are
   * the same afterwards.
   */
  lemma RingTurnConserves(hs: seq<seq<Card>>, ds: seq<seq<Card>>, i: nat, p: int,
                          hs': seq<seq<Card>>, ds': seq<seq<Card>>)
    requires |hs| == |ds| && i < |ds| && ds[i] != []
    requires hs' == hs[i := HandAfter(hs[i], ds[i][0], p)]
    requires RightIndex(i, |ds|) == i ==> ds' == ds[i := ds[i][1..] + [Discard(hs[i], ds[i][0], p)]]
    requires RightIndex(i, |ds|) != i ==>
      ds' == ds[i := ds[i][1..]][RightIndex(i, |ds|) := ds[RightIndex(i, |ds|)] + [Discard(hs[i], ds[i][0], p)]]
    ensures Pooled(hs') + Pooled(ds') == Pooled(hs) + Pooled(ds)
  {
    var r := RightIndex(i, |ds|);
    if r == i {
      TurnConservesShared(hs[i], ds[i], p);
      SharedTurnPool(hs, ds, i, HandAfter(hs[i], ds[i][0], p), ds[i][1..] + [Discard(hs[i], ds[i][0], p)]);
    } else {
      TurnConservesApart(hs[i], ds[i], ds[r], p);
      ApartTurnPool(hs, ds, i, r, HandAfter(hs[i], ds[i][0], p), ds[i][1..], ds[r] + [Discard(hs[i], ds[i][0], p)]);
    }
  }

  // ---------------------------------------------------------------------------
  // The objects of a game
  // ---------------------------------------------------------------------------

  /** The cards of each hand, in list order. */
  ghost function HandCards(hands: seq<Hand>): seq<seq<Card>>
    reads set h | h in hands
  {
    if hands == [] then [] else HandCards(hands[..|hands| - 1]) + [hands[|hands| - 1].cards]
  }

  /** Entry p of HandCards is the cards of hand p. */
  lemma {:induction false} HandCardsAt(hands: seq<Hand>)
    ensures |HandCards(hands)| == |hands|
    ensures forall p :: 0 <= p < |hands| ==> HandCards(hands)[p] == hands[p].cards
    decreases |hands|
  {
    if hands != [] {
      HandCardsAt(hands[..|hands| - 1]);
    }
  }

  /** The queue of each deck, in array order. */
  ghost function DeckQueues(decks: seq<Deck>): seq<seq<Card>>
    reads set d | d in decks
  {
    if decks == [] then [] else DeckQueues(decks[..|decks| - 1]) + [decks[|decks| - 1].queue]
  }

  /** Entry e of DeckQueues is the queue of deck e. */
  lemma {:induction false} DeckQueuesAt(decks: seq<Deck>)
    ensures |DeckQueues(decks)| == |decks|
    ensures forall e :: 0 <= e < |decks| ==> DeckQueues(decks)[e] == decks[e].queue
    decreases |decks|
  {
    if decks != [] {
      DeckQueuesAt(decks[..|decks| - 1]);
    }
  }

  /** Every card of the game, in the hands and in the decks. */
  ghost function InPlay(hands: seq<Hand>, decks: seq<Deck>): multiset<Card>
    reads set h | h in hands, set d | d in decks
  {
    Pooled(HandCards(hands)) + Pooled(DeckQueues(decks))
  }

  /**
   * The players, hands and decks of `startGame`: n of each, the hands and
   * the decks distinct, deck e numbered e, and player i numbered i + 1 with
   * hand i, left deck i and right deck (i + 1) mod n, all sharing one
   * winner state.
   */
  ghost predicate Ring(players: seq<Player>, hands: seq<Hand>, decks: seq<Deck>, winner: WinnerState)
    reads players
  {
    && |players| == |hands| == |decks| > 0
    && (forall a, b :: 0 <= a < b < |hands| ==> hands[a] != hands[b])
    && (forall e :: 0 <= e < |decks| ==> decks[e].id == e)
    && (forall i :: 0 <= i < |players| ==>
          && players[i].id == i + 1
          && players[i].hand == hands[i]
          && players[i].leftDeck == decks[i]
          && players[i].rightDeck == decks[RightIndex(i, |decks|)]
          && players[i].winner == winner)
  }

  /** Every deck is the left deck of exactly one player (player e) and the right deck of exactly one (its feeder). */
  lemma RingSides(players: seq<Player>, hands: seq<Hand>, decks: seq<Deck>, winner: WinnerState, e: nat)
    requires Ring(players, hands, decks, winner) && e < |decks|
    ensures forall i :: 0 <= i < |players| ==> (players[i].leftDeck == decks[e] <==> i == e)
    ensures forall i :: 0 <= i < |players| ==> (players[i].rightDeck == decks[e] <==> i == Feeder(e, |decks|))
  {
    OneFeeder(e, |decks|);
    forall i | 0 <= i < |players|
      ensures players[i].leftDeck == decks[e] ==> i == e
      ensures players[i].rightDeck == decks[e] ==> i == Feeder(e, |decks|)
    {
      assert players[i].leftDeck.id == i;
      assert players[i].rightDeck.id == RightIndex(i, |decks|);
    }
  }

  class GameController {
    /** `winnerFound`, here together with Player's static `winnerId`. */
    const winner: WinnerState

    constructor()
      ensures fresh(winner) && !winner.winnerFound && winner.winnerId == NO_WINNER
    {
      winner := new WinnerState();
    }

    /** The first loop of `startGame`: deck i is a new, empty deck numbered i. */
    method CreateDecks(n: Int32) returns (decks: array<Deck>)
      requires n >= 0
      ensures fresh(decks) && decks.Length == n
      ensures forall e :: 0 <= e < n ==> fresh(decks[e]) && decks[e].id == e && decks[e].queue == []
    {
      var ds: seq<Deck> := [];
      var i := 0;
      while i < n
        invariant 0 <= i <= n && |ds| == i
        invariant forall e :: 0 <= e < i ==> fresh(ds[e]) && ds[e].id == e && ds[e].queue == []
      {
        var d := new Deck(i);
        ds := ds + [d];
        i := i + 1;
      }
      decks := new Deck[n](e requires 0 <= e < |ds| => ds[e]);
    }

    /**
     * The loop creating the players: player i is numbered i + 1, holds hand
     * i, draws from deck i and discards to deck (i + 1) mod n.
     */
    method CreatePlayers(n: Int32, hands: seq<Hand>, decks: seq<Deck>) returns (players: array<Player>)
      requires n > 0 && |hands| == n && |decks| == n
      ensures fresh(players) && players.Length == n
      ensures forall i :: 0 <= i < n ==> fresh(players[i]) && !players[i].iWon
      ensures forall i :: 0 <= i < n ==>
        && players[i].id == i + 1
        && players[i].hand == hands[i]
        && players[i].leftDeck == decks[i]
        && players[i].rightDeck == decks[RightIndex(i, n)]
        && players[i].winner == winner
    {
      var ps: seq<Player> := [];
      var i := 0;
      while i < n
        invariant 0 <= i <= n && |ps| == i
        invariant forall k :: 0 <= k < i ==> fresh(ps[k]) && !ps[k].iWon
        invariant forall k :: 0 <= k < i ==>
          && ps[k].id == k + 1
          && ps[k].hand == hands[k]
          && ps[k].leftDeck == decks[k]
          && ps[k].rightDeck == decks[RightIndex(k, n)]
          && ps[k].winner == winner
      {
        RightIndexIsMod(i, n as nat);
        var leftDeck := decks[i];
        var rightDeck := decks[(i + 1) % n];
        var p := new Player(i + 1, hands[i], leftDeck, rightDeck, winner);
        ps := ps + [p];
        i := i + 1;
      }
      players := new Player[n](k requires 0 <= k < |ps| => ps[k]);
    }

    /**
     * The set-up part of `startGame`: the decks, then the hands dealt from
     * the front of the pack, then the rest of the pack filled into the decks,
     * then the players around the ring. SetUpInPlay turns the hand and deck
     * contents stated here into: every card of the pack is in play, once.
     */
    method StartGame(config: GameConfig) returns (players: array<Player>, hands: seq<Hand>, decks: array<Deck>)
      requires ValidConfig(config)
      ensures fresh(players) && fresh(decks)
      ensures |hands| == decks.Length == players.Length == config.numPlayers
      ensures Ring(players[..], hands, decks[..], winner)
      ensures forall i :: 0 <= i < players.Length ==> fresh(players[..][i]) && !players[..][i].iWon
      ensures forall p :: 0 <= p < |hands| ==>
        fresh(hands[p]) && hands[p].cards == Stride(config.pack[..4 * config.numPlayers], config.numPlayers, p)
      ensures forall e :: 0 <= e < decks.Length ==> fresh(decks[..][e])
      ensures forall e :: 0 <= e < decks.Length ==>
        decks[..][e].queue == Stride(config.pack[4 * config.numPlayers..], config.numPlayers, e)
      ensures forall p :: 0 <= p < |hands| ==> |hands[p].cards| == 4
    {
      var n := config.numPlayers;
      hands, decks := SetUpTable(config);
      players := CreatePlayers(n, hands, decks[..]);
    }

    /**
     * The first three steps of `startGame`: decks 0 .. n - 1, the hands
     * dealt from the first 4n cards, then the remaining 4n cards dealt
     * round-robin into the decks.
     */
    method SetUpTable(config: GameConfig) returns (hands: seq<Hand>, decks: array<Deck>)
      requires ValidConfig(config)
      ensures fresh(decks)
      ensures |hands| == decks.Length == config.numPlayers
      ensures forall p :: 0 <= p < |hands| ==>
        fresh(hands[p]) && hands[p].cards == Stride(config.pack[..4 * config.numPlayers], config.numPlayers, p)
      ensures forall e :: 0 <= e < decks.Length ==> fresh(decks[..][e]) && decks[..][e].id == e
      ensures forall e :: 0 <= e < decks.Length ==>
        decks[..][e].queue == Stride(config.pack[4 * config.numPlayers..], config.numPlayers, e)
      ensures forall a, b :: 0 <= a < b < |hands| ==> hands[a] != hands[b]
      ensures forall p :: 0 <= p < |hands| ==> |hands[p].cards| == 4
    {
      var n := config.numPlayers;
      decks := CreateDecks(n);
      var ds := decks[..];
      assert forall e :: 0 <= e < n ==> fresh(ds[e]) && ds[e].queue == [];
      hands := DealInitialHands(config);
      HandsOfFour(config, hands);
      DistinctDecks(ds);
      FillDecks(config, decks);
      assert decks[..] == ds;
      assert forall e :: 0 <= e < n ==> ds[e].queue == Stride(config.pack[4 * n..], n, e);
    }

    /**
     * The last loop of `startGame`: each deck, in array order, writes the
     * file of DeckLogger numbered `getId() + 1` (int arithmetic) with its
     * values in queue order.
     */
    method LogFinalDecks(decks: array<Deck>) returns (files: seq<(string, seq<string>)>)
      ensures |files| == decks.Length
      ensures forall e :: 0 <= e < decks.Length ==> files[e] == FinalFile(decks[e].id, decks[e].queue)
    {
      files := [];
      var e := 0;
      while e < decks.Length
        invariant 0 <= e <= decks.Length && |files| == e
        invariant forall k :: 0 <= k < e ==> files[k] == FinalFile(decks[k].id, decks[k].queue)
      {
        var file := LogFinalDeck(decks[e]);
        files := files + [file];
        e := e + 1;
      }
    }

    /** One pass of that loop: the deck's number, its values and the DeckLogger file they give. */
    method LogFinalDeck(deck: Deck) returns (file: (string, seq<string>))
      ensures file == FinalFile(deck.id, deck.queue)
    {
      var cs := deck.GetCards();
      var id := deck.GetId();
      var fileName, written := DeckLogging.LogFinalState(Wrap32(id as int + 1), Values(cs));
      file := (fileName, written);
    }
  }

  /** Hands dealt by `dealInitialHands` hold four cards each. */
  lemma HandsOfFour(config: GameConfig, hands: seq<Hand>)
    requires ValidConfig(config) && |hands| == config.numPlayers
    requires forall p :: 0 <= p < |hands| ==>
      hands[p].cards == Stride(config.pack[..4 * config.numPlayers], config.numPlayers, p)
    ensures forall p :: 0 <= p < |hands| ==> |hands[p].cards| == 4
  {
    forall p | 0 <= p < |hands|
      ensures |hands[p].cards| == 4
    {
      InitialHandCards(config, p);
    }
  }

  /** Decks with different ids are different decks. */
  lemma DistinctDecks(decks: seq<Deck>)
    requires forall e :: 0 <= e < |decks| ==> decks[e].id == e
    ensures forall a, b :: 0 <= a < b < |decks| ==> decks[a] != decks[b]
  {
    forall a, b | 0 <= a < b < |decks|
      ensures decks[a] != decks[b]
    {
      assert decks[a].id != decks[b].id;
    }
  }

  /** After the deal and the fill, the hands and the decks hold the pack between them. */
  lemma SetUpInPlay(config: GameConfig, hands: seq<Hand>, decks: seq<Deck>)
    requires ValidConfig(config)
    requires |hands| == |decks| == config.numPlayers
    requires forall p :: 0 <= p < |hands| ==>
      hands[p].cards == Stride(config.pack[..4 * config.numPlayers], config.numPlayers, p)
    requires forall e :: 0 <= e < |decks| ==>
      decks[e].queue == Stride(config.pack[4 * config.numPlayers..], config.numPlayers, e)
    ensures InPlay(hands, decks) == multiset(config.pack)
  {
    var n: int := config.numPlayers;
    var pack := config.pack;
    HandCardsAt(hands);
    DeckQueuesAt(decks);
    assert HandCards(hands) == Shares(pack[..4 * n], n, n);
    assert DeckQueues(decks) == Shares(pack[4 * n..], n, n);
    SharesPoolToAll(pack[..4 * n], n);
    SharesPoolToAll(pack[4 * n..], n);
    assert pack[..4 * n] + pack[4 * n..] == pack;
  }

  /** The file a deck with this id and queue writes at the end: its name and its one line, numbered id + 1. */
  function FinalFile(id: Int32, queue: seq<Card>): (string, seq<string>)
  {
    var number := Wrap32(id as int + 1);
    (DeckLogging.FileName(number), [DeckLogging.FinalLine(number, Values(queue))])
  }

  /**
   * A deck of `startGame` has id e below INT_MAX, so its file is numbered
   * e + 1 with no wrap-around: "deck<e + 1>_output.txt", holding one line
   * (and by DeckLogging.FileNamesDistinct, no two decks share a file).
   */
  lemma FinalFileNumber(e: Int32, queue: seq<Card>)
    requires 0 <= e < INT_MAX
    ensures FinalFile(e, queue) == (DeckLogging.FileName(e + 1), [DeckLogging.FinalLine(e + 1, Values(queue))])
  {
    Wrap32InRange(e + 1);
  }
}
