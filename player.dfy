/**
 * A player (Player.java) with its sequential parts: the start of `run`
 * (the initial-hand line and the immediate win), one pass of the game loop
 * (draw from the left deck, discard to the right deck, check for a win) and
 * the end of `run` (the informed line and the exit line). The shared
 * `AtomicBoolean winnerFound` and the static `winnerId` are one object of
 * plain state that every player is given.
 */
module Players {
  import opened JavaLang
  import opened Cards
  import opened Hands
  import opened Decks
  import opened PlayerLogging

  /** The value of `winnerId` before anyone has won. */
  const NO_WINNER: int := -1

  /** The flag `winnerFound` and the static `winnerId`, shared by all players. */
  class WinnerState {
    var winnerFound: bool
    var winnerId: int

    constructor()
      ensures !winnerFound && winnerId == NO_WINNER
    {
      winnerFound := false;
      winnerId := NO_WINNER;
    }
  }

  /**
   * The order the two decks are locked in: the left deck first when its id is
   * smaller, the right deck first otherwise, and the other deck second.
   */
  function LockOrder(left: Deck, right: Deck): (locks: (Deck, Deck))
    ensures locks == (left, right) || locks == (right, left)
    ensures locks.0.id <= locks.1.id
    ensures locks.0.id == if left.id < right.id then left.id else right.id
  {
    var first := if left.id < right.id then left else right;
    var second := if first == left then right else left;
    (first, second)
  }

  // ---------------------------------------------------------------------------
  // One turn, on plain lists of cards
  // ---------------------------------------------------------------------------

  /** The card the turn discards: the one `chooseDiscard(p)` picks once `drawn` has joined the hand. */
  function Discard(cs: seq<Card>, drawn: Card, p: int): Card
  {
    var held := cs + [drawn];
    held[DiscardIndex(held, p)]
  }

  /** The hand after the turn: `drawn` added at the end and the chosen discard taken out. */
  function HandAfter(cs: seq<Card>, drawn: Card, p: int): (r: seq<Card>)
    ensures |r| == |cs|
    ensures multiset(r) + multiset{Discard(cs, drawn, p)} == multiset(cs) + multiset{drawn}
  {
    var held := cs + [drawn];
    RemoveAt(held, DiscardIndex(held, p))
  }

  /**
   * Across distinct left and right decks, the cards of the hand and both
   * decks are the same before and after a turn: the front of the left deck
   * moves into the hand and the discard moves onto the right deck.
   */
  lemma TurnConservesApart(cs: seq<Card>, left: seq<Card>, right: seq<Card>, p: int)
    requires left != []
    ensures multiset(HandAfter(cs, left[0], p)) + multiset(left[1..]) + multiset(right + [Discard(cs, left[0], p)])
         == multiset(cs) + multiset(left) + multiset(right)
  {
    var h, d := HandAfter(cs, left[0], p), Discard(cs, left[0], p);
    assert multiset(h) + multiset{d} == multiset(cs) + multiset{left[0]};
    assert left == [left[0]] + left[1..];
    assert multiset(left) == multiset{left[0]} + multiset(left[1..]);
    assert multiset(right + [d]) == multiset(right) + multiset{d};
    assert multiset(h) + multiset(left[1..]) + (multiset(right) + multiset{d})
        == (multiset(h) + multiset{d}) + multiset(left[1..]) + multiset(right);
  }

  /** With one deck on both sides (a single player), the hand and that deck keep their cards. */
  lemma TurnConservesShared(cs: seq<Card>, deck: seq<Card>, p: int)
    requires deck != []
    ensures multiset(HandAfter(cs, deck[0], p)) + multiset(deck[1..] + [Discard(cs, deck[0], p)])
         == multiset(cs) + multiset(deck)
  {
    var h, d := HandAfter(cs, deck[0], p), Discard(cs, deck[0], p);
    assert multiset(h) + multiset{d} == multiset(cs) + multiset{deck[0]};
    assert deck == [deck[0]] + deck[1..];
    assert multiset(deck) == multiset{deck[0]} + multiset(deck[1..]);
    assert multiset(deck[1..] + [d]) == multiset(deck[1..]) + multiset{d};
    assert multiset(h) + (multiset(deck[1..]) + multiset{d}) == (multiset(h) + multiset{d}) + multiset(deck[1..]);
  }

  /** Every copy of c in s is one of its |s| entries. */
  lemma {:induction false} MultiplicityBound(s: seq<Card>, c: Card)
    ensures multiset(s)[c] <= |s|
    ensures (forall k :: 0 <= k < |s| ==> s[k] == c) ==> multiset(s)[c] == |s|
    decreases |s|
  {
    if s != [] {
      var init := s[..|s| - 1];
      MultiplicityBound(init, c);
      assert s == init + [s[|s| - 1]];
    }
  }

  /**
   * The discard keeps the preferred cards: the hand never holds fewer cards
   * of value p after a turn than before, and it holds one more when it draws
   * a p while some card it holds is not a p.
   */
  lemma KeepsPreferred(cs: seq<Card>, drawn: Card, p: CardValue)
    ensures multiset(HandAfter(cs, drawn, p))[Card(p)] >= multiset(cs)[Card(p)]
    ensures drawn == Card(p) && (exists k :: 0 <= k < |cs| && cs[k].value != p) ==>
      multiset(HandAfter(cs, drawn, p))[Card(p)] == multiset(cs)[Card(p)] + 1
  {
    var held := cs + [drawn];
    var d := Discard(cs, drawn, p);
    var r := HandAfter(cs, drawn, p);
    var c := Card(p);
    assert multiset(held) == multiset(cs) + multiset{drawn};
    DiscardPolicy(held, p);
    if exists k :: 0 <= k < |cs| && cs[k].value != p {
      var k :| 0 <= k < |cs| && cs[k].value != p;
      assert held[k] == cs[k];
    }
    if d == c {
      forall k | 0 <= k < |r|
        ensures r[k] == c
      {
        assert r[k] in multiset(r);
        assert r[k] in multiset(held);
        var j :| 0 <= j < |held| && held[j] == r[k];
      }
      MultiplicityBound(r, c);
      MultiplicityBound(cs, c);
    } else {
      assert (multiset(r) + multiset{d})[c] == multiset(r)[c];
      assert (multiset(cs) + multiset{drawn})[c] == multiset(cs)[c] + (if drawn == c then 1 else 0);
    }
  }

  // ---------------------------------------------------------------------------
  // The Player object
  // ---------------------------------------------------------------------------

  class Player {
    const id: Int32
    const hand: Hand
    const leftDeck: Deck
    const rightDeck: Deck
    const winner: WinnerState
    /** `IWon`. */
    var iWon: bool

    constructor(id: Int32, hand: Hand, leftDeck: Deck, rightDeck: Deck, winner: WinnerState)
      ensures this.id == id && this.hand == hand && this.leftDeck == leftDeck && this.rightDeck == rightDeck
      ensures this.winner == winner && !iWon
    {
      this.id := id;
      this.hand := hand;
      this.leftDeck := leftDeck;
      this.rightDeck := rightDeck;
      this.winner := winner;
      iWon := false;
    }

    /** The cards of the hand and the two decks, the deck counted once when it is on both sides. */
    ghost function Table(): multiset<Card>
      reads hand, leftDeck, rightDeck
    {
      multiset(hand.cards) + multiset(leftDeck.queue)
        + (if leftDeck == rightDeck then multiset{} else multiset(rightDeck.queue))
    }

    /** `getId`. */
    method GetId() returns (r: Int32)
      ensures r == id
    {
      r := id;
    }

    /** `hasWon`. */
    method HasWon() returns (r: bool)
      ensures r == iWon
    {
      r := iWon;
    }

    /** `preferredValue`: a player keeps cards of its own number. */
    function PreferredValue(): (p: int)
      ensures p == id
    {
      id
    }

    /**
     * The start of `run`: a fresh log gets the initial-hand line; a winning
     * hand then marks this player and the shared state as won, logs the win
     * and ends `run` at once, without a draw, a discard or an exit line.
     */
    method Start() returns (logger: PlayerLogger, wonAtStart: bool)
      modifies this, winner
      ensures fresh(logger) && logger.playerId == id
      ensures wonAtStart == IsWinning(hand.cards)
      ensures wonAtStart ==> iWon && winner.winnerFound && winner.winnerId == id
      ensures wonAtStart ==> logger.lines == [InitialHandLine(id, Values(hand.cards)), WinLine(id)]
      ensures !wonAtStart ==> iWon == old(iWon) && unchanged(winner)
      ensures !wonAtStart ==> logger.lines == [InitialHandLine(id, Values(hand.cards))]
    {
      logger := new PlayerLogger(id);
      var values := hand.GetCardValues();
      logger.LogInitialHand(values);
      wonAtStart := hand.HasWinningHand();
      if wonAtStart {
        iWon := true;
        winner.winnerFound := true;
        winner.winnerId := id;
        logger.LogWin();
      }
    }

    /**
     * One pass of the game loop, with the left deck holding a card whenever no
     * one has won. `leaves` says whether the loop is left afterwards. When the
     * flag is already set, nothing changes. Otherwise the front of the left
     * deck joins the hand, the chosen discard goes to the back of the right
     * deck, three lines are logged, and a winning hand marks the win, logs
     * it and leaves the loop.
     */
    method Turn(logger: PlayerLogger) returns (leaves: bool)
      requires logger.playerId == id
      requires |hand.cards| < MAX_CARDS
      requires !winner.winnerFound ==> |leftDeck.queue| > 0
      modifies this, hand, leftDeck, rightDeck, winner, logger
      ensures old(winner.winnerFound) ==> leaves && unchanged(this, hand, leftDeck, rightDeck, winner, logger)
      ensures !old(winner.winnerFound) ==>
        var drawn := old(leftDeck.queue)[0];
        var discard := Discard(old(hand.cards), drawn, id);
        && hand.cards == HandAfter(old(hand.cards), drawn, id)
        && (leftDeck != rightDeck ==>
              leftDeck.queue == old(leftDeck.queue)[1..] && rightDeck.queue == old(rightDeck.queue) + [discard])
        && (leftDeck == rightDeck ==> leftDeck.queue == old(leftDeck.queue)[1..] + [discard])
        && leaves == IsWinning(hand.cards)
        && logger.lines == old(logger.lines)
             + [DrawLine(id, drawn.value, leftDeck.id), DiscardLine(id, discard.value, rightDeck.id),
                CurrentHandLine(id, Values(hand.cards))]
             + (if leaves then [WinLine(id)] else [])
      ensures !old(winner.winnerFound) && leaves ==> iWon && winner.winnerFound && winner.winnerId == id
      ensures !old(winner.winnerFound) && !leaves ==> iWon == old(iWon) && unchanged(winner)
      ensures Table() == old(Table())
      ensures |hand.cards| == old(|hand.cards|)
    {
      // `winnerFound.get()` at the loop test and again under the locks: with
      // nothing running alongside, both read the same value.
      if winner.winnerFound {
        return true;
      }
      var locks := LockOrder(leftDeck, rightDeck);
      var drawn, discard := Exchange();
      leaves := Report(logger, drawn, discard);
    }

    /**
     * The cards of one turn (Player.java:75-91): the front of the left deck
     * joins the hand, the chosen discard leaves it for the back of the right
     * deck, and no card is lost or made.
     */
    method Exchange() returns (drawn: Card, discard: Card)
      requires |hand.cards| < MAX_CARDS && |leftDeck.queue| > 0
      modifies hand, leftDeck, rightDeck
      ensures drawn == old(leftDeck.queue)[0]
      ensures discard == Discard(old(hand.cards), drawn, id)
      ensures hand.cards == HandAfter(old(hand.cards), drawn, id)
      ensures leftDeck != rightDeck ==>
        leftDeck.queue == old(leftDeck.queue)[1..] && rightDeck.queue == old(rightDeck.queue) + [discard]
      ensures leftDeck == rightDeck ==> leftDeck.queue == old(leftDeck.queue)[1..] + [discard]
      ensures Table() == old(Table())
    {
      ghost var cs, left, right := hand.cards, leftDeck.queue, rightDeck.queue;
      drawn := leftDeck.DrawCard();
      var added := hand.AddCard(drawn);
      assert added.Pass?;
      var chosen := hand.ChooseDiscard(PreferredValue());
      discard := chosen.value;
      var held := hand.GetCards();
      DiscardIndexOf(held, id);
      var present := hand.Contains(discard);
      if present {
        var removed := hand.RemoveCard(IndexOf(held, discard));
      } else {
        // The fallback `discard = drawn`: the chosen card is always in the hand.
        assert false;
      }
      rightDeck.AddCard(discard);
      if leftDeck == rightDeck {
        TurnConservesShared(cs, left, id);
      } else {
        TurnConservesApart(cs, left, right, id);
      }
    }

    /**
     * The rest of the turn (Player.java:95-113): the draw, discard and
     * current-hand lines, then the win check, which on a winning hand marks
     * the win, logs it and leaves the loop.
     */
    method Report(logger: PlayerLogger, drawn: Card, discard: Card) returns (leaves: bool)
      requires logger.playerId == id
      modifies this, winner, logger
      ensures leaves == IsWinning(hand.cards)
      ensures logger.lines == old(logger.lines)
        + [DrawLine(id, drawn.value, leftDeck.id), DiscardLine(id, discard.value, rightDeck.id),
           CurrentHandLine(id, Values(hand.cards))]
        + (if leaves then [WinLine(id)] else [])
      ensures leaves ==> iWon && winner.winnerFound && winner.winnerId == id
      ensures !leaves ==> iWon == old(iWon) && unchanged(winner)
    {
      ghost var turnLines := [DrawLine(id, drawn.value, leftDeck.id), DiscardLine(id, discard.value, rightDeck.id),
                              CurrentHandLine(id, Values(hand.cards))];
      logger.LogDraw(drawn.value, leftDeck.id);
      logger.LogDiscard(discard.value, rightDeck.id);
      var values := hand.GetCardValues();
      logger.LogCurrentHand(values);
      assert logger.lines == old(logger.lines) + turnLines;
      leaves := hand.HasWinningHand();
      if leaves {
        iWon := true;
        winner.winnerFound := true;
        winner.winnerId := id;
        logger.LogWin();
      }
    }

    /**
     * The end of `run`: the informed line when someone else has won (this
     * player has not, the flag is set and a winner id was recorded), then the
     * exit line.
     */
    method Finish(logger: PlayerLogger)
      requires logger.playerId == id
      modifies logger
      ensures logger.lines == old(logger.lines)
        + (if !iWon && winner.winnerFound && winner.winnerId != NO_WINNER then [InformedLine(id, winner.winnerId)] else [])
        + [ExitLine(id)]
    {
      if !iWon && winner.winnerFound && winner.winnerId != NO_WINNER {
        logger.LogInformedByWinner(winner.winnerId);
      }
      logger.LogExit();
    }
  }
}
