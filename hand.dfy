/**
 * A player's hand (data/Hand.java): an ArrayList of cards changed in place,
 * holding four cards between turns and five for a moment during one.
 */
module Hands {
  import opened Results
  import opened JavaLang
  import opened Cards

  /** The IllegalStateException cases of Hand. */
  datatype HandError = Full | Empty | OutOfRange

  /** addCard refuses a card once the hand holds this many. */
  const MAX_CARDS: nat := 5

  // ---------------------------------------------------------------------------
  // The discard policy and the win condition, on plain lists of cards
  // ---------------------------------------------------------------------------

  /** Position of the first card whose value is not p; |cs| when every card has value p. */
  function FirstOther(cs: seq<Card>, p: int): (i: nat)
    ensures i <= |cs|
    ensures forall j :: 0 <= j < i ==> cs[j].value == p
    ensures i < |cs| ==> cs[i].value != p
  {
    if |cs| == 0 then 0
    else if cs[0].value != p then 0
    else 1 + FirstOther(cs[1..], p)
  }

  /** The position `chooseDiscard(p)` picks: the first card that is not p, else the first card. */
  function DiscardIndex(cs: seq<Card>, p: int): (i: nat)
    requires |cs| > 0
    ensures i < |cs|
  {
    var k := FirstOther(cs, p);
    if k < |cs| then k else 0
  }

  /** Four of a kind: exactly four cards, all of one value. */
  predicate IsWinning(cs: seq<Card>)
  {
    |cs| == 4 && forall i, j :: 0 <= i < 4 && 0 <= j < 4 ==> cs[i].value == cs[j].value
  }

  /** The list with position i taken out and every other card kept in order. */
  function RemoveAt(cs: seq<Card>, i: nat): (r: seq<Card>)
    requires i < |cs|
    ensures |r| == |cs| - 1
    ensures forall j :: 0 <= j < i ==> r[j] == cs[j]
    ensures forall j :: i <= j < |r| ==> r[j] == cs[j + 1]
    ensures multiset(r) + multiset{cs[i]} == multiset(cs)
  {
    assert cs == cs[..i] + [cs[i]] + cs[i + 1..];
    cs[..i] + cs[i + 1..]
  }

  /** `List.indexOf`: the first position holding c, or -1. */
  function IndexOf(cs: seq<Card>, c: Card): (i: int)
    ensures -1 <= i < |cs|
    ensures i >= 0 ==> cs[i] == c && forall j :: 0 <= j < i ==> cs[j] != c
    ensures i == -1 <==> c !in cs
  {
    if |cs| == 0 then -1
    else if cs[0] == c then 0
    else
      var k := IndexOf(cs[1..], c);
      assert c in cs[1..] ==> c in cs;
      if k < 0 then -1 else k + 1
  }

  /**
   * The discard policy: when some card is not p, the chosen card is the first
   * such card (every card before it is p); when every card is p, it is the
   * first card.
   */
  lemma DiscardPolicy(cs: seq<Card>, p: int)
    requires |cs| > 0
    ensures (exists j :: 0 <= j < |cs| && cs[j].value != p) ==>
      cs[DiscardIndex(cs, p)].value != p &&
      forall j :: 0 <= j < DiscardIndex(cs, p) ==> cs[j].value == p
    ensures (forall j :: 0 <= j < |cs| ==> cs[j].value == p) ==> DiscardIndex(cs, p) == 0
  {
    var k := FirstOther(cs, p);
    if exists j :: 0 <= j < |cs| && cs[j].value != p {
      var j :| 0 <= j < |cs| && cs[j].value != p;
      assert k <= j;
    }
  }

  /**
   * The chosen card is in the hand, and `indexOf` finds it at the chosen
   * position: an earlier card equal to it would have been chosen instead.
   */
  lemma DiscardIndexOf(cs: seq<Card>, p: int)
    requires |cs| > 0
    ensures cs[DiscardIndex(cs, p)] in cs
    ensures IndexOf(cs, cs[DiscardIndex(cs, p)]) == DiscardIndex(cs, p)
  {
    var i := DiscardIndex(cs, p);
    var k := IndexOf(cs, cs[i]);
    assert 0 <= k <= i;
  }

  /** The two discard examples: [1,2,3,1] preferring 1 gives a 2; [4,4,4,4] preferring 4 gives the first 4. */
  lemma DiscardExamples()
    ensures DiscardIndex([Card(1), Card(2), Card(3), Card(1)], 1) == 1
    ensures DiscardIndex([Card(4), Card(4), Card(4), Card(4)], 4) == 0
  {
    assert FirstOther([Card(1), Card(2), Card(3), Card(1)], 1) == 1 by {
      assert [Card(1), Card(2), Card(3), Card(1)][1..] == [Card(2), Card(3), Card(1)];
    }
  }

  /** [7,7,7,7] wins; [1,1,1] (three cards) and [1,1,2,3] (mixed) do not. */
  lemma WinningExamples()
    ensures IsWinning([Card(7), Card(7), Card(7), Card(7)])
    ensures !IsWinning([Card(1), Card(1), Card(1)])
    ensures !IsWinning([Card(1), Card(1), Card(2), Card(3)])
  {
    var mixed := [Card(1), Card(1), Card(2), Card(3)];
    assert mixed[0].value != mixed[2].value;
  }

  // ---------------------------------------------------------------------------
  // The Hand object
  // ---------------------------------------------------------------------------

  class Hand {
    var cards: seq<Card>

    constructor(initialCards: seq<Card>)
      ensures cards == initialCards
    {
      cards := initialCards;
    }

    /** `addCard`: appends while the hand holds fewer than five cards, and fails with Full otherwise. */
    method AddCard(card: Card) returns (r: Outcome<HandError>)
      modifies this
      ensures r.Pass? <==> |old(cards)| < MAX_CARDS
      ensures r.Pass? ==> cards == old(cards) + [card]
      ensures r.Fail? ==> r.error == Full && cards == old(cards)
    {
      var length := |cards|;
      if length >= MAX_CARDS {
        return Fail(Full);
      }
      cards := cards + [card];
      return Pass;
    }

    /** `removeCard`: takes out and returns the card at index; Empty or OutOfRange leaves the hand as it was. */
    method RemoveCard(index: int) returns (r: Result<Card, HandError>)
      modifies this
      ensures old(cards) == [] ==> r == Err(Empty) && cards == old(cards)
      ensures old(cards) != [] && !(0 <= index < |old(cards)|) ==> r == Err(OutOfRange) && cards == old(cards)
      ensures 0 <= index < |old(cards)| ==> r == Ok(old(cards)[index]) && cards == RemoveAt(old(cards), index)
    {
      if |cards| == 0 {
        return Err(Empty);
      }
      if index < 0 || index >= |cards| {
        return Err(OutOfRange);
      }
      var removed := cards[index];
      cards := cards[..index] + cards[index + 1..];
      return Ok(removed);
    }

    /** `chooseDiscard`: a scan that reads the hand and leaves it as it is. */
    method ChooseDiscard(preferredValue: int) returns (r: Result<Card, HandError>)
      ensures cards == [] ==> r == Err(Empty)
      ensures cards != [] ==> r == Ok(cards[DiscardIndex(cards, preferredValue)])
    {
      if |cards| == 0 {
        return Err(Empty);
      }
      var i := 0;
      while i < |cards|
        invariant 0 <= i <= |cards|
        invariant forall j :: 0 <= j < i ==> cards[j].value == preferredValue
      {
        var card := cards[i];
        if card.value != preferredValue {
          return Ok(card);
        }
        i := i + 1;
      }
      return Ok(cards[0]);
    }

    /** `hasWinningHand`. */
    method HasWinningHand() returns (r: bool)
      ensures r == IsWinning(cards)
    {
      if |cards| != 4 {
        return false;
      }
      var target := cards[0].value;
      var i := 1;
      while i < 4
        invariant 1 <= i <= 4
        invariant forall j :: 0 <= j < i ==> cards[j].value == target
      {
        if cards[i].value != target {
          assert cards[0].value != cards[i].value;
          return false;
        }
        i := i + 1;
      }
      return true;
    }

    /** `getCards`: a copy of the cards, in hand order. */
    method GetCards() returns (cs: seq<Card>)
      ensures cs == cards
    {
      cs := cards;
    }

    /** `size`. */
    method Size() returns (n: int)
      ensures n == |cards|
    {
      n := |cards|;
    }

    /** `contains`, which compares with `Card.equals`. */
    method Contains(card: Card) returns (b: bool)
      ensures b <==> exists i :: 0 <= i < |cards| && Equals(cards[i], card)
    {
      b := card in cards;
      assert b ==> Equals(cards[IndexOf(cards, card)], card);
    }

    /** `clear`: afterwards the hand is empty and contains no card. */
    method Clear()
      modifies this
      ensures cards == []
      ensures forall c: Card :: c !in cards
    {
      cards := [];
    }

    /** `toString`: the values in hand order, separated by single spaces, with none trailing. */
    method ToString() returns (s: string)
      ensures s == JoinInts(Values(cards))
    {
      ghost var vs := Values(cards);
      var sb := "";
      var i := 0;
      while i < |cards|
        invariant 0 <= i <= |cards|
        invariant sb == JoinInts(vs[..i]) + (if 0 < i < |cards| then " " else "")
      {
        JoinIntsPrefix(vs, i);
        sb := sb + IntToString(cards[i].value);
        if i < |cards| - 1 {
          sb := sb + " ";
        }
        i := i + 1;
      }
      assert vs[..i] == vs;
      s := sb;
    }

    /** `getCardValues`: the values in hand order. */
    method GetCardValues() returns (values: seq<int>)
      ensures values == Values(cards)
    {
      values := [];
      var i := 0;
      while i < |cards|
        invariant 0 <= i <= |cards|
        invariant values == Values(cards[..i])
      {
        assert cards[..i + 1] == cards[..i] + [cards[i]];
        values := values + [cards[i].value];
        i := i + 1;
      }
      assert cards[..i] == cards;
    }

    /** `setCards`: the hand becomes exactly the given list. */
    method SetCards(newCards: seq<Card>)
      modifies this
      ensures cards == newCards
    {
      cards := [];
      cards := cards + newCards;
    }

    /** `isValidHand`. */
    method IsValidHand() returns (b: bool)
      ensures b <==> |cards| == 4
    {
      b := |cards| == 4;
    }
  }

  /** "1 1 2 4" is the text of the values 1, 1, 2, 4. */
  lemma HandValuesTextExample()
    ensures JoinInts([1, 1, 2, 4]) == "1 1 2 4"
  {
    assert IntToString(1) == "1" && IntToString(2) == "2" && IntToString(4) == "4";
    JoinIntsSnoc([], 1);
    assert [] + [1] == [1];
    JoinIntsSnoc([1], 1);
    assert [1] + [1] == [1, 1];
    JoinIntsSnoc([1, 1], 2);
    assert [1, 1] + [2] == [1, 1, 2];
    JoinIntsSnoc([1, 1, 2], 4);
    assert [1, 1, 2] + [4] == [1, 1, 2, 4];
  }

  /** "1 1 2 4" is the text of the hand [1,1,2,4]. */
  lemma HandTextExample()
    ensures JoinInts(Values([Card(1), Card(1), Card(2), Card(4)])) == "1 1 2 4"
  {
    assert Values([Card(1), Card(1), Card(2), Card(4)]) == [1, 1, 2, 4];
    HandValuesTextExample();
  }
}
