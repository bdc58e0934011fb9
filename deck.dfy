/**
 * A deck (Deck.java): a FIFO queue of cards, drawn from the front and
 * discarded onto the back, identified by its ring position.
 */
module Decks {
  import opened Results
  import opened JavaLang
  import opened Cards

  /** How many cards `initializeDeck` puts in a deck. */
  const INITIAL_CARDS: nat := 4

  class Deck {
    /** The ring position given at construction; a `const`, so no method can change it. */
    const id: Int32
    var queue: seq<Card>

    constructor(id: Int32)
      ensures this.id == id && queue == []
    {
      this.id := id;
      queue := [];
    }

    /** `getId`. */
    method GetId() returns (r: Int32)
      ensures r == id
    {
      r := id;
    }

    /** `addCard`: the card goes to the back. */
    method AddCard(c: Card)
      modifies this
      ensures queue == old(queue) + [c]
    {
      queue := queue + [c];
    }

    /** `addCards`: the cards go to the back, in list order. */
    method AddCards(cardsToAdd: seq<Card>)
      modifies this
      ensures queue == old(queue) + cardsToAdd
    {
      queue := queue + cardsToAdd;
    }

    /** `Queue.poll`: takes the front card, or gives `None` (Java's null) on an empty queue. */
    method Poll() returns (c: Option<Card>)
      modifies this
      ensures old(queue) == [] ==> c == None && queue == []
      ensures old(queue) != [] ==> c == Some(old(queue)[0]) && queue == old(queue)[1..]
    {
      if queue == [] {
        return None;
      }
      c := Some(queue[0]);
      queue := queue[1..];
    }

    /** `drawCard` on a non-empty deck: removes and returns the front card. */
    method DrawCard() returns (c: Card)
      requires |queue| > 0
      modifies this
      ensures c == old(queue)[0]
      ensures queue == old(queue)[1..]
    {
      var polled := Poll();
      c := polled.value;
    }

    /** `contentsString`: the values in queue order, separated by single spaces ("" for an empty deck). */
    method ContentsString() returns (s: string)
      ensures s == JoinInts(Values(queue))
    {
      var vals: seq<string> := [];
      var i := 0;
      while i < |queue|
        invariant 0 <= i <= |queue|
        invariant vals == Decimals(Values(queue[..i]))
      {
        assert queue[..i + 1] == queue[..i] + [queue[i]];
        assert Values(queue[..i + 1]) == Values(queue[..i]) + [queue[i].value];
        DecimalsSnoc(Values(queue[..i]), queue[i].value);
        vals := vals + [IntToString(queue[i].value)];
        i := i + 1;
      }
      assert queue[..i] == queue;
      s := JoinWords(vals);
    }

    /**
     * `initializeDeck`: empties the deck, then adds four cards of value `id`.
     * A negative id makes the first `new Card(id)` throw, leaving the deck empty.
     */
    method InitializeDeck() returns (r: Outcome<CardError>)
      modifies this
      ensures r.Pass? <==> id >= 0
      ensures r.Pass? ==> |queue| == INITIAL_CARDS && forall k :: 0 <= k < |queue| ==> queue[k].value == id
      ensures r.Fail? ==> r.error == NegativeCardValue(id) && queue == []
    {
      queue := [];
      var i := 0;
      while i < INITIAL_CARDS
        invariant 0 <= i <= INITIAL_CARDS
        invariant |queue| == i
        invariant forall k :: 0 <= k < i ==> queue[k].value == id
        invariant id < 0 ==> i == 0
      {
        var card := NewCard(id);
        if card.Err? {
          return Fail(card.error);
        }
        queue := queue + [card.value];
        i := i + 1;
      }
      return Pass;
    }

    /**
     * `dealInitialCards(count)`: takes the first min(count, size) cards off the
     * front and returns them in order (none for count <= 0).
     */
    method DealInitialCards(count: int) returns (dealt: seq<Card>)
      modifies this
      ensures count <= 0 ==> dealt == [] && queue == old(queue)
      ensures 0 < count <= |old(queue)| ==> dealt == old(queue)[..count] && queue == old(queue)[count..]
      ensures count > |old(queue)| ==> dealt == old(queue) && queue == []
    {
      dealt := [];
      var i := 0;
      while i < count
        invariant 0 <= i <= |old(queue)|
        invariant i == 0 || i <= count
        invariant dealt == old(queue)[..i] && queue == old(queue)[i..]
      {
        var c := Poll();
        if c.None? {
          assert i == |old(queue)|;
          break;
        }
        dealt := dealt + [c.value];
        i := i + 1;
      }
    }

    /** `getCards`: a copy of the queue, front first. */
    method GetCards() returns (cs: seq<Card>)
      ensures cs == queue
    {
      cs := queue;
    }

    /** `size`. */
    method Size() returns (n: int)
      ensures n == |queue|
    {
      n := |queue|;
    }
  }

  /** A card discarded onto a deck comes out after the cards already in it: FIFO order. */
  method FifoExample(x: Card, y: Card, z: Card)
  {
    var d := new Deck(0);
    d.AddCard(x);
    d.AddCards([y, z]);
    var first := d.DrawCard();
    var second := d.DrawCard();
    var third := d.DrawCard();
    assert first == x && second == y && third == z;
    var n := d.Size();
    assert n == 0;
  }
}
