/**
 * The game set-up (GameConfig.java): a validated player count and pack, the
 * round-robin deal of four cards to each hand, and the round-robin fill of
 * the decks with the rest of the pack.
 */
module GameConfiguration {
  import opened Results
  import opened JavaLang
  import opened Cards
  import opened Hands
  import opened Decks
  import opened RoundRobin

  /** The final fields of a GameConfig; the pack is the constructor's own copy. */
  datatype GameConfig = GameConfig(numPlayers: Int32, packFilePath: string, pack: seq<Card>)

  /** The IllegalArgumentException cases of the constructor. */
  datatype ConfigError = NonPositivePlayers(numPlayers: int) | WrongPackSize(actual: int, expected: int)

  /** What every constructed configuration satisfies: some players, and eight cards for each. */
  predicate ValidConfig(c: GameConfig)
  {
    c.numPlayers > 0 && |c.pack| == 8 * c.numPlayers
  }

  /**
   * The constructor as written: the expected size `numPlayers * 8` is computed
   * in 32-bit int arithmetic and wraps around once numPlayers exceeds
   * INT_MAX / 8.
   */
  function NewGameConfigAsWritten(n: Int32, path: string, pack: seq<Card>): (r: Result<GameConfig, ConfigError>)
    ensures r.Ok? <==> n > 0 && |pack| == Wrap32(n * 8)
    ensures r.Ok? ==> r.value == GameConfig(n, path, pack)
  {
    if n <= 0 then Err(NonPositivePlayers(n))
    else if |pack| != Wrap32(n * 8) then Err(WrongPackSize(|pack|, Wrap32(n * 8)))
    else Ok(GameConfig(n, path, pack))
  }

  /** 536870913 players and a pack of 8 cards pass the check as written: 536870913 * 8 wraps to 8. */
  lemma ConfigOverflow(path: string, pack: seq<Card>)
    requires |pack| == 8
    ensures NewGameConfigAsWritten(536870913, path, pack).Ok?
    ensures !ValidConfig(NewGameConfigAsWritten(536870913, path, pack).value)
  {
    assert Wrap32(536870913 * 8) == 8;
  }

  /**
   * The constructor as intended: numPlayers must be positive and the pack
   * must hold exactly 8 * numPlayers cards; the configuration keeps the
   * pack as given.
   */
  function NewGameConfig(n: Int32, path: string, pack: seq<Card>): (r: Result<GameConfig, ConfigError>)
    ensures r.Ok? <==> n > 0 && |pack| == 8 * n
    ensures r.Ok? ==> r.value == GameConfig(n, path, pack) && ValidConfig(r.value)
    ensures n <= 0 ==> r == Err(NonPositivePlayers(n))
    ensures n > 0 && |pack| != 8 * n ==> r == Err(WrongPackSize(|pack|, 8 * n))
  {
    if n <= 0 then Err(NonPositivePlayers(n))
    else if |pack| != 8 * n then Err(WrongPackSize(|pack|, 8 * n))
    else Ok(GameConfig(n, path, pack))
  }

  /** Whenever 8 * numPlayers fits in an int, the constructor as written decides as intended. */
  lemma ConfigAgrees(n: Int32, path: string, pack: seq<Card>)
    requires 8 * n <= INT_MAX
    ensures NewGameConfigAsWritten(n, path, pack) == NewGameConfig(n, path, pack)
  {
    if n > 0 {
      Wrap32InRange(n * 8);
    }
  }

  /** `getNumPlayers`. */
  function GetNumPlayers(c: GameConfig): Int32
  {
    c.numPlayers
  }

  /** `getPackFilePath`. */
  function GetPackFilePath(c: GameConfig): string
  {
    c.packFilePath
  }

  /** `getPack`: a copy of the pack; as a value it shares nothing with the caller's list. */
  function GetPack(c: GameConfig): seq<Card>
  {
    c.pack
  }

  /** A constructed configuration gives back the player count, path and pack it was built from. */
  lemma ConfigGetters(n: Int32, path: string, pack: seq<Card>)
    requires NewGameConfig(n, path, pack).Ok?
    ensures GetNumPlayers(NewGameConfig(n, path, pack).value) == n
    ensures GetPackFilePath(NewGameConfig(n, path, pack).value) == path
    ensures GetPack(NewGameConfig(n, path, pack).value) == pack
  {
  }

  /** The first loop of `dealInitialHands`: n new, empty, distinct hands. */
  method NewHands(n: nat) returns (hands: seq<Hand>)
    ensures |hands| == n
    ensures forall q :: 0 <= q < n ==> fresh(hands[q]) && hands[q].cards == []
    ensures forall a, b :: 0 <= a < b < n ==> hands[a] != hands[b]
  {
    hands := [];
    var i := 0;
    while i < n
      invariant 0 <= i <= n && |hands| == i
      invariant forall q :: 0 <= q < i ==> fresh(hands[q]) && hands[q].cards == []
      invariant forall a, b :: 0 <= a < b < i ==> hands[a] != hands[b]
    {
      var h := new Hand([]);
      hands := hands + [h];
      i := i + 1;
    }
  }

  /**
   * One round of `dealInitialHands`: hand p gets the card at start + p. A
   * hand holding fewer than five cards accepts it, so addCard never throws.
   */
  method DealRound(hands: seq<Hand>, pack: seq<Card>, start: nat) returns (index: nat)
    requires start + |hands| <= |pack|
    requires forall a, b :: 0 <= a < b < |hands| ==> hands[a] != hands[b]
    requires forall q :: 0 <= q < |hands| ==> |hands[q].cards| < MAX_CARDS
    modifies set q | 0 <= q < |hands| :: hands[q]
    ensures index == start + |hands|
    ensures forall q :: 0 <= q < |hands| ==> hands[q].cards == old(hands[q].cards) + [pack[start + q]]
  {
    index := start;
    var p := 0;
    while p < |hands|
      invariant 0 <= p <= |hands| && index == start + p
      invariant forall q :: 0 <= q < |hands| ==>
        hands[q].cards == old(hands[q].cards) + (if q < p then [pack[start + q]] else [])
    {
      var added := hands[p].AddCard(pack[index]);
      assert added.Pass?;
      index := index + 1;
      p := p + 1;
    }
  }

  /**
   * `dealInitialHands`: n new hands, then four rounds in which player p gets
   * the next card of the pack; hand p ends with its round-robin share of the
   * first 4n cards (InitialHandCards says which positions those are).
   */
  method DealInitialHands(config: GameConfig) returns (hands: seq<Hand>)
    requires ValidConfig(config)
    ensures |hands| == config.numPlayers
    ensures forall p :: 0 <= p < |hands| ==> fresh(hands[p])
    ensures forall a, b :: 0 <= a < b < |hands| ==> hands[a] != hands[b]
    ensures forall p :: 0 <= p < |hands| ==>
      hands[p].cards == Stride(config.pack[..4 * config.numPlayers], config.numPlayers, p)
    ensures forall p :: 0 <= p < |hands| ==> |hands[p].cards| == 4
  {
    var n: int := config.numPlayers;
    var pack := config.pack;
    hands := NewHands(n);
    var index := 0;
    var round := 0;
    while round < 4
      invariant 0 <= round <= 4
      invariant index == [0, n, 2 * n, 3 * n, 4 * n][round] && WholeRounds(index, n)
      invariant forall q :: 0 <= q < n ==> fresh(hands[q])
      invariant forall q :: 0 <= q < n ==>
        hands[q].cards == Stride(pack[..index], n, q) && |hands[q].cards| == round
    {
      var next := DealRound(hands, pack, index);
      forall q | 0 <= q < n
        ensures hands[q].cards == Stride(pack[..next], n, q)
      {
        PrefixRound(pack, n, q, index, n);
      }
      index := next;
      round := round + 1;
    }

  }

  /**
   * One pass of the `for` loop of `fillDecks`, over the decks of the array:
   * deck d gets the card at start + d, until the decks or the pack run out.
   */
  method FillRound(pack: seq<Card>, decks: seq<Deck>, start: nat) returns (index: nat)
    requires start <= |pack|
    requires forall a, b :: 0 <= a < b < |decks| ==> decks[a] != decks[b]
    modifies set e | 0 <= e < |decks| :: decks[e]
    ensures index == start + (if |pack| - start < |decks| then |pack| - start else |decks|)
    ensures forall e :: 0 <= e < |decks| ==>
      decks[e].queue == old(decks[e].queue) + (if start + e < index then [pack[start + e]] else [])
  {
    index := start;
    var d := 0;
    while d < |decks| && index < |pack|
      invariant 0 <= d <= |decks| && index == start + d <= |pack|
      invariant forall e :: 0 <= e < |decks| ==>
        decks[e].queue == old(decks[e].queue) + (if e < d then [pack[start + e]] else [])
    {
      decks[d].AddCard(pack[index]);
      index := index + 1;
      d := d + 1;
    }
  }

  /** A deck's queue after one more pass of the `for` loop of `fillDecks`, on plain values. */
  lemma FillStep(q0: seq<Card>, q1: seq<Card>, q2: seq<Card>, pack: seq<Card>, dealt: nat, index: nat, next: nat, L: nat, e: nat)
    requires dealt <= index <= next <= |pack| && next - index <= L && e < L
    requires WholeRounds(index - dealt, L)
    requires q1 == q0 + Stride(pack[dealt..][..index - dealt], L, e)
    requires q2 == q1 + (if index + e < next then [pack[index + e]] else [])
    ensures q2 == q0 + Stride(pack[dealt..][..next - dealt], L, e)
  {
    var rest := pack[dealt..];
    PrefixRoundAfter(q0, rest, L, e, index - dealt, next - index);
    assert index + e < next ==> rest[index - dealt + e] == pack[index + e];
  }

  /**
   * `fillDecks`: the cards after the 4n dealt ones go to decks 0, 1, ...,
   * L - 1 in turn, as often as the pack lasts; each deck keeps what it
   * already held in front. The source loops forever on an empty array, and
   * the decks must be distinct objects for deck e to receive exactly its share.
   */
  method FillDecks(config: GameConfig, decks: array<Deck>)
    requires ValidConfig(config)
    requires decks.Length > 0
    requires forall a, b :: 0 <= a < b < decks.Length ==> decks[a] != decks[b]
    modifies set e | 0 <= e < decks.Length :: decks[e]
    ensures forall e :: 0 <= e < decks.Length ==>
      decks[e].queue == old(decks[e].queue) + Stride(config.pack[4 * config.numPlayers..], decks.Length, e)
  {
    var pack := config.pack;
    var ds := decks[..];
    var L := |ds|;
    var dealt: int := config.numPlayers * 4;
    ghost var rest := pack[dealt..];
    var index := dealt;
    while index < |pack|
      invariant dealt <= index <= |pack|
      invariant index == |pack| || WholeRounds(index - dealt, L)
      invariant forall e :: 0 <= e < L ==>
        ds[e].queue == old(ds[e].queue) + Stride(rest[..index - dealt], L, e)
      decreases |pack| - index
    {
      label round:
      var next := FillRound(pack, ds, index);
      forall e | 0 <= e < L
        ensures ds[e].queue == old(ds[e].queue) + Stride(rest[..next - dealt], L, e)
      {
        FillStep(old(ds[e].queue), old@round(ds[e].queue), ds[e].queue, pack, dealt, index, next, L, e);
      }
      index := next;
    }
    assert rest[..index - dealt] == rest;
  }

  /** Hand p gets four cards, its k-th being the card at position k * n + p of the pack. */
  lemma InitialHandCards(config: GameConfig, p: nat)
    requires ValidConfig(config) && p < config.numPlayers
    ensures |Stride(config.pack[..4 * config.numPlayers], config.numPlayers, p)| == 4
    ensures forall k :: 0 <= k < 4 ==>
      Stride(config.pack[..4 * config.numPlayers], config.numPlayers, p)[k] == config.pack[k * config.numPlayers + p]
  {
    var n: int := config.numPlayers;
    StrideRounds(config.pack[..4 * n], n, p, 4);
  }

  /** With one deck per player, the 4n cards left after the deal give each deck four, deck e the cards at 4n + r * n + e. */
  lemma DeckShares(config: GameConfig, e: nat)
    requires ValidConfig(config) && e < config.numPlayers
    ensures |Stride(config.pack[4 * config.numPlayers..], config.numPlayers, e)| == 4
    ensures forall r :: 0 <= r < 4 ==>
      Stride(config.pack[4 * config.numPlayers..], config.numPlayers, e)[r] ==
        config.pack[4 * config.numPlayers + r * config.numPlayers + e]
  {
    var n: int := config.numPlayers;
    var rest := config.pack[4 * n..];
    StrideRounds(rest, n, e, 4);
  }

  /**
   * Nothing is lost or duplicated by the set-up: for every card, the copies
   * dealt to the n hands and the copies filled into n decks add up to the
   * copies in the pack.
   */
  lemma SetupConservesPack(config: GameConfig, c: Card)
    requires ValidConfig(config)
    ensures Dealt(config.pack[..4 * config.numPlayers], config.numPlayers, config.numPlayers, c) +
      Dealt(config.pack[4 * config.numPlayers..], config.numPlayers, config.numPlayers, c) ==
      multiset(config.pack)[c]
  {
    var n: int := config.numPlayers;
    var pack := config.pack;
    DealtAll(pack[..4 * n], n, c);
    DealtAll(pack[4 * n..], n, c);
    CountAppend(pack[..4 * n], pack[4 * n..], c);
    assert pack[..4 * n] + pack[4 * n..] == pack;
    CountIsMultiplicity(pack, c);
  }
}
