/**
 * The per-player log (PlayerLogger.java): one line per event, appended to
 * the file "player<id>_output.txt" in call order. The file is modelled as
 * the list of lines written so far.
 */
module PlayerLogging {
  import opened Results
  import opened JavaLang

  // ---------------------------------------------------------------------------
  // The file name and the line formats
  // ---------------------------------------------------------------------------

  /** The file `create` opens for player id. */
  function FileName(id: int): string
  {
    "player" + IntToString(id) + "_output.txt"
  }

  function InitialHandLine(id: int, hand: seq<int>): string
  {
    "player " + IntToString(id) + " initial hand " + JoinInts(hand)
  }

  function DrawLine(id: int, value: int, deck: int): string
  {
    "player " + IntToString(id) + " draws a " + IntToString(value) + " from deck " + IntToString(deck)
  }

  function DiscardLine(id: int, value: int, deck: int): string
  {
    "player " + IntToString(id) + " discards a " + IntToString(value) + " to deck " + IntToString(deck)
  }

  function CurrentHandLine(id: int, hand: seq<int>): string
  {
    "player " + IntToString(id) + " current hand is " + JoinInts(hand)
  }

  function InformedLine(id: int, winner: int): string
  {
    "player " + IntToString(winner) + " has informed player " + IntToString(id) + " that player " + IntToString(winner) + " has won"
  }

  function WinLine(id: int): string
  {
    "player " + IntToString(id) + " wins"
  }

  function FinalHandLine(id: int, hand: seq<int>): string
  {
    "player " + IntToString(id) + " final hand: " + JoinInts(hand)
  }

  function ExitLine(id: int): string
  {
    "player " + IntToString(id) + " exits"
  }

  // ---------------------------------------------------------------------------
  // The logger
  // ---------------------------------------------------------------------------

  /** `join`: the StringJoiner loop, adding each value's decimal text with a single space between. */
  method Join(ints: seq<int>) returns (s: string)
    ensures s == JoinInts(ints)
  {
    s := "";
    var k := 0;
    while k < |ints|
      invariant 0 <= k <= |ints|
      invariant s == JoinInts(ints[..k])
    {
      ghost var next := JoinInts(ints[..k + 1]);
      JoinIntsPrefix(ints, k);
      var t := IntToString(ints[k]);
      if k == 0 {
        s := t;
      } else {
        s := s + " " + t;
      }
      assert s == next;
      k := k + 1;
    }
    assert ints[..k] == ints;
  }

  class PlayerLogger {
    const playerId: int
    /** The lines of the file, in the order they were written. */
    var lines: seq<string>

    /** `create`: the file is opened afresh, so it starts out empty. */
    constructor(playerId: int)
      ensures this.playerId == playerId && lines == []
    {
      this.playerId := playerId;
      lines := [];
    }

    /** `writeLine`: exactly one more line, at the end. */
    method WriteLine(s: string)
      modifies this
      ensures lines == old(lines) + [s]
    {
      lines := lines + [s];
    }

    method LogInitialHand(hand: seq<int>)
      modifies this
      ensures lines == old(lines) + [InitialHandLine(playerId, hand)]
    {
      var j := Join(hand);
      WriteLine("player " + IntToString(playerId) + " initial hand " + j);
    }

    method LogDraw(cardValue: int, fromDeckId: int)
      modifies this
      ensures lines == old(lines) + [DrawLine(playerId, cardValue, fromDeckId)]
    {
      WriteLine("player " + IntToString(playerId) + " draws a " + IntToString(cardValue) + " from deck " + IntToString(fromDeckId));
    }

    method LogDiscard(cardValue: int, toDeckId: int)
      modifies this
      ensures lines == old(lines) + [DiscardLine(playerId, cardValue, toDeckId)]
    {
      WriteLine("player " + IntToString(playerId) + " discards a " + IntToString(cardValue) + " to deck " + IntToString(toDeckId));
    }

    method LogCurrentHand(hand: seq<int>)
      modifies this
      ensures lines == old(lines) + [CurrentHandLine(playerId, hand)]
    {
      var j := Join(hand);
      WriteLine("player " + IntToString(playerId) + " current hand is " + j);
    }

    method LogInformedByWinner(winnerId: int)
      modifies this
      ensures lines == old(lines) + [InformedLine(playerId, winnerId)]
    {
      WriteLine("player " + IntToString(winnerId) + " has informed player " + IntToString(playerId) + " that player " + IntToString(winnerId) + " has won");
    }

    method LogWin()
      modifies this
      ensures lines == old(lines) + [WinLine(playerId)]
    {
      WriteLine("player " + IntToString(playerId) + " wins");
    }

    method LogFinalHand(hand: seq<int>)
      modifies this
      ensures lines == old(lines) + [FinalHandLine(playerId, hand)]
    {
      var j := Join(hand);
      WriteLine("player " + IntToString(playerId) + " final hand: " + j);
    }

    method LogExit()
      modifies this
      ensures lines == old(lines) + [ExitLine(playerId)]
    {
      WriteLine("player " + IntToString(playerId) + " exits");
    }
  }

  // ---------------------------------------------------------------------------
  // What the lines say: split at spaces, each line gives back its fields
  // ---------------------------------------------------------------------------

  // The fixed text of each format, word by word (I, V, D and W stand for decimal texts, J for a joined hand).

  lemma InitialHandText(I: string, J: string)
    ensures "player " + I + " initial hand " + J == JoinWords(["player", I, "initial", "hand"]) + " " + J
  {
    JoinWords4("player", I, "initial", "hand");
  }

  lemma CurrentHandText(I: string, J: string)
    ensures "player " + I + " current hand is " + J == JoinWords(["player", I, "current", "hand", "is"]) + " " + J
  {
    JoinWords5("player", I, "current", "hand", "is");
  }

  lemma FinalHandText(I: string, J: string)
    ensures "player " + I + " final hand: " + J == JoinWords(["player", I, "final", "hand:"]) + " " + J
  {
    JoinWords4("player", I, "final", "hand:");
  }

  lemma DrawText(I: string, V: string, D: string)
    ensures "player " + I + " draws a " + V + " from deck " + D ==
      JoinWords(["player", I, "draws", "a", V, "from", "deck", D])
  {
    JoinWords8("player", I, "draws", "a", V, "from", "deck", D);
  }

  lemma DiscardText(I: string, V: string, D: string)
    ensures "player " + I + " discards a " + V + " to deck " + D ==
      JoinWords(["player", I, "discards", "a", V, "to", "deck", D])
  {
    JoinWords8("player", I, "discards", "a", V, "to", "deck", D);
  }

  lemma InformedText(I: string, W: string)
    ensures "player " + W + " has informed player " + I + " that player " + W + " has won" ==
      JoinWords(["player", W, "has", "informed", "player", I, "that", "player", W, "has", "won"])
  {
    JoinWords11("player", W, "has", "informed", "player", I, "that", "player", W, "has", "won");
    var head := "player " + W + " has informed player " + I;
    assert head == "player" + " " + W + " " + "has" + " " + "informed" + " " + "player" + " " + I;
    assert head + " that player " + W + " has won" ==
      head + " " + "that" + " " + "player" + " " + W + " " + "has" + " " + "won";
  }

  lemma WinText(I: string)
    ensures "player " + I + " wins" == JoinWords(["player", I, "wins"])
  {
    JoinWords3("player", I, "wins");
  }

  lemma ExitText(I: string)
    ensures "player " + I + " exits" == JoinWords(["player", I, "exits"])
  {
    JoinWords3("player", I, "exits");
  }

  /** A line of fixed words followed by a space and the joined hand: the words, then the values ("" for no values). */
  lemma HandLineWords(ws: seq<string>, hand: seq<int>)
    requires |ws| > 0 && forall i :: 0 <= i < |ws| ==> ' ' !in ws[i]
    ensures hand != [] ==> Words(JoinWords(ws) + " " + JoinInts(hand)) == ws + Decimals(hand)
    ensures hand == [] ==> Words(JoinWords(ws) + " " + JoinInts(hand)) == ws + [""]
  {
    WordsOfJoin(ws);
    if hand == [] {
      WordsSnoc(JoinWords(ws), "");
    } else {
      WordsAfter(JoinWords(ws), hand);
    }
  }

  lemma InitialHandLineWords(id: int, hand: seq<int>)
    ensures hand != [] ==> Words(InitialHandLine(id, hand)) == ["player", IntToString(id), "initial", "hand"] + Decimals(hand)
    ensures hand == [] ==> Words(InitialHandLine(id, hand)) == ["player", IntToString(id), "initial", "hand", ""]
  {
    InitialHandText(IntToString(id), JoinInts(hand));
    HandLineWords(["player", IntToString(id), "initial", "hand"], hand);
  }

  lemma CurrentHandLineWords(id: int, hand: seq<int>)
    ensures hand != [] ==> Words(CurrentHandLine(id, hand)) == ["player", IntToString(id), "current", "hand", "is"] + Decimals(hand)
    ensures hand == [] ==> Words(CurrentHandLine(id, hand)) == ["player", IntToString(id), "current", "hand", "is", ""]
  {
    CurrentHandText(IntToString(id), JoinInts(hand));
    HandLineWords(["player", IntToString(id), "current", "hand", "is"], hand);
  }

  /** The final-hand line has "hand:" with its colon as one word. */
  lemma FinalHandLineWords(id: int, hand: seq<int>)
    ensures hand != [] ==> Words(FinalHandLine(id, hand)) == ["player", IntToString(id), "final", "hand:"] + Decimals(hand)
    ensures hand == [] ==> Words(FinalHandLine(id, hand)) == ["player", IntToString(id), "final", "hand:", ""]
  {
    FinalHandText(IntToString(id), JoinInts(hand));
    HandLineWords(["player", IntToString(id), "final", "hand:"], hand);
  }

  lemma DrawLineWords(id: int, value: int, deck: int)
    ensures Words(DrawLine(id, value, deck)) ==
      ["player", IntToString(id), "draws", "a", IntToString(value), "from", "deck", IntToString(deck)]
  {
    DrawText(IntToString(id), IntToString(value), IntToString(deck));
    WordsOfJoin(["player", IntToString(id), "draws", "a", IntToString(value), "from", "deck", IntToString(deck)]);
  }

  lemma DiscardLineWords(id: int, value: int, deck: int)
    ensures Words(DiscardLine(id, value, deck)) ==
      ["player", IntToString(id), "discards", "a", IntToString(value), "to", "deck", IntToString(deck)]
  {
    DiscardText(IntToString(id), IntToString(value), IntToString(deck));
    WordsOfJoin(["player", IntToString(id), "discards", "a", IntToString(value), "to", "deck", IntToString(deck)]);
  }

  /** The informed line names the winner first and again near the end, and the informed player in between. */
  lemma InformedLineWords(id: int, winner: int)
    ensures Words(InformedLine(id, winner)) ==
      ["player", IntToString(winner), "has", "informed", "player", IntToString(id),
       "that", "player", IntToString(winner), "has", "won"]
  {
    var w, i := IntToString(winner), IntToString(id);
    InformedText(i, w);
    WordsOfJoin(["player", w, "has", "informed", "player", i, "that", "player", w, "has", "won"]);
  }

  lemma WinLineWords(id: int)
    ensures Words(WinLine(id)) == ["player", IntToString(id), "wins"]
  {
    WinText(IntToString(id));
    WordsOfJoin(["player", IntToString(id), "wins"]);
  }

  lemma ExitLineWords(id: int)
    ensures Words(ExitLine(id)) == ["player", IntToString(id), "exits"]
  {
    ExitText(IntToString(id));
    WordsOfJoin(["player", IntToString(id), "exits"]);
  }

  /** The file name holds the id's text between "player" and "_output.txt", and reads back as the id. */
  lemma FileNameShowsId(id: Int32)
    ensures |FileName(id)| > 17
    ensures FileName(id)[..6] == "player"
    ensures FileName(id)[|FileName(id)| - 11..] == "_output.txt"
    ensures ParseInt(FileName(id)[6..|FileName(id)| - 11]) == Some(id)
  {
    var f := FileName(id);
    assert f[6..|f| - 11] == IntToString(id);
    ParseIntOfIntToString(id);
  }

  // ---------------------------------------------------------------------------
  // The logged session of player 1 (PlayerLoggerTest)
  // ---------------------------------------------------------------------------

  /** Four values joined: their decimal texts with a space between each. */
  lemma JoinFour(a: int, b: int, c: int, d: int)
    ensures JoinInts([a, b, c, d]) == IntToString(a) + " " + IntToString(b) + " " + IntToString(c) + " " + IntToString(d)
  {
    assert Decimals([a, b, c, d]) == [IntToString(a), IntToString(b), IntToString(c), IntToString(d)];
    JoinWords4(IntToString(a), IntToString(b), IntToString(c), IntToString(d));
  }

  lemma ExampleInitialHandLine()
    ensures InitialHandLine(1, [1, 1, 2, 3]) == "player 1 initial hand 1 1 2 3"
  {
    JoinFour(1, 1, 2, 3);
    assert IntToString(1) == "1" && IntToString(2) == "2" && IntToString(3) == "3";
  }

  lemma ExampleCurrentHandLine()
    ensures CurrentHandLine(1, [1, 1, 2, 4]) == "player 1 current hand is 1 1 2 4"
  {
    JoinFour(1, 1, 2, 4);
    assert IntToString(1) == "1" && IntToString(2) == "2" && IntToString(4) == "4";
  }

  lemma ExampleFinalHandLine()
    ensures FinalHandLine(1, [1, 1, 1, 1]) == "player 1 final hand: 1 1 1 1"
  {
    JoinFour(1, 1, 1, 1);
    assert IntToString(1) == "1";
  }

  lemma ExampleDrawLine()
    ensures DrawLine(1, 4, 1) == "player 1 draws a 4 from deck 1"
  {
    assert IntToString(1) == "1" && IntToString(4) == "4";
  }

  lemma ExampleDiscardLine()
    ensures DiscardLine(1, 3, 2) == "player 1 discards a 3 to deck 2"
  {
    assert IntToString(1) == "1" && IntToString(2) == "2" && IntToString(3) == "3";
  }

  lemma ExampleInformedLine()
    ensures InformedLine(1, 3) == "player 3 has informed player 1 that player 3 has won"
  {
    var w, i := IntToString(3), IntToString(1);
    assert w == "3" && i == "1";
    var head := "player " + w + " has informed player " + i;
    assert head == "player 3 has informed player 1";
    assert head + " that player " + w + " has won" == "player 3 has informed player 1 that player 3 has won";
  }

  lemma ExampleWinAndExitLines()
    ensures WinLine(1) == "player 1 wins"
    ensures ExitLine(1) == "player 1 exits"
  {
    assert IntToString(1) == "1";
  }

  /** The eight calls of the logger test, in order, write exactly the eight expected lines. */
  method ExampleSession() returns (lines: seq<string>)
    ensures lines == [
      "player 1 initial hand 1 1 2 3",
      "player 1 draws a 4 from deck 1",
      "player 1 discards a 3 to deck 2",
      "player 1 current hand is 1 1 2 4",
      "player 3 has informed player 1 that player 3 has won",
      "player 1 wins",
      "player 1 final hand: 1 1 1 1",
      "player 1 exits"]
  {
    var log := new PlayerLogger(1);
    log.LogInitialHand([1, 1, 2, 3]);
    log.LogDraw(4, 1);
    log.LogDiscard(3, 2);
    log.LogCurrentHand([1, 1, 2, 4]);
    log.LogInformedByWinner(3);
    log.LogWin();
    log.LogFinalHand([1, 1, 1, 1]);
    log.LogExit();
    ExampleInitialHandLine();
    ExampleDrawLine();
    ExampleDiscardLine();
    ExampleCurrentHandLine();
    ExampleInformedLine();
    ExampleWinAndExitLines();
    ExampleFinalHandLine();
    lines := log.lines;
  }
}
