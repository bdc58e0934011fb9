/**
 * The end-of-game deck file (DeckLogger.java): a single line naming the deck
 * and listing its card values, written to "deck<id>_output.txt".
 */
module DeckLogging {
  import opened Results
  import opened JavaLang

  /** The file `logFinalState` writes for deck deckId. */
  function FileName(deckId: int): string
  {
    "deck" + IntToString(deckId) + "_output.txt"
  }

  /** A space before each value's decimal text, in order. */
  function Spaced(vs: seq<int>): string
  {
    if |vs| == 0 then "" else Spaced(vs[..|vs| - 1]) + " " + IntToString(vs[|vs| - 1])
  }

  /** The line of the file: "deck<id> contents:" and then " <v>" for every value. */
  function FinalLine(deckId: int, contents: seq<int>): string
  {
    "deck" + IntToString(deckId) + " contents:" + Spaced(contents)
  }

  /** The StringBuilder of `logFinalState`, appended to once per value. */
  method FinalStateLine(deckId: int, contents: seq<int>) returns (line: string)
    ensures line == FinalLine(deckId, contents)
  {
    var head := "deck" + IntToString(deckId) + " contents:";
    var sb := head;
    var k := 0;
    while k < |contents|
      invariant 0 <= k <= |contents|
      invariant sb == head + Spaced(contents[..k])
    {
      SpacedPrefix(head, contents, k);
      sb := sb + " " + IntToString(contents[k]);
      k := k + 1;
    }
    assert contents[..k] == contents;
    line := sb;
  }

  /** One more value of the list adds a space and its text at the end. */
  lemma SpacedPrefix(head: string, vs: seq<int>, k: nat)
    requires k < |vs|
    ensures head + Spaced(vs[..k + 1]) == head + Spaced(vs[..k]) + " " + IntToString(vs[k])
  {
    assert vs[..k + 1][..k] == vs[..k];
    var s := Spaced(vs[..k]);
    assert Spaced(vs[..k + 1]) == s + " " + IntToString(vs[k]);
  }

  /** `logFinalState`: the file it names and the lines it writes, which are exactly one. */
  method LogFinalState(deckId: int, contents: seq<int>) returns (fileName: string, written: seq<string>)
    ensures fileName == FileName(deckId)
    ensures written == [FinalLine(deckId, contents)]
  {
    fileName := "deck" + IntToString(deckId) + "_output.txt";
    var line := FinalStateLine(deckId, contents);
    written := [line];
  }

  /** The values after "contents:" are the space-joined values with one space in front, or nothing. */
  lemma {:induction false} SpacedIsJoin(vs: seq<int>)
    ensures Spaced(vs) == if vs == [] then "" else " " + JoinInts(vs)
    decreases |vs|
  {
    if vs != [] {
      var init, v := vs[..|vs| - 1], vs[|vs| - 1];
      assert vs == init + [v];
      var t := IntToString(v);
      assert Spaced(vs) == Spaced(init) + " " + t;
      SpacedIsJoin(init);
      JoinIntsSnoc(init, v);
      if init != [] {
        Regroup(JoinInts(init), t);
      }
    }
  }

  /** A leading space stays in front when one more word is joined on. */
  lemma Regroup(j: string, t: string)
    ensures (" " + j) + " " + t == " " + (j + " " + t)
  {
  }

  /** An empty deck gives "deck<id> contents:" and nothing after the colon, not even a space. */
  lemma FinalLineEmpty(deckId: int)
    ensures FinalLine(deckId, []) == "deck" + IntToString(deckId) + " contents:"
    ensures FinalLine(deckId, [])[|FinalLine(deckId, [])| - 1] == ':'
  {
  }

  lemma FinalText(I: string, J: string)
    ensures "deck" + I + " contents:" + (" " + J) == JoinWords(["deck" + I, "contents:"]) + " " + J
  {
    var ws := ["deck" + I, "contents:"];
    assert ws[..1] == ["deck" + I];
    assert JoinWords(ws) == "deck" + I + " " + "contents:";
  }

  /** Split at spaces, the line gives "deck<id>", "contents:" and the values' texts, in order. */
  lemma FinalLineWords(deckId: int, contents: seq<int>)
    ensures contents != [] ==>
      Words(FinalLine(deckId, contents)) == ["deck" + IntToString(deckId), "contents:"] + Decimals(contents)
    ensures contents == [] ==>
      Words(FinalLine(deckId, contents)) == ["deck" + IntToString(deckId), "contents:"]
  {
    var I := IntToString(deckId);
    var ws := ["deck" + I, "contents:"];
    assert ' ' !in "deck" + I;
    assert ws[..1] == ["deck" + I];
    WordsOfJoin(ws);
    SpacedIsJoin(contents);
    if contents != [] {
      FinalText(I, JoinInts(contents));
      WordsAfter(JoinWords(ws), contents);
    } else {
      assert JoinWords(ws) == "deck" + I + " " + "contents:";
      assert FinalLine(deckId, contents) == JoinWords(ws);
    }
  }

  /** The file name holds the id's text between "deck" and "_output.txt", and reads back as the id. */
  lemma FileNameShowsId(deckId: Int32)
    ensures |FileName(deckId)| > 15
    ensures FileName(deckId)[..4] == "deck"
    ensures FileName(deckId)[|FileName(deckId)| - 11..] == "_output.txt"
    ensures ParseInt(FileName(deckId)[4..|FileName(deckId)| - 11]) == Some(deckId)
  {
    var f := FileName(deckId);
    assert f[4..|f| - 11] == IntToString(deckId);
    ParseIntOfIntToString(deckId);
  }

  /** Different deck numbers name different files. */
  lemma FileNamesDistinct(a: Int32, b: Int32)
    requires a != b
    ensures FileName(a) != FileName(b)
  {
    var fa, fb := FileName(a), FileName(b);
    FileNameShowsId(a);
    FileNameShowsId(b);
    assert ParseInt(fa[4..|fa| - 11]) == Some(a);
    assert ParseInt(fb[4..|fb| - 11]) == Some(b);
  }

  /** The values 1, 3, 3, 7 each with a space in front. */
  lemma SpacedExample()
    ensures Spaced([1, 3, 3, 7]) == " 1 3 3 7"
  {
    assert IntToString(1) == "1" && IntToString(3) == "3" && IntToString(7) == "7";
    var vs := [1, 3, 3, 7];
    assert vs[..3] == [1, 3, 3] && vs[..3][..2] == [1, 3] && vs[..3][..2][..1] == [1];
    assert Spaced([1]) == " 1";
  }

  /** Deck 2 holding 1, 3, 3, 7 writes "deck2 contents: 1 3 3 7" to "deck2_output.txt". */
  lemma FinalLineExample()
    ensures FinalLine(2, [1, 3, 3, 7]) == "deck2 contents: 1 3 3 7"
    ensures FileName(2) == "deck2_output.txt"
  {
    SpacedExample();
    assert IntToString(2) == "2";
  }

  /** Deck 5 with no cards writes "deck5 contents:". */
  lemma EmptyFinalLineExample()
    ensures FinalLine(5, []) == "deck5 contents:"
  {
    assert IntToString(5) == "5";
  }
}
