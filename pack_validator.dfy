/**
 * The checks on a pack file (data/PackValidator.java): the player count, the
 * number of lines, and the conversion of one line to a non-negative int.
 * The typed errors stand for the messages of InvalidPackException
 * (data/InvalidPackException.java).
 */
module PackValidator {
  import opened Results
  import opened JavaLang

  /** The kinds of InvalidPackException, with the facts each message reports. */
  datatype PackError =
    | BadPlayerCount(players: int)
    | EmptyPack(expected: int)
    | WrongLineCount(actual: int, expected: int)
    | BlankLine(lineNo: int)
    | NotAnInteger(lineNo: int, text: string)
    | NegativeLine(lineNo: int, value: int)
    /** Not an InvalidPackException: the IllegalArgumentException of `new ArrayList<>(capacity)` for a negative capacity. */
    | BadCapacity(capacity: int)

  /** `validatePlayerCount`: accepts exactly the positive counts. */
  function ValidatePlayerCount(n: int): (r: Outcome<PackError>)
    ensures r.Pass? <==> n >= 1
    ensures r.Fail? ==> r.error == BadPlayerCount(n)
  {
    if n <= 0 then Fail(BadPlayerCount(n)) else Pass
  }

  /**
   * `validateLineCount` as the source writes it: `8 * n` is Java int
   * arithmetic and wraps around for a player count above 268435455.
   */
  function ValidateLineCountAsWritten(lines: seq<int>, n: Int32): (r: Outcome<PackError>)
    ensures lines == [] ==> r == Fail(EmptyPack(Wrap32(8 * n)))
    ensures lines != [] ==> (r.Pass? <==> |lines| == Wrap32(8 * n))
    ensures lines != [] && |lines| != Wrap32(8 * n) ==> r == Fail(WrongLineCount(|lines|, Wrap32(8 * n)))
  {
    var expected := Wrap32(8 * n);
    var actual := |lines|;
    if actual == 0 then Fail(EmptyPack(expected))
    else if actual != expected then Fail(WrongLineCount(actual, expected))
    else Pass
  }

  /** 536870913 players wrap 8 * n round to 8, so eight lines pass the check although 8 * 536870913 lines were required. */
  lemma LineCountOverflow()
    ensures ValidateLineCountAsWritten([0, 0, 0, 0, 0, 0, 0, 0], 536870913).Pass?
    ensures 8 * 536870913 != 8
  {
    assert Wrap32(8 * 536870913) == 8;
  }

  /**
   * `validateLineCount` with the count compared exactly: an empty list is
   * refused as empty whatever n is; a non-empty one is accepted exactly when
   * it has 8 * n entries.
   */
  function ValidateLineCount(lines: seq<int>, n: int): (r: Outcome<PackError>)
    ensures lines == [] ==> r == Fail(EmptyPack(8 * n))
    ensures lines != [] ==> (r.Pass? <==> |lines| == 8 * n)
    ensures lines != [] && |lines| != 8 * n ==> r == Fail(WrongLineCount(|lines|, 8 * n))
  {
    var expected := 8 * n;
    var actual := |lines|;
    if actual == 0 then Fail(EmptyPack(expected))
    else if actual != expected then Fail(WrongLineCount(actual, expected))
    else Pass
  }

  /** Wherever 8 * n fits in an int, the exact check and the one as written agree. */
  lemma LineCountAgrees(lines: seq<int>, n: Int32)
    requires INT_MIN <= 8 * n <= INT_MAX
    ensures ValidateLineCountAsWritten(lines, n) == ValidateLineCount(lines, n)
  {
    Wrap32InRange(8 * n);
  }

  /**
   * `parseNonNegativeInt`: trims the line, then refuses it as blank, as not
   * an integer, or as negative, each error carrying the line number.
   */
  function ParseNonNegativeInt(raw: string, lineNo: int): Result<int, PackError>
  {
    var s := Trim(raw);
    if |s| == 0 then Err(BlankLine(lineNo))
    else
      match ParseInt(s)
      case None => Err(NotAnInteger(lineNo, s))
      case Some(v) => if v < 0 then Err(NegativeLine(lineNo, v)) else Ok(v)
  }

  /**
   * What the outcome means: a value is a non-negative int that
   * Integer.parseInt reads from the trimmed line; an error is one of the
   * three line errors and names the line.
   */
  lemma ParseOutcome(raw: string, lineNo: int)
    ensures var r := ParseNonNegativeInt(raw, lineNo);
      r.Ok? ==> 0 <= r.value <= INT_MAX && ParseInt(Trim(raw)) == Some(r.value)
    ensures var r := ParseNonNegativeInt(raw, lineNo);
      r.Err? ==> (r.error.BlankLine? || r.error.NotAnInteger? || r.error.NegativeLine?) && r.error.lineNo == lineNo
    ensures ParseNonNegativeInt(raw, lineNo).Ok? <==>
      exists v: Int32 :: v >= 0 && ParseInt(Trim(raw)) == Some(v)
  {
  }

  /** Blanks around a line do not matter: the decimal text of any value from 0 to INT_MAX, padded, parses to it. */
  lemma ParseAcceptsPadded(v: int, pre: string, post: string, lineNo: int)
    requires 0 <= v <= INT_MAX
    requires forall k :: 0 <= k < |pre| ==> IsTrimmable(pre[k])
    requires forall k :: 0 <= k < |post| ==> IsTrimmable(post[k])
    ensures ParseNonNegativeInt(pre + IntToString(v) + post, lineNo) == Ok(v)
  {
    var t := IntToString(v);
    assert IsDigit(t[0]) && IsDigit(t[|t| - 1]);
    TrimPadded(pre, t, post);
    ParseIntOfIntToString(v);
  }

  /** The decimal text of any value from 0 to INT_MAX parses to it. */
  lemma ParseAcceptsDecimal(v: int, lineNo: int)
    requires 0 <= v <= INT_MAX
    ensures ParseNonNegativeInt(IntToString(v), lineNo) == Ok(v)
  {
    var t := IntToString(v);
    assert IsDigit(t[0]) && IsDigit(t[|t| - 1]);
    TrimUnpadded(t);
    ParseIntOfIntToString(v);
  }

  /** A negative int is refused as negative, not as a malformed integer. */
  lemma ParseRejectsNegative(v: Int32, pre: string, post: string, lineNo: int)
    requires v < 0
    requires forall k :: 0 <= k < |pre| ==> IsTrimmable(pre[k])
    requires forall k :: 0 <= k < |post| ==> IsTrimmable(post[k])
    ensures ParseNonNegativeInt(pre + IntToString(v) + post, lineNo) == Err(NegativeLine(lineNo, v))
  {
    var t := IntToString(v);
    assert t[0] == '-';
    assert t[|t| - 1] == NatToString(-(v as int))[|NatToString(-(v as int))| - 1];
    TrimPadded(pre, t, post);
    ParseIntOfIntToString(v);
  }

  /** A line of blanks only is refused as blank. */
  lemma ParseRejectsBlank(raw: string, lineNo: int)
    requires forall k :: 0 <= k < |raw| ==> IsTrimmable(raw[k])
    ensures ParseNonNegativeInt(raw, lineNo) == Err(BlankLine(lineNo))
  {
  }

  /** A number beyond Integer.MAX_VALUE is refused as not a valid integer. */
  lemma ParseRejectsOutOfRange(n: nat, lineNo: int)
    requires n > INT_MAX
    ensures ParseNonNegativeInt(NatToString(n), lineNo) == Err(NotAnInteger(lineNo, NatToString(n)))
  {
    var t := NatToString(n);
    assert IsDigit(t[0]) && IsDigit(t[|t| - 1]);
    TrimPadded("", t, "");
    assert "" + t + "" == t;
    ParseIntOutOfRange(n);
  }

  /** "   42  " gives 42. */
  lemma ParseAcceptExample()
    ensures ParseNonNegativeInt("   42  ", 2) == Ok(42)
  {
    var line := "   42  ";
    assert TrimStart(line, 0) == 3;
    assert TrimEnd(line, 3, 7) == 5;
    assert Trim(line) == "42";
    assert DigitsValue("42") == 42;
  }

  /** "-0" is accepted as 0, as Integer.parseInt reads it. */
  lemma ParseNegativeZero()
    ensures ParseNonNegativeInt("-0", 1) == Ok(0)
  {
    TrimPadded("", "-0", "");
    assert "" + "-0" + "" == "-0";
    var digits := "-0"[1..];
    assert digits == "0";
    assert AllDigits(digits);
    assert digits[..0] == "";
    assert DigitsValue(digits) == 0;
    assert ParseInt("-0") == Some(0);
  }

  /** "   " is blank and "-1" is negative. */
  lemma ParseRejectExamples()
    ensures ParseNonNegativeInt("   ", 7) == Err(BlankLine(7))
    ensures ParseNonNegativeInt("-1", 4) == Err(NegativeLine(4, -1))
  {
    ParseRejectsBlank("   ", 7);
    assert IntToString(-1) == "-1";
    ParseRejectsNegative(-1, "", "", 4);
    assert "" + "-1" + "" == "-1";
  }

  /** A non-blank line that Integer.parseInt refuses is reported with its trimmed text. */
  lemma ParseRejectsMalformed(raw: string, lineNo: int)
    requires Trim(raw) != [] && ParseInt(Trim(raw)).None?
    ensures ParseNonNegativeInt(raw, lineNo) == Err(NotAnInteger(lineNo, Trim(raw)))
  {
  }

  /** A word that starts with neither a sign nor a digit is not an integer. */
  lemma ParseIntRejectsLeadingLetter(s: string)
    requires |s| > 0 && s[0] != '-' && s[0] != '+' && !IsDigit(s[0])
    ensures ParseInt(s).None?
  {
    assert !AllDigits(s);
  }

  /** "x9" is not an integer. */
  lemma ParseMalformedExample()
    ensures ParseNonNegativeInt("x9", 9) == Err(NotAnInteger(9, "x9"))
  {
    var s := "x9";
    TrimPadded("", s, "");
    assert "" + s + "" == s;
    ParseIntRejectsLeadingLetter(s);
    ParseRejectsMalformed(s, 9);
  }
}
