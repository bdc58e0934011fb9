/** Reading a pack (data/PackLoader.java), over the lines of the file rather than the file itself. */
module PackLoader {
  import opened Results
  import opened JavaLang
  import opened PackValidator

  /** What `parseNonNegativeInt` makes of each line, in order, numbered from 1. */
  function LineResults(lines: seq<string>): (rs: seq<Result<int, PackError>>)
    ensures |rs| == |lines|
  {
    if |lines| == 0 then []
    else LineResults(lines[..|lines| - 1]) + [ParseNonNegativeInt(lines[|lines| - 1], |lines|)]
  }

  /** Position j of the results is the result for line number j + 1. */
  lemma {:induction false} LineResultAt(lines: seq<string>, j: nat)
    requires j < |lines|
    ensures LineResults(lines)[j] == ParseNonNegativeInt(lines[j], j + 1)
    decreases |lines|
  {
    if j < |lines| - 1 {
      var init := lines[..|lines| - 1];
      LineResultAt(init, j);
      assert init[j] == lines[j];
    }
  }

  /** The first position from k on that holds an error; |rs| when there is none. */
  function FirstError(rs: seq<Result<int, PackError>>, k: nat): (i: nat)
    requires k <= |rs|
    ensures k <= i <= |rs|
    ensures forall j :: k <= j < i ==> rs[j].Ok?
    ensures i < |rs| ==> rs[i].Err?
    decreases |rs| - k
  {
    if k == |rs| then k
    else if rs[k].Err? then k
    else FirstError(rs, k + 1)
  }

  /** A position with no error before it that holds an error itself (or is the end) is the first error. */
  lemma FirstErrorAt(rs: seq<Result<int, PackError>>, i: nat)
    requires i <= |rs|
    requires forall j :: 0 <= j < i ==> rs[j].Ok?
    requires i < |rs| ==> rs[i].Err?
    ensures FirstError(rs, 0) == i
  {
  }

  /** A value at position i, with no error before it, moves the first error past i and extends the values by one. */
  lemma OkStep(rs: seq<Result<int, PackError>>, i: nat)
    requires i <= FirstError(rs, 0) && i < |rs| && rs[i].Ok?
    ensures i + 1 <= FirstError(rs, 0)
    ensures OkValues(rs, i + 1) == OkValues(rs, i) + [rs[i].value]
  {
  }

  /** The values of the first k results, all of which are values. */
  function OkValues(rs: seq<Result<int, PackError>>, k: nat): (vs: seq<int>)
    requires k <= FirstError(rs, 0)
    ensures |vs| == k
    ensures forall j :: 0 <= j < k ==> rs[j] == Ok(vs[j])
  {
    if k == 0 then [] else OkValues(rs, k - 1) + [rs[k - 1].value]
  }

  /**
   * The reading loop of `load`: parses the lines in order, numbered from 1,
   * and stops at the first line that does not parse.
   */
  method ParseLines(lines: seq<string>) returns (r: Result<seq<int>, PackError>)
    ensures var rs := LineResults(lines);
      FirstError(rs, 0) < |rs| ==> r == Err(rs[FirstError(rs, 0)].error)
    ensures var rs := LineResults(lines);
      FirstError(rs, 0) == |rs| ==> r == Ok(OkValues(rs, |rs|))
  {
    ghost var rs := LineResults(lines);
    ghost var bad := FirstError(rs, 0);
    var fileContent: seq<int> := [];
    var lineNo := 0;
    while lineNo < |lines|
      invariant 0 <= lineNo <= bad
      invariant fileContent == OkValues(rs, lineNo)
    {
      var line := lines[lineNo];
      lineNo := lineNo + 1;
      var parsed := ParseNonNegativeInt(line, lineNo);
      LineResultAt(lines, lineNo - 1);
      if parsed.Err? {
        FirstErrorAt(rs, lineNo - 1);
        return Err(parsed.error);
      }
      OkStep(rs, lineNo - 1);
      fileContent := fileContent + [parsed.value];
    }
    FirstErrorAt(rs, |rs|);
    return Ok(fileContent);
  }

  /**
   * `load` with 8 * n taken exactly: refuses n <= 0 before looking at any
   * line; then parses the lines, stopping at the first bad one; only when
   * every line has parsed does it check that there are 8 * n of them.
   */
  method Load(lines: seq<string>, n: Int32) returns (r: Result<seq<int>, PackError>)
    ensures n <= 0 ==> r == Err(BadPlayerCount(n))
    ensures var rs := LineResults(lines);
      n > 0 && FirstError(rs, 0) < |rs| ==> r == Err(rs[FirstError(rs, 0)].error)
    ensures var rs := LineResults(lines);
      n > 0 && FirstError(rs, 0) == |rs| ==>
        (r.Ok? <==> |lines| == 8 * n) &&
        (lines == [] ==> r == Err(EmptyPack(8 * n))) &&
        (lines != [] && |lines| != 8 * n ==> r == Err(WrongLineCount(|lines|, 8 * n)))
    ensures var rs := LineResults(lines);
      r.Ok? ==> |lines| == 8 * n && FirstError(rs, 0) == |rs| && r.value == OkValues(rs, |rs|)
  {
    var players := ValidatePlayerCount(n);
    if players.Fail? {
      return Err(players.error);
    }
    var parsed := ParseLines(lines);
    if parsed.Err? {
      return parsed;
    }
    var fileContent := parsed.value;
    var count := ValidateLineCount(fileContent, n);
    if count.Fail? {
      return Err(count.error);
    }
    return Ok(fileContent);
  }

  /**
   * `load` as the source writes it: `8 * n` is Java int arithmetic, both as
   * the capacity of `new ArrayList<>(8 * n)`, which throws before any line is
   * read when the wrapped product is negative, and in `validateLineCount`.
   */
  method LoadAsWritten(lines: seq<string>, n: Int32) returns (r: Result<seq<int>, PackError>)
    ensures n <= 0 ==> r == Err(BadPlayerCount(n))
    ensures n > 0 && Wrap32(8 * n) < 0 ==> r == Err(BadCapacity(Wrap32(8 * n)))
    ensures var rs := LineResults(lines);
      n > 0 && Wrap32(8 * n) >= 0 && FirstError(rs, 0) < |rs| ==> r == Err(rs[FirstError(rs, 0)].error)
    ensures var rs := LineResults(lines);
      n > 0 && Wrap32(8 * n) >= 0 && FirstError(rs, 0) == |rs| ==>
        (r.Ok? <==> lines != [] && |lines| == Wrap32(8 * n)) &&
        (lines == [] ==> r == Err(EmptyPack(Wrap32(8 * n)))) &&
        (lines != [] && |lines| != Wrap32(8 * n) ==> r == Err(WrongLineCount(|lines|, Wrap32(8 * n))))
    ensures var rs := LineResults(lines);
      r.Ok? ==> FirstError(rs, 0) == |rs| && r.value == OkValues(rs, |rs|)
  {
    var players := ValidatePlayerCount(n);
    if players.Fail? {
      return Err(players.error);
    }
    var capacity := Wrap32(8 * n);
    if capacity < 0 {
      return Err(BadCapacity(capacity));
    }
    var parsed := ParseLines(lines);
    if parsed.Err? {
      return parsed;
    }
    var fileContent := parsed.value;
    var count := ValidateLineCountAsWritten(fileContent, n);
    if count.Fail? {
      return Err(count.error);
    }
    return Ok(fileContent);
  }

  /**
   * 536870913 players: 8 * n wraps round to 8, so `load` as written accepts a
   * file of eight zeros, which the exact loader refuses as 8 lines short of 8 * n.
   */
  method LoadOverflowExample() returns (asWritten: Result<seq<int>, PackError>, exact: Result<seq<int>, PackError>)
    ensures asWritten == Ok([0, 0, 0, 0, 0, 0, 0, 0])
    ensures exact == Err(WrongLineCount(8, 4294967304))
  {
    var zeros := [0, 0, 0, 0, 0, 0, 0, 0];
    DecimalLinesParse(zeros);
    assert Wrap32(8 * 536870913) == 8;
    asWritten := LoadAsWritten(Decimals(zeros), 536870913);
    exact := Load(Decimals(zeros), 536870913);
  }

  /** 268435456 players: 8 * n wraps to INT_MIN, and `load` as written fails on the list's capacity whatever the file holds. */
  method LoadCapacityExample(lines: seq<string>) returns (r: Result<seq<int>, PackError>)
    ensures r == Err(BadCapacity(INT_MIN))
  {
    assert Wrap32(8 * 268435456) == INT_MIN;
    r := LoadAsWritten(lines, 268435456);
  }

  /** Wherever 8 * n fits in an int, `load` as written and the exact loader return the same result. */
  method LoadAgrees(lines: seq<string>, n: Int32) returns (asWritten: Result<seq<int>, PackError>, exact: Result<seq<int>, PackError>)
    requires 8 * n <= INT_MAX
    ensures asWritten == exact
  {
    if n > 0 {
      Wrap32InRange(8 * n);
    }
    asWritten := LoadAsWritten(lines, n);
    exact := Load(lines, n);
  }

  /** Results that are all values have no error, and their values are those values. */
  lemma AllOk(rs: seq<Result<int, PackError>>, values: seq<int>)
    requires |rs| == |values|
    requires forall k :: 0 <= k < |rs| ==> rs[k] == Ok(values[k])
    ensures FirstError(rs, 0) == |rs|
    ensures OkValues(rs, |rs|) == values
  {
    FirstErrorAt(rs, |rs|);
    var vs := OkValues(rs, |rs|);
    assert forall k :: 0 <= k < |vs| ==> vs[k] == values[k];
  }

  /** Each line holding the decimal text of a value from 0 to INT_MAX parses to that value. */
  lemma DecimalLineResults(values: seq<int>)
    requires forall k :: 0 <= k < |values| ==> 0 <= values[k] <= INT_MAX
    ensures |LineResults(Decimals(values))| == |values|
    ensures forall k :: 0 <= k < |values| ==> LineResults(Decimals(values))[k] == Ok(values[k])
  {
    var lines := Decimals(values);
    var rs := LineResults(lines);
    forall k | 0 <= k < |values|
      ensures rs[k] == Ok(values[k])
    {
      LineResultAt(lines, k);
      assert lines[k] == IntToString(values[k]);
      ParseAcceptsDecimal(values[k], k + 1);
    }
  }

  /** Lines holding the decimal text of values from 0 to INT_MAX all parse, back to those values. */
  lemma DecimalLinesParse(values: seq<int>)
    requires forall k :: 0 <= k < |values| ==> 0 <= values[k] <= INT_MAX
    ensures FirstError(LineResults(Decimals(values)), 0) == |values|
    ensures OkValues(LineResults(Decimals(values)), |values|) == values
  {
    DecimalLineResults(values);
    AllOk(LineResults(Decimals(values)), values);
  }

  /** Loading the decimal text of 8 * n card values, one per line, gives the values back. */
  method LoadRoundTrip(values: seq<int>, n: Int32) returns (r: Result<seq<int>, PackError>)
    requires 0 < n
    requires |values| == 8 * n
    requires forall k :: 0 <= k < |values| ==> 0 <= values[k] <= INT_MAX
    ensures r == Ok(values)
  {
    DecimalLinesParse(values);
    r := Load(Decimals(values), n);
  }

  /** An empty file is refused as empty, and no players are refused before any line is read. */
  method EmptyPackExample()
  {
    assert FirstError(LineResults([]), 0) == 0;
    var r := Load([], 1);
    assert r == Err(EmptyPack(8));
    r := Load(["0"], 0);
    assert r == Err(BadPlayerCount(0));
  }
}
