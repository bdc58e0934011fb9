/**
 * The parts of java.lang the card game leans on, written out: 32-bit ints,
 * their decimal text (`String.valueOf(int)` and `Integer.parseInt`),
 * `String.trim`, and lists of values joined by single spaces
 * (`StringJoiner(" ")`, `String.join(" ", ...)`), together with the inverse
 * of that join, splitting a line at its spaces.
 */
module JavaLang {
  import opened Results

  const INT_MIN: int := -0x8000_0000
  const INT_MAX: int := 0x7fff_ffff

  /** A Java `int`. */
  type Int32 = x: int | INT_MIN <= x <= INT_MAX

  const TWO_32: int := 0x1_0000_0000

  /** Java `int` arithmetic: the exact result wrapped into the 32-bit range, as two's complement does. */
  function Wrap32(x: int): (r: Int32)
    ensures (r - x) % TWO_32 == 0
  {
    var m := x % TWO_32;
    if m > INT_MAX then m - TWO_32 else m
  }

  /** A result that fits is not changed by the wrap-around. */
  lemma Wrap32InRange(x: int)
    requires INT_MIN <= x <= INT_MAX
    ensures Wrap32(x) == x
  {
  }

  predicate IsDigit(c: char) { '0' as int <= c as int <= '9' as int }

  predicate AllDigits(s: string) { forall i :: 0 <= i < |s| ==> IsDigit(s[i]) }

  function DigitValue(c: char): (d: nat)
    requires IsDigit(c)
    ensures d < 10
  {
    c as int - '0' as int
  }

  function DigitChar(d: nat): (c: char)
    requires d < 10
    ensures IsDigit(c) && DigitValue(c) == d
  {
    ('0' as int + d) as char
  }

  // ---------------------------------------------------------------------------
  // Decimal text of an int
  // ---------------------------------------------------------------------------

  /** The decimal digits of n, most significant first, without leading zeros. */
  function NatToString(n: nat): (s: string)
    ensures |s| > 0 && AllDigits(s)
    ensures s[0] == '0' ==> n == 0
  {
    if n < 10 then [DigitChar(n)] else NatToString(n / 10) + [DigitChar(n % 10)]
  }

  /** `String.valueOf(int)`: a minus sign for negative values, then the digits. */
  function IntToString(i: int): (s: string)
    ensures |s| > 0 && ' ' !in s
  {
    var s := if i < 0 then "-" + NatToString(-i) else NatToString(i);
    assert forall k :: 0 <= k < |s| ==> s[k] == '-' || IsDigit(s[k]);
    s
  }

  /** The number a string of decimal digits denotes (0 for the empty string). */
  function DigitsValue(s: string): nat
    requires AllDigits(s)
  {
    if |s| == 0 then 0 else DigitsValue(s[..|s| - 1]) * 10 + DigitValue(s[|s| - 1])
  }

  /**
   * `Integer.parseInt` on ASCII input: an optional '+' or '-', at least one
   * decimal digit, nothing else, and a value within the 32-bit range. `None`
   * stands for the NumberFormatException.
   */
  function ParseInt(s: string): Option<Int32>
  {
    if |s| == 0 then None
    else
      var signed := s[0] == '-' || s[0] == '+';
      var digits := if signed then s[1..] else s;
      if |digits| == 0 || !AllDigits(digits) then None
      else
        var magnitude := DigitsValue(digits);
        var v: int := if s[0] == '-' then -(magnitude as int) else magnitude;
        if INT_MIN <= v <= INT_MAX then Some(v) else None
  }

  lemma {:induction false} NatToStringValue(n: nat)
    ensures DigitsValue(NatToString(n)) == n
  {
    var s := NatToString(n);
    if n >= 10 {
      NatToStringValue(n / 10);
      assert s[..|s| - 1] == NatToString(n / 10);
    }
  }

  /** Reading back the text `String.valueOf` writes gives the same int. */
  lemma ParseIntOfIntToString(v: Int32)
    ensures ParseInt(IntToString(v)) == Some(v)
  {
    var s := IntToString(v);
    if v < 0 {
      NatToStringValue(-(v as int));
      assert s[1..] == NatToString(-(v as int));
    } else {
      NatToStringValue(v);
      assert IsDigit(s[0]);
    }
  }

  /** Distinct ints have distinct decimal text. */
  lemma IntToStringInjective(a: int, b: int)
    requires IntToString(a) == IntToString(b)
    ensures a == b
  {
    var s := IntToString(a);
    if a < 0 && b < 0 {
      assert s[1..] == NatToString(-a);
      assert s[1..] == NatToString(-b);
      NatToStringValue(-a);
      NatToStringValue(-b);
    } else if a >= 0 && b >= 0 {
      NatToStringValue(a);
      NatToStringValue(b);
    }
  }

  /** The decimal text of a magnitude beyond the 32-bit range does not parse. */
  lemma ParseIntOutOfRange(n: nat)
    requires n > INT_MAX
    ensures ParseInt(NatToString(n)).None?
  {
    NatToStringValue(n);
    assert IsDigit(NatToString(n)[0]);
  }

  // ---------------------------------------------------------------------------
  // String.trim
  // ---------------------------------------------------------------------------

  /** The characters `String.trim` strips: code points up to and including U+0020. */
  predicate IsTrimmable(c: char) { c <= ' ' }

  /** The first position from i on that holds a non-blank; |s| when there is none (the `st++` scan of `trim`). */
  function TrimStart(s: string, i: nat): (st: nat)
    requires i <= |s|
    ensures i <= st <= |s|
    ensures forall k :: i <= k < st ==> IsTrimmable(s[k])
    ensures st < |s| ==> !IsTrimmable(s[st])
    decreases |s| - i
  {
    if i < |s| && IsTrimmable(s[i]) then TrimStart(s, i + 1) else i
  }

  /** The end of s[st..len] once its trailing blanks are dropped (the `len--` scan of `trim`). */
  function TrimEnd(s: string, st: nat, len: nat): (e: nat)
    requires st <= len <= |s|
    ensures st <= e <= len
    ensures forall k :: e <= k < len ==> IsTrimmable(s[k])
    ensures e > st ==> !IsTrimmable(s[e - 1])
    decreases len
  {
    if st < len && IsTrimmable(s[len - 1]) then TrimEnd(s, st, len - 1) else len
  }

  /**
   * `String.trim`: drops the leading characters up to ' ', then the trailing
   * ones. The result is empty exactly when s is all blanks; otherwise it
   * starts and ends with a non-blank.
   */
  function Trim(s: string): (t: string)
    ensures |t| == 0 <==> forall k :: 0 <= k < |s| ==> IsTrimmable(s[k])
    ensures t != [] ==> !IsTrimmable(t[0]) && !IsTrimmable(t[|t| - 1])
  {
    var st := TrimStart(s, 0);
    var len := TrimEnd(s, st, |s|);
    s[st..len]
  }

  /** Trimming removes exactly the blank padding around a word that starts and ends with a non-blank. */
  lemma TrimPadded(pre: string, t: string, post: string)
    requires forall k :: 0 <= k < |pre| ==> IsTrimmable(pre[k])
    requires forall k :: 0 <= k < |post| ==> IsTrimmable(post[k])
    requires t != [] && !IsTrimmable(t[0]) && !IsTrimmable(t[|t| - 1])
    ensures Trim(pre + t + post) == t
  {
    var s := pre + t + post;
    assert s[|pre|] == t[0];
    assert forall k :: 0 <= k < |pre| ==> s[k] == pre[k];
    var st := TrimStart(s, 0);
    assert st == |pre|;
    var e := |pre| + |t|;
    assert s[e - 1] == t[|t| - 1];
    assert forall k :: e <= k < |s| ==> s[k] == post[k - e];
    assert TrimEnd(s, st, |s|) == e;
    assert s[st..e] == t;
  }

  /** A word that starts and ends with a non-blank is its own trim. */
  lemma TrimUnpadded(t: string)
    requires t != [] && !IsTrimmable(t[0]) && !IsTrimmable(t[|t| - 1])
    ensures Trim(t) == t
  {
    TrimPadded("", t, "");
    assert "" + t + "" == t;
  }

  // ---------------------------------------------------------------------------
  // Joining with single spaces, and splitting at spaces
  // ---------------------------------------------------------------------------

  /** The words separated by single spaces; "" for no words (`StringJoiner(" ")`, `String.join(" ", ...)`). */
  function JoinWords(ws: seq<string>): string
  {
    if |ws| == 0 then ""
    else if |ws| == 1 then ws[0]
    else JoinWords(ws[..|ws| - 1]) + " " + ws[|ws| - 1]
  }

  /** String.valueOf of every value, in order. */
  function Decimals(vs: seq<int>): (ds: seq<string>)
    ensures |ds| == |vs|
    ensures forall i :: 0 <= i < |vs| ==> ds[i] == IntToString(vs[i])
  {
    seq(|vs|, i requires 0 <= i < |vs| => IntToString(vs[i]))
  }

  /** The values in decimal, separated by single spaces. */
  function JoinInts(vs: seq<int>): string
  {
    JoinWords(Decimals(vs))
  }

  lemma JoinWordsSnoc(ws: seq<string>, w: string)
    ensures JoinWords(ws + [w]) == if ws == [] then w else JoinWords(ws) + " " + w
  {
    assert (ws + [w])[..|ws|] == ws;
  }

  lemma DecimalsSnoc(vs: seq<int>, v: int)
    ensures Decimals(vs + [v]) == Decimals(vs) + [IntToString(v)]
  {
  }

  /** Joining one more value adds a space and its text, except after no values. */
  lemma JoinIntsSnoc(vs: seq<int>, v: int)
    ensures JoinInts(vs + [v]) == if vs == [] then IntToString(v) else JoinInts(vs) + " " + IntToString(v)
  {
    DecimalsSnoc(vs, v);
    JoinWordsSnoc(Decimals(vs), IntToString(v));
  }

  /** JoinInts over a prefix one longer than i. */
  lemma JoinIntsPrefix(vs: seq<int>, i: nat)
    requires i < |vs|
    ensures JoinInts(vs[..i + 1]) == if i == 0 then IntToString(vs[0]) else JoinInts(vs[..i]) + " " + IntToString(vs[i])
  {
    assert vs[..i + 1] == vs[..i] + [vs[i]];
    JoinIntsSnoc(vs[..i], vs[i]);
  }

  /** The position of the last space in s, or -1. */
  function LastSpace(s: string): (k: int)
    ensures -1 <= k < |s|
    ensures k >= 0 ==> s[k] == ' '
    ensures forall j :: k < j < |s| ==> s[j] != ' '
  {
    if |s| == 0 then -1
    else if s[|s| - 1] == ' ' then |s| - 1
    else LastSpace(s[..|s| - 1])
  }

  /** The pieces of s between its spaces (a line with k spaces has k + 1 pieces). */
  function Words(s: string): (ws: seq<string>)
    ensures |ws| > 0
    decreases |s|
  {
    var k := LastSpace(s);
    if k < 0 then [s] else Words(s[..k]) + [s[k + 1..]]
  }

  lemma WordsSnoc(a: string, w: string)
    requires ' ' !in w
    ensures Words(a + " " + w) == Words(a) + [w]
  {
    var s := a + " " + w;
    var k := LastSpace(s);
    assert s[|a|] == ' ';
    assert forall j :: |a| < j < |s| ==> s[j] == w[j - |a| - 1];
    assert k == |a|;
    assert s[..k] == a;
    assert s[k + 1..] == w;
  }

  /** Joining one more word of a list onto the join of the words before it. */
  lemma JoinWordsStep(ws: seq<string>, k: nat)
    requires 0 < k < |ws|
    ensures JoinWords(ws[..k + 1]) == JoinWords(ws[..k]) + " " + ws[k]
  {
    assert ws[..k + 1][..k] == ws[..k];
  }

  lemma JoinWords3(a: string, b: string, c: string)
    ensures JoinWords([a, b, c]) == a + " " + b + " " + c
  {
    var ws := [a, b, c];
    assert JoinWords(ws[..1]) == a;
    JoinWordsStep(ws, 1);
    JoinWordsStep(ws, 2);
    assert ws[..3] == ws;
  }

  lemma JoinWords4(a: string, b: string, c: string, d: string)
    ensures JoinWords([a, b, c, d]) == a + " " + b + " " + c + " " + d
  {
    var ws := [a, b, c, d];
    assert JoinWords(ws[..1]) == a;
    JoinWordsStep(ws, 1);
    JoinWordsStep(ws, 2);
    JoinWordsStep(ws, 3);
    assert ws[..4] == ws;
  }

  lemma JoinWords5(a: string, b: string, c: string, d: string, e: string)
    ensures JoinWords([a, b, c, d, e]) == a + " " + b + " " + c + " " + d + " " + e
  {
    var ws := [a, b, c, d, e];
    assert JoinWords(ws[..1]) == a;
    JoinWordsStep(ws, 1);
    JoinWordsStep(ws, 2);
    JoinWordsStep(ws, 3);
    JoinWordsStep(ws, 4);
    assert ws[..5] == ws;
  }

  lemma JoinWords8(a: string, b: string, c: string, d: string, e: string, f: string, g: string, h: string)
    ensures JoinWords([a, b, c, d, e, f, g, h]) == a + " " + b + " " + c + " " + d + " " + e + " " + f + " " + g + " " + h
  {
    var ws := [a, b, c, d, e, f, g, h];
    assert JoinWords(ws[..1]) == a;
    JoinWordsStep(ws, 1);
    JoinWordsStep(ws, 2);
    JoinWordsStep(ws, 3);
    JoinWordsStep(ws, 4);
    JoinWordsStep(ws, 5);
    JoinWordsStep(ws, 6);
    JoinWordsStep(ws, 7);
    assert ws[..8] == ws;
  }

  lemma JoinWords11(a: string, b: string, c: string, d: string, e: string, f: string, g: string, h: string,
                    i: string, j: string, k: string)
    ensures JoinWords([a, b, c, d, e, f, g, h, i, j, k]) ==
      a + " " + b + " " + c + " " + d + " " + e + " " + f + " " + g + " " + h + " " + i + " " + j + " " + k
  {
    var ws := [a, b, c, d, e, f, g, h, i, j, k];
    assert JoinWords(ws[..1]) == a;
    JoinWordsStep(ws, 1);
    JoinWordsStep(ws, 2);
    JoinWordsStep(ws, 3);
    JoinWordsStep(ws, 4);
    JoinWordsStep(ws, 5);
    JoinWordsStep(ws, 6);
    JoinWordsStep(ws, 7);
    JoinWordsStep(ws, 8);
    JoinWordsStep(ws, 9);
    JoinWordsStep(ws, 10);
    assert ws[..11] == ws;
  }

  /** A line that ends with a space and a list of ints splits into its first part's words and the ints' texts. */
  lemma {:induction false} WordsAfter(a: string, vs: seq<int>)
    requires vs != []
    ensures Words(a + " " + JoinInts(vs)) == Words(a) + Decimals(vs)
    decreases |vs|
  {
    var init, v := vs[..|vs| - 1], vs[|vs| - 1];
    assert vs == init + [v];
    var t := IntToString(v);
    JoinIntsSnoc(init, v);
    DecimalsSnoc(init, v);
    if init == [] {
      WordsSnoc(a, t);
    } else {
      var j := JoinInts(init);
      WordsAfter(a, init);
      RegroupWords(a, j, t);
      WordsSnoc(a + " " + j, t);
      assert Words(a) + Decimals(init) + [t] == Words(a) + (Decimals(init) + [t]);
    }
  }

  /** Joining a, j and t with spaces, whichever pair is joined first. */
  lemma RegroupWords(a: string, j: string, t: string)
    ensures a + " " + (j + " " + t) == (a + " " + j) + " " + t
  {
  }

  /** Splitting a space-joined list of space-free words gives the words back. */
  lemma {:induction false} WordsOfJoin(ws: seq<string>)
    requires |ws| > 0
    requires forall i :: 0 <= i < |ws| ==> ' ' !in ws[i]
    ensures Words(JoinWords(ws)) == ws
  {
    if |ws| == 1 {
      assert LastSpace(ws[0]) == -1;
    } else {
      var init := ws[..|ws| - 1];
      WordsOfJoin(init);
      WordsSnoc(JoinWords(init), ws[|ws| - 1]);
      assert init + [ws[|ws| - 1]] == ws;
    }
  }

  /** The text of a joined list of ints splits back into the ints' decimal texts. */
  lemma WordsOfJoinInts(vs: seq<int>)
    requires |vs| > 0
    ensures Words(JoinInts(vs)) == Decimals(vs)
  {
    WordsOfJoin(Decimals(vs));
  }

  /** Parsing every piece of a joined list of 32-bit ints gives the list back. */
  lemma JoinIntsRoundTrip(vs: seq<Int32>)
    requires |vs| > 0
    ensures |Words(JoinInts(vs))| == |vs|
    ensures forall i :: 0 <= i < |vs| ==> ParseInt(Words(JoinInts(vs))[i]) == Some(vs[i])
  {
    WordsOfJoinInts(vs);
    forall i | 0 <= i < |vs| ensures ParseInt(Words(JoinInts(vs))[i]) == Some(vs[i]) {
      ParseIntOfIntToString(vs[i]);
    }
  }

  /** A joined list is empty only for no values, and never starts or ends with a space. */
  lemma {:induction false} JoinWordsEdges(ws: seq<string>)
    requires forall i :: 0 <= i < |ws| ==> |ws[i]| > 0 && ' ' !in ws[i]
    ensures (JoinWords(ws) == "") <==> ws == []
    ensures ws != [] ==> JoinWords(ws)[0] == ws[0][0]
    ensures ws != [] ==> JoinWords(ws)[|JoinWords(ws)| - 1] == ws[|ws| - 1][|ws[|ws| - 1]| - 1]
  {
    if |ws| > 1 {
      JoinWordsEdges(ws[..|ws| - 1]);
    }
  }

  lemma JoinIntsEdges(vs: seq<int>)
    ensures (JoinInts(vs) == "") <==> vs == []
    ensures vs != [] ==> JoinInts(vs)[0] != ' ' && JoinInts(vs)[|JoinInts(vs)| - 1] != ' '
  {
    var ds := Decimals(vs);
    JoinWordsEdges(ds);
    if vs != [] {
      assert ds[0][0] in ds[0];
      assert ds[|ds| - 1][|ds[|ds| - 1]| - 1] in ds[|ds| - 1];
    }
  }
}
