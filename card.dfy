/** A playing card: an immutable, non-negative denomination compared by value (data/Card.java). */
module Cards {
  import opened Results
  import opened JavaLang

  /** The values a Card can hold: a Java int the constructor accepts. */
  type CardValue = v: int | 0 <= v <= INT_MAX

  datatype Card = Card(value: CardValue)

  /** The IllegalArgumentException of the constructor. */
  datatype CardError = NegativeCardValue(value: int)

  /** The constructor `new Card(v)`, which refuses a negative value. */
  function NewCard(v: Int32): (r: Result<Card, CardError>)
    ensures r.Ok? <==> v >= 0
    ensures r.Ok? ==> r.value.value == v
    ensures r.Err? ==> r.error == NegativeCardValue(v)
  {
    if v < 0 then Err(NegativeCardValue(v)) else Ok(Card(v))
  }

  /** `getValue`. */
  function GetValue(c: Card): (v: int)
    ensures 0 <= v <= INT_MAX
  {
    c.value
  }

  /** `equals`: two cards are equal when their values are. */
  predicate Equals(a: Card, b: Card)
  {
    a.value == b.value
  }

  /** `hashCode` is `Integer.hashCode(value)`, which is the value itself. */
  function HashCode(c: Card): (h: Int32)
  {
    c.value
  }

  /** `toString`. */
  function ToString(c: Card): string
  {
    "Card(" + IntToString(c.value) + ")"
  }

  /** The values of a list of cards, in order. */
  function Values(cs: seq<Card>): (vs: seq<int>)
    ensures |vs| == |cs|
    ensures forall i :: 0 <= i < |cs| ==> vs[i] == cs[i].value
  {
    seq(|cs|, i requires 0 <= i < |cs| => cs[i].value)
  }

  /** Every card the constructor builds reads back the value it was given. */
  lemma NewCardGetValue(v: Int32)
    requires v >= 0
    ensures NewCard(v).Ok? && GetValue(NewCard(v).value) == v
  {
  }

  /**
   * Value equality is the model's equality: `equals` holds exactly for equal
   * cards, which is what `List.contains` and `List.indexOf` rely on.
   */
  lemma EqualsIsEquality(a: Card, b: Card)
    ensures Equals(a, b) <==> a == b
  {
  }

  /** Equal cards have equal hash codes, and a card's hash code is its value. */
  lemma HashCodeConsistent(a: Card, b: Card)
    requires Equals(a, b)
    ensures HashCode(a) == HashCode(b) == GetValue(a)
  {
  }

  /** `toString` gives back the value: "Card(" and ")" around its decimal text, which parses to it. */
  lemma ToStringShowsValue(c: Card)
    ensures |ToString(c)| >= 3
    ensures ToString(c)[..5] == "Card(" && ToString(c)[|ToString(c)| - 1] == ')'
    ensures ParseInt(ToString(c)[5..|ToString(c)| - 1]) == Some(c.value)
  {
    var s := ToString(c);
    assert s[5..|s| - 1] == IntToString(c.value);
    ParseIntOfIntToString(c.value);
  }

  /** Distinct cards print differently. */
  lemma ToStringInjective(a: Card, b: Card)
    requires ToString(a) == ToString(b)
    ensures a == b
  {
    var s := ToString(a);
    assert s[5..|s| - 1] == IntToString(a.value);
    assert s[5..|s| - 1] == IntToString(b.value);
    IntToStringInjective(a.value, b.value);
  }

  /** `toString` of the card with value 7 is "Card(7)". */
  lemma ToStringExample()
    ensures ToString(Card(7)) == "Card(7)"
  {
  }
}
