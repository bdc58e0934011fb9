# Card game simulator — a Dafny model

This project models the core of a multi-threaded card game simulator. A pack file holds
8n non-negative integers, one per line. It is loaded, validated and dealt round-robin: four
cards to each of n players, then four to each of n decks. The players and decks form a ring.
Player i draws from deck i and discards to deck i + 1 (mod n). Each player prefers cards
showing its own number and discards any other card first. A player holding four equal
cards wins. Every player then writes its move log (`player<k>_output.txt`) and every deck
writes its final contents (`deck<k>_output.txt`).

The model covers the sequential content of the program:
- the card and hand values;
- the deck queue;
- pack validation and loading, with Java's `Integer.parseInt` and `String.trim` written out;
- the dealing of hands and decks;
- the text of every log line;
- the pieces of a player's `run`: the start, one turn, and the end;
- the set-up and wind-down of `startGame`.

Objects that the program updates in place are classes:
- `Hand`, `Deck`, `PlayerLogger`, `Player` and `GameController`;
- the shared `winnerFound` flag together with the static `winnerId` (`WinnerState`).

Immutable values are datatypes and functions: `Card`, `GameConfig`, the validator and the
log-line formats.

Properties proved include:
- loading: the first bad line's error, or exactly the values, with a round trip from written values back to the pack. `load` as written takes `8 * n` as a wrapping int product, which both sizes its list (a negative size throws) and sets the expected line count; the model keeps that version beside a corrected loader that takes 8n exactly, and proves the two agree whenever 8n fits in an int;
- dealing puts card `k * n + p` of the pack into hand p, and the cards after that go round-robin into the decks; together they hold exactly the pack;
- one turn keeps every card: the hand and the two decks hold the same multiset before and after;
- a turn over the whole ring keeps the cards of all hands and decks together;
- the discard policy never loses a preferred card;
- the lock order always takes the lower deck id first, and on the ring that breaks the cycle at deck 0;
- every log line splits at its spaces back into its fields, and every file name reads back as its number.

Files and modules:
- `results.dfy` (`Results`): Option, Result and Outcome.
- `java_lang.dfy` (`JavaLang`): 32-bit ints, `String.valueOf`, `Integer.parseInt`, `String.trim`, space-joined lists and splitting at spaces.
- `card.dfy` (`Cards`), `hand.dfy` (`Hands`), `deck.dfy` (`Decks`).
- `pack_validator.dfy` (`PackValidator`), `pack_loader.dfy` (`PackLoader`).
- `round_robin.dfy` (`RoundRobin`): round-robin dealing and card counts.
- `game_config.dfy` (`GameConfiguration`).
- `player_logger.dfy` (`PlayerLogging`), `deck_logger.dfy` (`DeckLogging`).
- `player.dfy` (`Players`), `game_controller.dfy` (`GameControl`).

## Model

| member | source | states |
|---|---|---|
| JavaLang.Wrap32 | src/main/java/com/ecm2414/cardgame/GameConfig.java:28 | Java int arithmetic: the result lies in the 32-bit range and differs from the exact value by a multiple of 2^32 |
| JavaLang.Wrap32InRange | src/main/java/com/ecm2414/cardgame/data/PackValidator.java:22 | a product that fits in an int is not changed by the wrap-around |
| JavaLang.IntToString | src/main/java/com/ecm2414/cardgame/PlayerLogger.java:93-97 | `String.valueOf(int)` gives non-empty text with no space in it |
| JavaLang.NatToStringValue | src/main/java/com/ecm2414/cardgame/data/PackValidator.java:39 | the decimal digits written for n denote n |
| JavaLang.ParseIntOfIntToString | src/main/java/com/ecm2414/cardgame/data/PackValidator.java:39 | `Integer.parseInt` reads back every int's `String.valueOf` text as that int |
| JavaLang.IntToStringInjective | src/main/java/com/ecm2414/cardgame/data/Card.java:28-30 | distinct ints have distinct decimal text |
| JavaLang.ParseIntOutOfRange | src/main/java/com/ecm2414/cardgame/data/PackValidator.java:39 | `Integer.parseInt` rejects the digits of a number above `Integer.MAX_VALUE` |
| JavaLang.ParseInt | src/main/java/com/ecm2414/cardgame/data/PackValidator.java:39 | `Integer.parseInt` as a definition (optional sign, ASCII digits, int range); its meaning is JavaLang.ParseIntOfIntToString, JavaLang.ParseIntOutOfRange and PackValidator.ParseIntRejectsLeadingLetter |
| JavaLang.TrimStart | src/main/java/com/ecm2414/cardgame/data/PackValidator.java:34 | the leading scan of `trim`: every character skipped is at most U+0020, and the one it stops at is not |
| JavaLang.TrimEnd | src/main/java/com/ecm2414/cardgame/data/PackValidator.java:34 | the trailing scan of `trim`: every character dropped is at most U+0020, and the last one kept is not |
| JavaLang.Trim | src/main/java/com/ecm2414/cardgame/data/PackValidator.java:34 | the result is empty exactly when every character is blank; otherwise it starts and ends with a non-blank |
| JavaLang.TrimPadded | src/main/java/com/ecm2414/cardgame/data/PackValidator.java:34 | trimming removes exactly the blank padding around a word |
| JavaLang.TrimUnpadded | src/main/java/com/ecm2414/cardgame/data/PackValidator.java:34 | a word with no blank at either end is its own trim |
| JavaLang.Decimals | src/main/java/com/ecm2414/cardgame/PlayerLogger.java:93-97 | entry i is the `String.valueOf` of value i |
| JavaLang.JoinIntsSnoc | src/main/java/com/ecm2414/cardgame/data/Hand.java:143-153 | joining one more value adds a space and its text, except after no values |
| JavaLang.LastSpace | src/main/java/com/ecm2414/cardgame/PlayerLogger.java:93-97 | the position of the last space, with no space after it, or -1 |
| JavaLang.WordsSnoc | src/main/java/com/ecm2414/cardgame/PlayerLogger.java:93-97 | splitting `a + " " + w` at spaces adds w to the words of a when w holds no space |
| JavaLang.WordsAfter | src/main/java/com/ecm2414/cardgame/PlayerLogger.java:53 | a line that ends with a space and a joined list of ints splits into its first part's words and the ints' texts |
| JavaLang.WordsOfJoin | src/main/java/com/ecm2414/cardgame/PlayerLogger.java:93-97 | splitting a space-joined list of space-free words gives back the list |
| JavaLang.WordsOfJoinInts | src/main/java/com/ecm2414/cardgame/PlayerLogger.java:93-97 | a joined list of ints splits back into the ints' decimal texts |
| JavaLang.JoinIntsRoundTrip | src/main/java/com/ecm2414/cardgame/PlayerLogger.java:93-97 | parsing each piece of a joined list of ints gives back every int |
| JavaLang.JoinWordsEdges | src/main/java/com/ecm2414/cardgame/PlayerLogger.java:93-97 | a join of non-empty words is empty only for no words, and it starts with the first word's first character and ends with the last word's last character |
| JavaLang.JoinIntsEdges | src/main/java/com/ecm2414/cardgame/data/Hand.java:143-153 | a joined list of ints is empty only for no values, and it never starts or ends with a space |
| Cards.NewCard | src/main/java/com/ecm2414/cardgame/data/Card.java:10-13 | the constructor succeeds exactly for a non-negative value and keeps it; otherwise it fails with the negative value |
| Cards.GetValue | src/main/java/com/ecm2414/cardgame/data/Card.java:19-21 | the value is a non-negative int |
| Cards.Equals | src/main/java/com/ecm2414/cardgame/data/Card.java:38-43 | a definition; its meaning is Cards.EqualsIsEquality: it holds exactly for cards of the same value |
| Cards.HashCode | src/main/java/com/ecm2414/cardgame/data/Card.java:49-51 | a definition; its meaning is Cards.HashCodeConsistent: equal cards hash alike, and the hash is the value |
| Cards.ToString | src/main/java/com/ecm2414/cardgame/data/Card.java:28-30 | a definition; its meaning is Cards.ToStringShowsValue and Cards.ToStringInjective: "Card(" and ")" around text that parses back to the value, and distinct cards print differently |
| Cards.Values | src/main/java/com/ecm2414/cardgame/data/Hand.java:160-166 | the card values, in order, one per card |
| Cards.NewCardGetValue | src/main/java/com/ecm2414/cardgame/data/Card.java:10-21 | a constructed card reads back the value it was given |
| Cards.EqualsIsEquality | src/main/java/com/ecm2414/cardgame/data/Card.java:38-43 | `equals` holds exactly for cards of the same value |
| Cards.HashCodeConsistent | src/main/java/com/ecm2414/cardgame/data/Card.java:38-51 | equal cards have equal hash codes, and the hash code is the value |
| Cards.ToStringShowsValue | src/main/java/com/ecm2414/cardgame/data/Card.java:28-30 | `toString` is "Card(" and ")" around text that parses back to the value |
| Cards.ToStringInjective | src/main/java/com/ecm2414/cardgame/data/Card.java:28-30 | distinct cards print differently |
| Cards.ToStringExample | src/main/java/com/ecm2414/cardgame/data/Card.java:28-30 | the card 7 prints as "Card(7)" |
| Hands.FirstOther | src/main/java/com/ecm2414/cardgame/data/Hand.java:73-78 | the position of the first card not of the preferred value, or the size when there is none |
| Hands.DiscardIndex | src/main/java/com/ecm2414/cardgame/data/Hand.java:68-80 | the position `chooseDiscard` takes its card from, always within the hand; which card it is, is stated by Hands.DiscardPolicy |
| Hands.RemoveAt | src/main/java/com/ecm2414/cardgame/data/Hand.java:45-57 | `List.remove(i)`: the cards before i stay, the later ones move down by one, and the removed card is the only card lost |
| Hands.IndexOf | src/main/java/com/ecm2414/cardgame/Player.java:83-84 | `indexOf`: the first position holding the card, or -1 exactly when the card is absent |
| Hands.DiscardPolicy | src/main/java/com/ecm2414/cardgame/data/Hand.java:68-80 | `chooseDiscard` picks the first card of another value when there is one, and otherwise the first card |
| Hands.DiscardIndexOf | src/main/java/com/ecm2414/cardgame/Player.java:83-84 | the chosen discard is in the hand, and `indexOf` finds it at the chosen position |
| Hands.DiscardExamples | src/test/java/com/ecm2414/cardgame/HandTest.java:41-54 | the discard for hand 1 2 3 1 with preference 1 is the 2; an all-preferred hand gives up its first card |
| Hands.WinningExamples | src/test/java/com/ecm2414/cardgame/HandTest.java:56-69 | four 7s win; three 1s, and 1 1 2 3, do not |
| Hands.Hand.constructor | src/main/java/com/ecm2414/cardgame/data/Hand.java:20-22 | the hand holds the given cards |
| Hands.Hand.AddCard | src/main/java/com/ecm2414/cardgame/data/Hand.java:30-36 | the card is appended exactly when the hand holds fewer than five; otherwise the call fails with "hand full" and the hand is unchanged |
| Hands.Hand.RemoveCard | src/main/java/com/ecm2414/cardgame/data/Hand.java:45-57 | an empty hand, or an index out of range, gives its own error and leaves the hand unchanged; otherwise the call returns the card at the index and removes exactly that card |
| Hands.Hand.ChooseDiscard | src/main/java/com/ecm2414/cardgame/data/Hand.java:68-80 | an empty hand gives an error; otherwise the call returns the card at the discard position |
| Hands.Hand.HasWinningHand | src/main/java/com/ecm2414/cardgame/data/Hand.java:87-100 | the result holds exactly for four cards of one value |
| Hands.Hand.GetCards | src/main/java/com/ecm2414/cardgame/data/Hand.java:107-109 | the cards held, in order |
| Hands.Hand.Size | src/main/java/com/ecm2414/cardgame/data/Hand.java:116-118 | the number of cards held |
| Hands.Hand.Contains | src/main/java/com/ecm2414/cardgame/data/Hand.java:126-128 | true exactly when some held card `equals` the given one |
| Hands.Hand.Clear | src/main/java/com/ecm2414/cardgame/data/Hand.java:133-135 | afterwards the hand is empty and holds no card at all |
| Hands.Hand.ToString | src/main/java/com/ecm2414/cardgame/data/Hand.java:143-153 | the card values in decimal, separated by single spaces |
| Hands.Hand.GetCardValues | src/main/java/com/ecm2414/cardgame/data/Hand.java:160-166 | the values of the cards, in order |
| Hands.Hand.SetCards | src/main/java/com/ecm2414/cardgame/data/Hand.java:173-176 | the hand then holds exactly the given cards |
| Hands.Hand.IsValidHand | src/main/java/com/ecm2414/cardgame/data/Hand.java:183-185 | true exactly when the hand holds four cards |
| Hands.HandValuesTextExample | src/test/java/com/ecm2414/cardgame/HandTest.java:71-75 | the values 1 1 2 4 join to "1 1 2 4" |
| Hands.HandTextExample | src/test/java/com/ecm2414/cardgame/HandTest.java:71-75 | the hand 1 1 2 4 prints as "1 1 2 4" |
| Decks.Deck.constructor | src/main/java/com/ecm2414/cardgame/Deck.java:31-33 | a new deck has the given id and an empty queue |
| Decks.Deck.GetId | src/main/java/com/ecm2414/cardgame/Deck.java:36-38 | the deck's id |
| Decks.Deck.AddCard | src/main/java/com/ecm2414/cardgame/Deck.java:44-49 | the card joins the back of the queue |
| Decks.Deck.AddCards | src/main/java/com/ecm2414/cardgame/Deck.java:55-60 | the cards join the back of the queue, in order |
| Decks.Deck.Poll | src/main/java/com/ecm2414/cardgame/Deck.java:77 | `poll`: nothing from an empty queue; otherwise the front card, removed |
| Decks.Deck.DrawCard | src/main/java/com/ecm2414/cardgame/Deck.java:67-78 | on a non-empty queue, returns the front card and removes it |
| Decks.Deck.ContentsString | src/main/java/com/ecm2414/cardgame/Deck.java:85-93 | the queue's values in decimal, front first, separated by single spaces |
| Decks.Deck.InitializeDeck | src/main/java/com/ecm2414/cardgame/Deck.java:111-119 | for a non-negative id, the queue holds four cards of the id's value; a negative id fails, as the card constructor does, with the queue left empty |
| Decks.Deck.DealInitialCards | src/main/java/com/ecm2414/cardgame/Deck.java:128-138 | a count of zero or less deals nothing; otherwise the call deals the first count cards, or the whole queue when it is shorter, and removes them |
| Decks.Deck.GetCards | src/main/java/com/ecm2414/cardgame/Deck.java:26-28 | the queue, front first |
| Decks.Deck.Size | src/main/java/com/ecm2414/cardgame/Deck.java:143-147 | the number of cards queued |
| PackValidator.ValidatePlayerCount | src/main/java/com/ecm2414/cardgame/data/PackValidator.java:14-18 | passes exactly for at least one player; otherwise it fails with the count |
| PackValidator.ValidateLineCountAsWritten | src/main/java/com/ecm2414/cardgame/data/PackValidator.java:21-30 | as written: an empty list fails as empty with `8 * n` wrapped to an int; otherwise the list passes exactly when its length equals that wrapped value, and else fails with its length and the wrapped value |
| PackValidator.LineCountOverflow | src/main/java/com/ecm2414/cardgame/data/PackValidator.java:22 | for 536870913 players, eight lines pass, although 8n is far from 8 |
| PackValidator.ValidateLineCount | src/main/java/com/ecm2414/cardgame/data/PackValidator.java:21-30 | corrected: an empty list fails with "empty"; a list passes exactly when it has 8n lines, and otherwise fails with the count and 8n |
| PackValidator.LineCountAgrees | src/main/java/com/ecm2414/cardgame/data/PackValidator.java:21-30 | whenever 8n fits in an int, the code as written decides exactly as the corrected version |
| PackValidator.ParseNonNegativeInt | src/main/java/com/ecm2414/cardgame/data/PackValidator.java:33-47 | a definition; its meaning is PackValidator.ParseOutcome and the Parse lemmas below: blank, not an integer, negative, or the value |
| PackValidator.ParseOutcome | src/main/java/com/ecm2414/cardgame/data/PackValidator.java:33-47 | every result is one of the four outcomes for the trimmed line (blank, not an integer, negative, the value), and Ok exactly when the trimmed line parses to a non-negative int |
| PackValidator.ParseAcceptsPadded | src/main/java/com/ecm2414/cardgame/data/PackValidator.java:33-47 | any non-negative int written in decimal, with blanks around it, is read back |
| PackValidator.ParseAcceptsDecimal | src/main/java/com/ecm2414/cardgame/data/PackValidator.java:33-47 | any non-negative int written in decimal is read back |
| PackValidator.ParseRejectsNegative | src/main/java/com/ecm2414/cardgame/data/PackValidator.java:40-42 | a negative int, padded or not, is rejected as negative with its line number and value |
| PackValidator.ParseRejectsBlank | src/main/java/com/ecm2414/cardgame/data/PackValidator.java:35-37 | a line of blanks only is rejected as blank with its line number |
| PackValidator.ParseRejectsOutOfRange | src/main/java/com/ecm2414/cardgame/data/PackValidator.java:44-46 | digits beyond `Integer.MAX_VALUE` are rejected as not an integer |
| PackValidator.ParseRejectsMalformed | src/main/java/com/ecm2414/cardgame/data/PackValidator.java:44-46 | a non-blank line that `parseInt` refuses is rejected with its line number and trimmed text |
| PackValidator.ParseIntRejectsLeadingLetter | src/main/java/com/ecm2414/cardgame/data/PackValidator.java:39 | `parseInt` refuses text that starts with neither a sign nor a digit |
| PackValidator.ParseAcceptExample | src/test/java/com/ecm2414/cardgame/PackValidatorTest.java:57-63 | "   42  " on line 2 reads as 42 |
| PackValidator.ParseNegativeZero | src/main/java/com/ecm2414/cardgame/data/PackValidator.java:39-42 | "-0" parses to 0 and is accepted |
| PackValidator.ParseRejectExamples | src/test/java/com/ecm2414/cardgame/PackValidatorTest.java:65-83 | "   " on line 7 is blank, and "-1" on line 4 is negative |
| PackValidator.ParseMalformedExample | src/test/java/com/ecm2414/cardgame/PackValidatorTest.java:85-93 | "x9" on line 9 is not an integer |
| PackLoader.LineResults | src/main/java/com/ecm2414/cardgame/data/PackLoader.java:36-39 | one parse result per line |
| PackLoader.LineResultAt | src/main/java/com/ecm2414/cardgame/data/PackLoader.java:36-39 | line j is parsed with line number j + 1 |
| PackLoader.FirstError | src/main/java/com/ecm2414/cardgame/data/PackLoader.java:36-39 | the first failing line from k on: every line before it parsed, and it did not |
| PackLoader.FirstErrorAt | src/main/java/com/ecm2414/cardgame/data/PackLoader.java:36-39 | a position with only good lines before it, and a bad line or the end at it, is the first error |
| PackLoader.OkValues | src/main/java/com/ecm2414/cardgame/data/PackLoader.java:36-39 | the values of the first k lines, each the value its line parsed to |
| PackLoader.OkStep | src/main/java/com/ecm2414/cardgame/data/PackLoader.java:36-39 | a good line before the first error adds its value at the end of the list |
| PackLoader.ParseLines | src/main/java/com/ecm2414/cardgame/data/PackLoader.java:36-39 | the loop stops at the first bad line with that line's error; otherwise it returns every line's value, in order |
| PackLoader.LoadAsWritten | src/main/java/com/ecm2414/cardgame/data/PackLoader.java:29-44 | as written: a player count of 0 or less fails first; then a negative wrapped capacity `8 * n` fails as `new ArrayList` does; then the first bad line's error; then the wrapped line-count check (empty, or not `8 * n` wrapped); otherwise exactly the values of the lines |
| PackLoader.Load | src/main/java/com/ecm2414/cardgame/data/PackLoader.java:29-44 | corrected, with 8n exact: a player count of 0 or less fails first; then the first bad line's error; then the line-count check (empty, or not 8n); otherwise exactly the values of the lines |
| PackLoader.LoadOverflowExample | src/main/java/com/ecm2414/cardgame/data/PackLoader.java:42 | for 536870913 players, eight lines of 0 load as written, while the corrected loader refuses them as 8 lines instead of 4294967304 |
| PackLoader.LoadCapacityExample | src/main/java/com/ecm2414/cardgame/data/PackLoader.java:32 | for 268435456 players, `8 * n` wraps to `Integer.MIN_VALUE` and the load as written fails on the capacity, whatever the lines |
| PackLoader.LoadAgrees | src/main/java/com/ecm2414/cardgame/data/PackLoader.java:29-44 | whenever 8n fits in an int, the load as written and the corrected load give the same result |
| PackLoader.AllOk | src/main/java/com/ecm2414/cardgame/data/PackLoader.java:36-39 | when every line parses, there is no error and the values are exactly the parsed ones |
| PackLoader.DecimalLineResults | src/main/java/com/ecm2414/cardgame/data/PackLoader.java:36-39 | lines written as the decimals of non-negative ints each parse to their int |
| PackLoader.DecimalLinesParse | src/main/java/com/ecm2414/cardgame/data/PackLoader.java:36-39 | such lines have no error and give back exactly their values |
| PackLoader.LoadRoundTrip | src/test/java/com/ecm2414/cardgame/PackLoaderTest.java:14-27 | writing 8n non-negative ints one per line and loading them with the corrected loader gives exactly those ints |
| RoundRobin.StridePartial | src/main/java/com/ecm2414/cardgame/GameConfig.java:77-84 | a short last round reaches receiver j only when it has that many entries |
| RoundRobin.RoundsAreWhole | src/main/java/com/ecm2414/cardgame/GameConfig.java:62-67 | m rounds of L entries make whole rounds |
| RoundRobin.StrideAppend | src/main/java/com/ecm2414/cardgame/GameConfig.java:77-84 | dealing whole rounds and then more gives each receiver its share of the rounds, then its share of the rest |
| RoundRobin.StrideNextRound | src/main/java/com/ecm2414/cardgame/GameConfig.java:62-67 | one more round gives receiver j entry j of that round |
| RoundRobin.PrefixRound | src/main/java/com/ecm2414/cardgame/GameConfig.java:77-84 | dealing d more entries after whole rounds gives receiver j entry a + j exactly when j < d |
| RoundRobin.StrideRounds | src/main/java/com/ecm2414/cardgame/GameConfig.java:62-67 | in m whole rounds, receiver j gets m entries, the one from round r being entry r * L + j |
| RoundRobin.CountIsMultiplicity | src/main/java/com/ecm2414/cardgame/GameConfig.java:56-84 | the number of copies of x in a list is its multiplicity in the list's multiset |
| RoundRobin.CountAppend | src/main/java/com/ecm2414/cardgame/GameConfig.java:56-84 | copies of x in a concatenation add up |
| RoundRobin.DealtFirstRound | src/main/java/com/ecm2414/cardgame/GameConfig.java:77-84 | with more than one round, the first k receivers hold the first k entries plus their share of the rest |
| RoundRobin.DealtShort | src/main/java/com/ecm2414/cardgame/GameConfig.java:77-84 | with at most one round, the first k receivers hold the first k entries, or all of them |
| RoundRobin.DealtAll | src/main/java/com/ecm2414/cardgame/GameConfig.java:77-84 | dealt round-robin, all receivers together hold every copy of every card, neither losing nor adding one |
| GameConfiguration.NewGameConfigAsWritten | src/main/java/com/ecm2414/cardgame/GameConfig.java:24-34 | as written: accepts exactly a positive count with a pack the size of `numPlayers * 8` wrapped to an int, and keeps the fields |
| GameConfiguration.ConfigOverflow | src/main/java/com/ecm2414/cardgame/GameConfig.java:28-30 | for 536870913 players, an 8-card pack is accepted, although it cannot be dealt |
| GameConfiguration.NewGameConfig | src/main/java/com/ecm2414/cardgame/GameConfig.java:24-34 | corrected: a count of zero or less fails first; a pack not of 8n cards fails with both sizes; otherwise the configuration holds the given fields |
| GameConfiguration.ConfigAgrees | src/main/java/com/ecm2414/cardgame/GameConfig.java:24-34 | whenever 8n fits in an int, the constructor as written decides exactly as the corrected version |
| GameConfiguration.GetNumPlayers | src/main/java/com/ecm2414/cardgame/GameConfig.java:37-39 | a definition; its meaning is GameConfiguration.ConfigGetters: the count the constructor was given |
| GameConfiguration.GetPackFilePath | src/main/java/com/ecm2414/cardgame/GameConfig.java:41-43 | a definition; its meaning is GameConfiguration.ConfigGetters: the path the constructor was given |
| GameConfiguration.GetPack | src/main/java/com/ecm2414/cardgame/GameConfig.java:47-49 | a definition; its meaning is GameConfiguration.ConfigGetters: the pack the constructor was given |
| GameConfiguration.ConfigGetters | src/main/java/com/ecm2414/cardgame/GameConfig.java:37-49 | the getters return the count, path and pack the constructor was given |
| GameConfiguration.NewHands | src/main/java/com/ecm2414/cardgame/GameConfig.java:57-60 | n new, distinct, empty hands |
| GameConfiguration.DealRound | src/main/java/com/ecm2414/cardgame/GameConfig.java:64-66 | one pass of the inner loop: hand q gets pack entry start + q at its end, and nothing else changes |
| GameConfiguration.DealInitialHands | src/main/java/com/ecm2414/cardgame/GameConfig.java:56-70 | n new, distinct hands; hand p holds the round-robin share of the first 4n cards, four cards |
| GameConfiguration.FillRound | src/main/java/com/ecm2414/cardgame/GameConfig.java:77-84 | one round of the fill loop: deck e gets entry start + e when the pack reaches it |
| GameConfiguration.FillDecks | src/main/java/com/ecm2414/cardgame/GameConfig.java:77-84 | deck e gets, at the end of its queue, the round-robin share of the cards after the first 4n |
| GameConfiguration.InitialHandCards | src/main/java/com/ecm2414/cardgame/GameConfig.java:56-70 | hand p gets four cards; its k-th card is pack entry k * n + p |
| GameConfiguration.DeckShares | src/main/java/com/ecm2414/cardgame/GameConfig.java:77-84 | deck e gets four cards; its r-th card is pack entry 4n + r * n + e |
| GameConfiguration.SetupConservesPack | src/main/java/com/ecm2414/cardgame/GameConfig.java:56-84 | the hands and decks together hold every copy of every card of the pack |
| PlayerLogging.FileName | src/main/java/com/ecm2414/cardgame/PlayerLogger.java:30 | `player<id>_output.txt` as a definition; its meaning is PlayerLogging.FileNameShowsId: the middle of the name parses back to the id |
| PlayerLogging.InitialHandLine | src/main/java/com/ecm2414/cardgame/PlayerLogger.java:37-39 | the initial-hand line as a definition; its meaning is PlayerLogging.InitialHandLineWords: split at spaces it gives back the id and every card value |
| PlayerLogging.DrawLine | src/main/java/com/ecm2414/cardgame/PlayerLogger.java:42-44 | the draw line as a definition; its meaning is PlayerLogging.DrawLineWords: split at spaces it gives back the player, the value and the deck |
| PlayerLogging.DiscardLine | src/main/java/com/ecm2414/cardgame/PlayerLogger.java:47-49 | the discard line as a definition; its meaning is PlayerLogging.DiscardLineWords: split at spaces it gives back the player, the value and the deck |
| PlayerLogging.CurrentHandLine | src/main/java/com/ecm2414/cardgame/PlayerLogger.java:52-54 | the current-hand line as a definition; its meaning is PlayerLogging.CurrentHandLineWords: split at spaces it gives back the id and every card value |
| PlayerLogging.InformedLine | src/main/java/com/ecm2414/cardgame/PlayerLogger.java:57-59 | the informed line as a definition; its meaning is PlayerLogging.InformedLineWords: split at spaces it gives back the winner twice and the informed player once |
| PlayerLogging.WinLine | src/main/java/com/ecm2414/cardgame/PlayerLogger.java:62-64 | the win line as a definition; its meaning is PlayerLogging.WinLineWords: split at spaces it is "player", the id and "wins" |
| PlayerLogging.FinalHandLine | src/main/java/com/ecm2414/cardgame/PlayerLogger.java:67-69 | the final-hand line as a definition; its meaning is PlayerLogging.FinalHandLineWords: split at spaces it gives back the id and every card value |
| PlayerLogging.ExitLine | src/main/java/com/ecm2414/cardgame/PlayerLogger.java:72-74 | the exit line as a definition; its meaning is PlayerLogging.ExitLineWords: split at spaces it is "player", the id and "exits" |
| PlayerLogging.Join | src/main/java/com/ecm2414/cardgame/PlayerLogger.java:93-97 | the values in decimal, separated by single spaces |
| PlayerLogging.PlayerLogger.constructor | src/main/java/com/ecm2414/cardgame/PlayerLogger.java:29-34 | a new log for the player, with no lines |
| PlayerLogging.PlayerLogger.WriteLine | src/main/java/com/ecm2414/cardgame/PlayerLogger.java:85-91 | appends exactly the line |
| PlayerLogging.PlayerLogger.LogInitialHand | src/main/java/com/ecm2414/cardgame/PlayerLogger.java:37-39 | appends exactly the initial-hand line |
| PlayerLogging.PlayerLogger.LogDraw | src/main/java/com/ecm2414/cardgame/PlayerLogger.java:42-44 | appends exactly the draw line |
| PlayerLogging.PlayerLogger.LogDiscard | src/main/java/com/ecm2414/cardgame/PlayerLogger.java:47-49 | appends exactly the discard line |
| PlayerLogging.PlayerLogger.LogCurrentHand | src/main/java/com/ecm2414/cardgame/PlayerLogger.java:52-54 | appends exactly the current-hand line |
| PlayerLogging.PlayerLogger.LogInformedByWinner | src/main/java/com/ecm2414/cardgame/PlayerLogger.java:57-59 | appends exactly the informed line |
| PlayerLogging.PlayerLogger.LogWin | src/main/java/com/ecm2414/cardgame/PlayerLogger.java:62-64 | appends exactly the win line |
| PlayerLogging.PlayerLogger.LogFinalHand | src/main/java/com/ecm2414/cardgame/PlayerLogger.java:67-69 | appends exactly the final-hand line |
| PlayerLogging.PlayerLogger.LogExit | src/main/java/com/ecm2414/cardgame/PlayerLogger.java:72-74 | appends exactly the exit line |
| PlayerLogging.InitialHandText | src/main/java/com/ecm2414/cardgame/PlayerLogger.java:37-39 | the initial-hand line is its fixed words, joined with spaces, then the hand |
| PlayerLogging.CurrentHandText | src/main/java/com/ecm2414/cardgame/PlayerLogger.java:52-54 | the current-hand line is its fixed words, joined with spaces, then the hand |
| PlayerLogging.FinalHandText | src/main/java/com/ecm2414/cardgame/PlayerLogger.java:67-69 | the final-hand line is its fixed words, joined with spaces, then the hand |
| PlayerLogging.DrawText | src/main/java/com/ecm2414/cardgame/PlayerLogger.java:42-44 | the draw line is seven space-separated words |
| PlayerLogging.DiscardText | src/main/java/com/ecm2414/cardgame/PlayerLogger.java:47-49 | the discard line is seven space-separated words |
| PlayerLogging.InformedText | src/main/java/com/ecm2414/cardgame/PlayerLogger.java:57-59 | the informed line is eleven space-separated words |
| PlayerLogging.WinText | src/main/java/com/ecm2414/cardgame/PlayerLogger.java:62-64 | the win line is three space-separated words |
| PlayerLogging.ExitText | src/main/java/com/ecm2414/cardgame/PlayerLogger.java:72-74 | the exit line is three space-separated words |
| PlayerLogging.HandLineWords | src/main/java/com/ecm2414/cardgame/PlayerLogger.java:93-97 | fixed words followed by a joined hand split into the words and then the values' texts; an empty hand leaves one empty word at the end |
| PlayerLogging.InitialHandLineWords | src/main/java/com/ecm2414/cardgame/PlayerLogger.java:37-39 | split at spaces, the line gives back the player's id and every card value, in order |
| PlayerLogging.CurrentHandLineWords | src/main/java/com/ecm2414/cardgame/PlayerLogger.java:52-54 | split at spaces, the line gives back the player's id and every card value, in order |
| PlayerLogging.FinalHandLineWords | src/main/java/com/ecm2414/cardgame/PlayerLogger.java:67-69 | split at spaces, the line gives back the player's id and every card value, in order |
| PlayerLogging.DrawLineWords | src/main/java/com/ecm2414/cardgame/PlayerLogger.java:42-44 | split at spaces, the line gives back the player, the value and the deck |
| PlayerLogging.DiscardLineWords | src/main/java/com/ecm2414/cardgame/PlayerLogger.java:47-49 | split at spaces, the line gives back the player, the value and the deck |
| PlayerLogging.InformedLineWords | src/main/java/com/ecm2414/cardgame/PlayerLogger.java:57-59 | split at spaces, the line gives back the winner twice and the informed player once |
| PlayerLogging.WinLineWords | src/main/java/com/ecm2414/cardgame/PlayerLogger.java:62-64 | split at spaces, the line is "player", the id and "wins" |
| PlayerLogging.ExitLineWords | src/main/java/com/ecm2414/cardgame/PlayerLogger.java:72-74 | split at spaces, the line is "player", the id and "exits" |
| PlayerLogging.FileNameShowsId | src/main/java/com/ecm2414/cardgame/PlayerLogger.java:30 | the file name is "player", the id's text and "_output.txt", and the middle parses back to the id |
| PlayerLogging.JoinFour | src/main/java/com/ecm2414/cardgame/PlayerLogger.java:93-97 | four values join as their texts with a space between each pair |
| PlayerLogging.ExampleInitialHandLine | src/test/java/com/ecm2414/cardgame/PlayerLoggerTest.java:19 | "player 1 initial hand 1 1 2 3" |
| PlayerLogging.ExampleCurrentHandLine | src/test/java/com/ecm2414/cardgame/PlayerLoggerTest.java:22 | "player 1 current hand is 1 1 2 4" |
| PlayerLogging.ExampleFinalHandLine | src/test/java/com/ecm2414/cardgame/PlayerLoggerTest.java:25 | "player 1 final hand: 1 1 1 1" |
| PlayerLogging.ExampleDrawLine | src/test/java/com/ecm2414/cardgame/PlayerLoggerTest.java:20 | "player 1 draws a 4 from deck 1" |
| PlayerLogging.ExampleDiscardLine | src/test/java/com/ecm2414/cardgame/PlayerLoggerTest.java:21 | "player 1 discards a 3 to deck 2" |
| PlayerLogging.ExampleInformedLine | src/test/java/com/ecm2414/cardgame/PlayerLoggerTest.java:23 | "player 3 has informed player 1 that player 3 has won" |
| PlayerLogging.ExampleWinAndExitLines | src/test/java/com/ecm2414/cardgame/PlayerLoggerTest.java:24-26 | "player 1 wins" and "player 1 exits" |
| PlayerLogging.ExampleSession | src/test/java/com/ecm2414/cardgame/PlayerLoggerTest.java:18-44 | the eight calls of the session write exactly the eight expected lines, in order |
| DeckLogging.FileName | src/main/java/com/ecm2414/cardgame/DeckLogger.java:28 | `deck<id>_output.txt` as a definition; its meaning is DeckLogging.FileNameShowsId and DeckLogging.FileNamesDistinct: the id parses back, and distinct ids name distinct files |
| DeckLogging.FinalLine | src/main/java/com/ecm2414/cardgame/DeckLogger.java:31-35 | the contents line as a definition; its meaning is DeckLogging.FinalLineWords and DeckLogging.FinalLineEmpty: split at spaces it gives "deck<id>", "contents:" and every value, and an empty deck ends at the colon |
| DeckLogging.FinalStateLine | src/main/java/com/ecm2414/cardgame/DeckLogger.java:31-35 | the StringBuilder loop builds "deck<id> contents:" followed by a space and the text of each value |
| DeckLogging.LogFinalState | src/main/java/com/ecm2414/cardgame/DeckLogger.java:27-41 | writes `deck<id>_output.txt` with exactly one line, the contents line |
| DeckLogging.SpacedIsJoin | src/main/java/com/ecm2414/cardgame/DeckLogger.java:31-35 | after "contents:" come nothing for an empty deck, and otherwise a space and the values joined by single spaces |
| DeckLogging.FinalLineEmpty | src/test/java/com/ecm2414/cardgame/DeckLoggerTest.java:33-42 | an empty deck's line ends at the colon, with no space after it |
| DeckLogging.FinalLineWords | src/main/java/com/ecm2414/cardgame/DeckLogger.java:31-35 | split at spaces, the line gives "deck<id>", "contents:" and every value's text, in order |
| DeckLogging.FileNameShowsId | src/main/java/com/ecm2414/cardgame/DeckLogger.java:28 | the file name is "deck", the id's text and "_output.txt", and the middle parses back to the id |
| DeckLogging.FileNamesDistinct | src/main/java/com/ecm2414/cardgame/DeckLogger.java:28 | different deck numbers name different files |
| DeckLogging.SpacedExample | src/main/java/com/ecm2414/cardgame/DeckLogger.java:31-35 | the values 1 3 3 7 become " 1 3 3 7" |
| DeckLogging.FinalLineExample | src/test/java/com/ecm2414/cardgame/DeckLoggerTest.java:22-31 | deck 2 holding 1 3 3 7 writes "deck2 contents: 1 3 3 7" to "deck2_output.txt" |
| DeckLogging.EmptyFinalLineExample | src/test/java/com/ecm2414/cardgame/DeckLoggerTest.java:33-42 | an empty deck 5 writes "deck5 contents:" |
| Players.WinnerState.constructor | src/main/java/com/ecm2414/cardgame/Player.java:13 | no winner yet: the flag is clear and the winner id is -1 |
| Players.LockOrder | src/main/java/com/ecm2414/cardgame/Player.java:67-68 | the two lock targets are the left and the right deck, the one with the lower id first; with one player both are the same deck, taken twice re-entrantly |
| Players.HandAfter | src/main/java/com/ecm2414/cardgame/Player.java:77-88 | the hand after a turn keeps its size, and holds its old cards and the drawn one, less the discard |
| Players.TurnConservesApart | src/main/java/com/ecm2414/cardgame/Player.java:75-91 | with two decks, the hand and both decks hold the same cards before and after the turn |
| Players.TurnConservesShared | src/main/java/com/ecm2414/cardgame/Player.java:75-91 | with one deck on both sides, the hand and that deck hold the same cards before and after the turn |
| Players.MultiplicityBound | src/main/java/com/ecm2414/cardgame/data/Hand.java:87-100 | a list holds at most as many copies of a card as it has entries, and exactly that many when every entry is that card |
| Players.KeepsPreferred | src/main/java/com/ecm2414/cardgame/Player.java:77-88 | a turn never lowers the number of preferred cards held, and it raises it by one when a preferred card is drawn while some held card is not preferred |
| Players.Player.constructor | src/main/java/com/ecm2414/cardgame/Player.java:15-21 | the player holds the given id, hand, decks and winner state, and has not won |
| Players.Player.GetId | src/main/java/com/ecm2414/cardgame/Player.java:24-26 | the player's id |
| Players.Player.HasWon | src/main/java/com/ecm2414/cardgame/Player.java:29-31 | whether this player won |
| Players.Player.PreferredValue | src/main/java/com/ecm2414/cardgame/Player.java:33-35 | a player prefers cards of its own id |
| Players.Player.Start | src/main/java/com/ecm2414/cardgame/Player.java:38-62 | the log opens with the initial hand; a winning hand sets the flag and the winner id, and logs a win; otherwise nothing else changes |
| Players.Player.Turn | src/main/java/com/ecm2414/cardgame/Player.java:65-117 | once a winner is known the player leaves with nothing changed; otherwise it draws from the left deck, discards to the right deck, logs the three lines, and leaves exactly when it now wins; the cards of the hand and decks are kept |
| Players.Player.Exchange | src/main/java/com/ecm2414/cardgame/Player.java:75-91 | the front of the left deck goes into the hand; the policy's discard goes to the back of the right deck; the total is kept |
| Players.Player.Report | src/main/java/com/ecm2414/cardgame/Player.java:95-114 | appends the draw, discard and current-hand lines, then a win line and the flag when the hand wins |
| Players.Player.Finish | src/main/java/com/ecm2414/cardgame/Player.java:127-141 | a player that did not win logs who won when one is known, and then logs its exit |
| GameControl.RightIndex | src/main/java/com/ecm2414/cardgame/GameController.java:45 | the right deck of player i is the next deck around the ring, wrapping to 0 after the last |
| GameControl.RightIndexIsMod | src/main/java/com/ecm2414/cardgame/GameController.java:45 | that is the program's `(i + 1) % numPlayers` |
| GameControl.Feeder | src/main/java/com/ecm2414/cardgame/GameController.java:42-47 | the player that discards onto deck e |
| GameControl.OneFeeder | src/main/java/com/ecm2414/cardgame/GameController.java:42-47 | only one player discards onto each deck |
| GameControl.RingLockOrder | src/main/java/com/ecm2414/cardgame/Player.java:67-68 | on the ring, each player but the last locks its left deck first, and the last player locks deck 0 first, so no cycle of waits can form |
| GameControl.PooledUpdate | src/main/java/com/ecm2414/cardgame/Player.java:75-91 | replacing one hand or deck changes the pool by exactly the old and new contents |
| GameControl.Shares | src/main/java/com/ecm2414/cardgame/GameConfig.java:77-84 | the shares of the first k receivers, entry j being receiver j's stride |
| GameControl.PooledShares | src/main/java/com/ecm2414/cardgame/GameConfig.java:77-84 | the shares of the first k receivers hold, card by card, what is dealt to them |
| GameControl.SharesPoolToAll | src/main/java/com/ecm2414/cardgame/GameConfig.java:77-84 | all the shares together hold exactly the dealt list |
| GameControl.SharedTurnPool | src/main/java/com/ecm2414/cardgame/Player.java:75-91 | a one-deck turn keeps the pool of all hands and decks |
| GameControl.ApartTurnPool | src/main/java/com/ecm2414/cardgame/Player.java:75-91 | a two-deck turn keeps the pool of all hands and decks |
| GameControl.RingTurnConserves | src/main/java/com/ecm2414/cardgame/Player.java:75-91 | any player's turn on the ring leaves all hands and decks together with the same cards |
| GameControl.HandCardsAt | src/main/java/com/ecm2414/cardgame/GameController.java:36 | entry p of the hands' card lists is hand p's cards |
| GameControl.DeckQueuesAt | src/main/java/com/ecm2414/cardgame/GameController.java:30-33 | entry e of the decks' queues is deck e's queue |
| GameControl.RingSides | src/main/java/com/ecm2414/cardgame/GameController.java:42-47 | every deck is the left deck of exactly player e and the right deck of exactly its feeder |
| GameControl.GameController.constructor | src/main/java/com/ecm2414/cardgame/GameController.java:16-19 | no winner yet |
| GameControl.GameController.CreateDecks | src/main/java/com/ecm2414/cardgame/GameController.java:30-33 | n new, empty decks, deck e numbered e |
| GameControl.GameController.CreatePlayers | src/main/java/com/ecm2414/cardgame/GameController.java:42-47 | n new players in a ring: player i is numbered i + 1, holds hand i, draws from deck i and discards to the next deck |
| GameControl.GameController.SetUpTable | src/main/java/com/ecm2414/cardgame/GameController.java:27-39 | n decks numbered 0 .. n - 1 and n distinct hands of four; hand p holds its round-robin share of the first 4n cards and deck e its share of the rest |
| GameControl.GameController.StartGame | src/main/java/com/ecm2414/cardgame/GameController.java:26-47 | the set-up of `startGame`: new decks, dealt hands and a ring of fresh players that have not won |
| GameControl.HandsOfFour | src/main/java/com/ecm2414/cardgame/GameConfig.java:56-70 | each dealt hand holds four cards |
| GameControl.DistinctDecks | src/main/java/com/ecm2414/cardgame/GameController.java:30-33 | decks numbered by position are distinct objects |
| GameControl.SetUpInPlay | src/main/java/com/ecm2414/cardgame/GameController.java:36-39 | after dealing, the hands and decks together hold exactly the pack |
| GameControl.GameController.LogFinalDecks | src/main/java/com/ecm2414/cardgame/GameController.java:66-75 | one file per deck, in order, each the final-state file of that deck |
| GameControl.GameController.LogFinalDeck | src/main/java/com/ecm2414/cardgame/GameController.java:68-71 | the file for one deck: its number is the id plus one, and it lists the queue's values |
| GameControl.FinalFileNumber | src/main/java/com/ecm2414/cardgame/GameController.java:71 | deck e's file is `deck<e + 1>_output.txt`, holding that number's contents line |

## Left out

- Threads, `synchronized`, `Thread.sleep`, `volatile` and `AtomicBoolean`: a turn holds the locks of its own two decks only, and turns are modelled one after another, in any order.
- Two winners in the loop are not modelled. Players whose decks are disjoint (n of 4 or more) hold different locks, so both can pass the check at Player.java:72 before either sets the flag, both win and both log "wins"; `winnerId` keeps the last write. In the model's serial turns, the first win sets the flag and every later turn sees it, so at most one player wins in the loop.
- The unbounded `while` of `Player.run` is modelled as Start, one Turn and Finish. The scheduler decides how many turns are taken and by whom, so the model has no loop that stands for it.
- Players.Player.Turn: on an empty deck `drawCard` waits until another player adds a card, and returns null only on interruption (Deck.java:67-78). The model instead requires a non-empty left deck and leaves out the wait and the interrupt. The full-hand check of `addCard` cannot fire in a turn, so Turn requires fewer than five cards.
- The game over the whole ring is not one heap-level method. GameControl.RingTurnConserves states conservation over the ring on value snapshots of the hands and decks.
- File I/O, `PlayerLogger.create`/`close`, `IOException` handling and `System.out` output: a log is the list of lines it would write, and a deck file is a name with its lines.
- `CardGame.main` and the command-line prompt loop are not part of this model; the pack arrives as a list of lines.
- `Integer.parseInt` accepts only ASCII digits here; Java also accepts other Unicode decimal digits.
- Exception message wording is kept only as the fields each error carries (line number, value, sizes).
- `Collections.unmodifiableList` is not modelled: values are immutable anyway.
- The interfaces `IDeck` and `IPlayer` add no behaviour and are not modelled.
- GameConfiguration.FillDecks: requires at least one deck, because `fillDecks` loops forever on an empty array.
- `Deck.logDeckContents` (Deck.java:98-106) is not modelled: nothing calls it.
- Loop counters of `int` width are unbounded integers: every loop bound is below `Integer.MAX_VALUE`.
- `logFinalHand` is modelled, but `Player.run` never calls it.
- A player that wins at the start returns at once and logs no "exits" line; the model does the same.
- There is no central check for a winning dealt hand before the threads start. Each player checks its own hand at Player.java:50-53 and sets the flag without reading it, so every player dealt four of a kind declares a win and logs "wins". Players.Player.Start models that, not a single lowest-indexed winner.
- Player logs name decks by their 0-based id, while deck files are numbered from 1. The model keeps both as written.
- The fallback at Player.java:86-87 cannot run: the chosen discard is always in the hand (Hands.DiscardIndexOf). The model has `assert false` there.
- PackLoader.Load and PackLoader.ParseLines take the file's lines as a list of strings; reading the file is left out.
- PackValidator.ParseNonNegativeInt carries no ensures of its own; its contract is PackValidator.ParseOutcome and the Parse lemmas beside it.

## Findings

| source | as written | input that shows it | evidently intended | confidence | as-written member | corrected member |
|---|---|---|---|---|---|---|
| src/main/java/com/ecm2414/cardgame/data/PackValidator.java:22 | the expected count `8 * numPlayers` is an `int` product and wraps around | numPlayers = 536870913: 8n wraps to 8, so an 8-line pack passes | a pack of exactly 8n lines | not executed | PackValidator.LineCountOverflow | PackValidator.ValidateLineCount |
| src/main/java/com/ecm2414/cardgame/data/PackLoader.java:42 | `load` checks the line count with the wrapping `8 * n` | numPlayers = 536870913 and eight lines of 0: the load returns the eight 0s | a pack of exactly 8n lines | not executed | PackLoader.LoadOverflowExample | PackLoader.Load |
| src/main/java/com/ecm2414/cardgame/data/PackLoader.java:32 | the list capacity `8 * n` wraps, and `new ArrayList` throws on a negative capacity | numPlayers = 268435456: the capacity is `Integer.MIN_VALUE` and the load throws `IllegalArgumentException` instead of an `InvalidPackException` | a pack error about the line count | not executed | PackLoader.LoadCapacityExample | PackLoader.Load |
| src/main/java/com/ecm2414/cardgame/GameConfig.java:28 | the size check `numPlayers * 8` wraps around the same way | numPlayers = 536870913 with an 8-card pack is accepted, though it cannot be dealt | a pack of exactly 8n cards | not executed | GameConfiguration.ConfigOverflow | GameConfiguration.NewGameConfig |
