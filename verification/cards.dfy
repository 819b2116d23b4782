/**
 * Card tokens and their parsed form.
 *
 * A token is a rank name ("2" .. "10", "J", "Q", "K", "A") followed by one suit
 * character, e.g. "10S" or "AH". Parsing maps the rank name through the fixed
 * table of card values (2 .. 14, the ace being 14) and keeps the last character,
 * whatever it is, as the suit.
 */
module Cards {

  /** A parsed card: its value (2 .. 14 for any parsed token) and its suit character. */
  datatype Card = Card(value: int, suit: char)

  /** The rank-name table: "2" .. "10" map to themselves, J = 11, Q = 12, K = 13, A = 14. */
  const CardValues: map<string, int> := map[
    "2" := 2, "3" := 3, "4" := 4, "5" := 5, "6" := 6, "7" := 7, "8" := 8,
    "9" := 9, "10" := 10, "J" := 11, "Q" := 12, "K" := 13, "A" := 14
  ]

  /** Why a token is not a card: it is empty (no last character), or its rank name is unknown. */
  datatype ParseError = EmptyToken | UnknownRank(rank: string)

  datatype Parsed = Ok(card: Card) | Err(error: ParseError)

  /** The value of a card, as a sort or grouping key. */
  function Value(c: Card): int { c.value }

  /** The negated value: sorting ascending on it sorts by value, highest first. */
  function NegValue(c: Card): int { -c.value }

  predicate ValidValue(v: int) { 2 <= v <= 14 }

  /** The rank name of a value: the inverse of the `CardValues` table. */
  function RankName(v: int): (name: string)
    requires ValidValue(v)
    ensures name in CardValues && CardValues[name] == v
  {
    if v == 11 then "J"
    else if v == 12 then "Q"
    else if v == 13 then "K"
    else if v == 14 then "A"
    else if v == 10 then "10"
    else [('0' as int + v) as char]
  }

  /** The token of a card whose value is in range. */
  function Show(c: Card): string
    requires ValidValue(c.value)
  {
    RankName(c.value) + [c.suit]
  }

  /**
   * Parses a token: the last character is the suit and everything before it must
   * be a rank name of the table. An empty token has no last character and fails;
   * so does a token whose prefix is not in the table (e.g. "1S", "S", "11H").
   */
  function ParseCard(token: string): (r: Parsed)
    ensures |token| == 0 <==> r == Err(EmptyToken)
    ensures r.Ok? ==> ValidValue(r.card.value) && r.card.suit == token[|token| - 1]
    ensures r.Ok? <==> |token| > 0 && token[..|token| - 1] in CardValues
    ensures r.Ok? ==> r.card.value == CardValues[token[..|token| - 1]]
  {
    if |token| == 0 then Err(EmptyToken)
    else
      var rank := token[..|token| - 1];
      if rank in CardValues then Ok(Card(CardValues[rank], token[|token| - 1]))
      else Err(UnknownRank(rank))
  }

  /** Every rank name of the table is the name `RankName` gives its value. */
  lemma RankNameOfTable(name: string)
    requires name in CardValues
    ensures ValidValue(CardValues[name]) && RankName(CardValues[name]) == name
  {
  }

  /** Showing a card and parsing the token gives the card back. */
  lemma ParseShow(c: Card)
    requires ValidValue(c.value)
    ensures ParseCard(Show(c)) == Ok(c)
  {
    var t := Show(c);
    assert t[..|t| - 1] == RankName(c.value);
  }

  /** A token that parses is exactly the token of the card it parses to. */
  lemma ShowParse(token: string)
    requires ParseCard(token).Ok?
    ensures Show(ParseCard(token).card) == token
  {
    var rank := token[..|token| - 1];
    RankNameOfTable(rank);
    assert token == rank + [token[|token| - 1]];
  }

  /** The examples of the parser's documentation, and two rejected tokens. */
  lemma ParseExamples()
    ensures ParseCard("10S") == Ok(Card(10, 'S'))
    ensures ParseCard("AH") == Ok(Card(14, 'H'))
    ensures ParseCard("2D") == Ok(Card(2, 'D'))
    ensures ParseCard("1S") == Err(UnknownRank("1"))
    ensures ParseCard("") == Err(EmptyToken)
  {
    assert "10S"[..2] == "10";
    assert "AH"[..1] == "A";
    assert "2D"[..1] == "2";
    assert "1S"[..1] == "1";
  }

  /**
   * `[parse_card(c) for c in all_cards]`: the cards of all the tokens, or the first
   * token that fails, where the source raises.
   */
  function ParseAll(tokens: seq<string>): (r: ParsedAll)
    ensures r.AllOk? <==> forall i :: 0 <= i < |tokens| ==> ParseCard(tokens[i]).Ok?
    ensures r.AllOk? ==> |r.cards| == |tokens| && forall i :: 0 <= i < |tokens| ==> r.cards[i] == ParseCard(tokens[i]).card
    ensures r.Failed? ==> exists i :: 0 <= i < |tokens| && ParseCard(tokens[i]) == Err(r.error)
                                     && forall j :: 0 <= j < i ==> ParseCard(tokens[j]).Ok?
  {
    if |tokens| == 0 then AllOk([])
    else
      match ParseCard(tokens[0])
      case Err(e) => Failed(e)
      case Ok(c) =>
        match ParseAll(tokens[1..])
        case Failed(e) => Failed(e)
        case AllOk(rest) => AllOk([c] + rest)
  }

  datatype ParsedAll = AllOk(cards: seq<Card>) | Failed(error: ParseError)

  /** The tokens of cards with values in range parse back to the same cards. */
  lemma ParseAllShow(cs: seq<Card>)
    requires forall i :: 0 <= i < |cs| ==> ValidValue(cs[i].value)
    ensures ParseAll(seq(|cs|, i requires 0 <= i < |cs| => Show(cs[i]))) == AllOk(cs)
  {
    var tokens := seq(|cs|, i requires 0 <= i < |cs| => Show(cs[i]));
    forall i | 0 <= i < |cs|
      ensures ParseCard(tokens[i]) == Ok(cs[i])
    {
      ParseShow(cs[i]);
    }
  }

  /** The values of the cards, in order. */
  function ValuesOf(cs: seq<Card>): (vs: seq<int>)
    ensures |vs| == |cs|
    ensures forall i :: 0 <= i < |cs| ==> vs[i] == cs[i].value
  {
    if |cs| == 0 then [] else [cs[0].value] + ValuesOf(cs[1..])
  }

  /** No card occurs twice. */
  predicate Distinct(cs: seq<Card>) {
    forall c :: c in cs ==> multiset(cs)[c] == 1
  }

  /** No two positions hold the same element: for cards, no card is dealt twice; for values, no value is listed twice. */
  predicate NoRepeats<T(==)>(xs: seq<T>) {
    forall i, j :: 0 <= i < j < |xs| ==> xs[i] != xs[j]
  }

  /** Cards at distinct positions differ exactly when no card occurs twice. */
  lemma {:induction false} NoRepeatsIsDistinct(cs: seq<Card>)
    ensures NoRepeats(cs) <==> Distinct(cs)
  {
    if |cs| > 0 {
      var rest := cs[1..];
      assert cs == [cs[0]] + rest;
      NoRepeatsIsDistinct(rest);
      if NoRepeats(cs) {
        assert NoRepeats(rest) by {
          forall i, j | 0 <= i < j < |rest|
            ensures rest[i] != rest[j]
          {
            assert rest[i] == cs[i + 1] && rest[j] == cs[j + 1];
          }
        }
        assert cs[0] !in rest by {
          forall j | 0 <= j < |rest|
            ensures rest[j] != cs[0]
          {
            assert rest[j] == cs[j + 1];
          }
        }
      }
      if Distinct(cs) {
        assert multiset(cs) == multiset{cs[0]} + multiset(rest);
        assert cs[0] !in rest by {
          assert multiset(cs)[cs[0]] == 1;
        }
        forall c | c in rest
          ensures multiset(rest)[c] == 1
        {
          assert c in cs;
        }
        forall i, j | 0 <= i < j < |cs|
          ensures cs[i] != cs[j]
        {
          if i > 0 {
            assert cs[i] == rest[i - 1] && cs[j] == rest[j - 1];
          } else {
            assert cs[j] in rest;
          }
        }
      }
    }
  }

  /** Distinct cards that are all among `cs` are a sub-multiset of `cs`. */
  lemma DistinctSubMultiset(r: seq<Card>, cs: seq<Card>)
    requires Distinct(r)
    requires forall c :: c in r ==> c in cs
    ensures multiset(r) <= multiset(cs)
  {
    forall c
      ensures multiset(r)[c] <= multiset(cs)[c]
    {
      if c in r {
        assert c in cs;
      }
    }
  }

  /** Cards drawn from distinct cards are themselves distinct. */
  lemma SubMultisetDistinct(r: seq<Card>, cs: seq<Card>)
    requires Distinct(cs) && multiset(r) <= multiset(cs)
    ensures Distinct(r)
  {
    forall c | c in r
      ensures multiset(r)[c] == 1
    {
      assert c in multiset(cs);
    }
  }

  /** A value that may be missing. */
  datatype Option<T> = None | Some(value: T)

  /** The four conventional suit symbols. */
  const Suits: set<char> := {'S', 'H', 'D', 'C'}

  /**
   * A well-formed hand: distinct cards, each with a value in range and one of the
   * four suits. The evaluator does not check this; it is what parsed, dealt cards satisfy.
   */
  predicate WellFormed(cs: seq<Card>) {
    && Distinct(cs)
    && forall i :: 0 <= i < |cs| ==> ValidValue(cs[i].value) && cs[i].suit in Suits
  }
}
