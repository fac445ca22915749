/** `PokerEvaluator.evalHand` and its private helpers: size check,
    lower-casing, deck check, 3-card completion and evaluation. The rank
    table, the `DECK` map, the `HAND_TYPES` names and the 3-card filler are
    parameters. */
module PokerEvaluator {
  import opened Results
  import opened RankTable
  import opened HandRanking
  import opened RankDecoder

  /** The hand sizes `evalHand` accepts. */
  predicate ValidHandSize(n: nat)
  {
    n == 3 || n == 5 || n == 6 || n == 7
  }

  predicate IsUpper(c: char)
  {
    'A' <= c <= 'Z'
  }

  function LowerChar(c: char): char
  {
    if IsUpper(c) then (c as int + 32) as char else c
  }

  /** `toLowerCase`, restricted to ASCII letters. */
  function ToLower(s: string): (r: string)
    ensures |r| == |s|
    ensures forall i :: 0 <= i < |s| ==>
      if IsUpper(s[i]) then r[i] as int == s[i] as int + 32 else r[i] == s[i]
    ensures forall i :: 0 <= i < |r| ==> !IsUpper(r[i])
  {
    if s == [] then [] else [LowerChar(s[0])] + ToLower(s[1..])
  }

  /** Lower-casing twice is lower-casing once. */
  lemma ToLowerIdempotent(s: string)
    ensures ToLower(ToLower(s)) == ToLower(s)
  {
    var r := ToLower(s);
    assert forall i :: 0 <= i < |r| ==> ToLower(r)[i] == r[i];
  }

  /** `card && card.toLowerCase()`: a missing card (null or undefined) stays
      missing. */
  function LowerToken(card: Option<string>): Option<string>
  {
    match card
    case None => None
    case Some(s) => Some(ToLower(s))
  }

  /** `convertInputToLowerCase`: each card lower-cased, position by position. */
  function ConvertInputToLowerCase(cards: seq<Option<string>>): (r: seq<Option<string>>)
    ensures |r| == |cards|
    ensures forall i :: 0 <= i < |cards| ==>
      r[i].Some? == cards[i].Some? &&
      (cards[i].Some? ==> r[i].value == ToLower(cards[i].value))
  {
    seq(|cards|, i requires 0 <= i < |cards| => LowerToken(cards[i]))
  }

  /** `Object.keys(DECK).includes(card)`. */
  predicate InDeck(deck: map<string, nat>, card: Option<string>)
  {
    card.Some? && card.value in deck
  }

  /** `deckContainsInput`: `every` over the cards, stopping at the first one
      that is not a key of `DECK`. */
  function DeckContainsInput(deck: map<string, nat>, cards: seq<Option<string>>): (r: bool)
    ensures r <==> forall i :: 0 <= i < |cards| ==> InDeck(deck, cards[i])
  {
    if cards == [] then true
    else InDeck(deck, cards[0]) && DeckContainsInput(deck, cards[1..])
  }

  /** The card strings of a list of present cards. */
  function Texts(cards: seq<Option<string>>): (r: seq<string>)
    requires forall i :: 0 <= i < |cards| ==> cards[i].Some?
    ensures |r| == |cards|
    ensures forall i :: 0 <= i < |cards| ==> cards[i] == Some(r[i])
  {
    seq(|cards|, i requires 0 <= i < |cards| => cards[i].value)
  }

  /** `cards.map(card => DECK[card])`. A card that is not a key gives
      `undefined`, and the offset computed from it is NaN, which
      `readUInt32LE` rejects with its RangeError; this function reports such
      a card as `None`. */
  function CardValues(deck: map<string, nat>, cards: seq<string>): (r: Option<seq<nat>>)
    ensures r.Some? <==> forall i :: 0 <= i < |cards| ==> cards[i] in deck
    ensures r.Some? ==> |r.value| == |cards|
    ensures r.Some? ==> forall i :: 0 <= i < |cards| ==> r.value[i] == deck[cards[i]]
  {
    if cards == [] then Some([])
    else if cards[0] !in deck then None
    else
      match CardValues(deck, cards[1..])
      case None => None
      case Some(rest) => Some([deck[cards[0]]] + rest)
  }

  /** What `evaluate` returns for a list of card strings. */
  function Evaluation(table: seq<Byte>, deck: map<string, nat>, names: seq<string>, cards: seq<string>)
    : (r: Result<EvaluatedHand>)
    ensures r.Err? ==> r.error == OffsetOutOfRange
    ensures r.Ok? <==> CardValues(deck, cards).Some? && Rank(table, CardValues(deck, cards).value).Ok?
    ensures r.Ok? ==> r.value == Decode(Rank(table, CardValues(deck, cards).value).value, names)
  {
    match CardValues(deck, cards)
    case None => Err(OffsetOutOfRange)
    case Some(values) =>
      match Rank(table, values)
      case Err(e) => Err(e)
      case Ok(p) => Ok(Decode(p, names))
  }

  /** `evaluate`: the accumulator `p` starts at 53 and is replaced once per
      card value, then once more for 5- and 6-card hands. */
  method Evaluate(table: seq<Byte>, deck: map<string, nat>, names: seq<string>, cards: seq<string>)
    returns (r: Result<EvaluatedHand>)
    ensures r == Evaluation(table, deck, names, cards)
  {
    var found := CardValues(deck, cards);
    if found.None? {
      return Err(OffsetOutOfRange);
    }
    var values := found.value;
    var p: Word := Start;
    var i := 0;
    while i < |values|
      invariant 0 <= i <= |values|
      invariant Walk(table, Start, values[..i]) == Ok(p)
    {
      WalkSnoc(table, Start, values[..i], values[i]);
      assert values[..i + 1] == values[..i] + [values[i]];
      var next := ReadWord(table, p + values[i]);
      if next.Err? {
        WalkAppend(table, Start, values[..i + 1], values[i + 1..]);
        assert values[..i + 1] + values[i + 1..] == values;
        assert Rank(table, values) == Err(next.error);
        return Err(next.error);
      }
      p := next.value;
      i := i + 1;
    }
    assert values[..i] == values;
    if |values| == 5 || |values| == 6 {
      var next := ReadWord(table, p);
      if next.Err? {
        assert Rank(table, values) == Err(next.error);
        return Err(next.error);
      }
      p := next.value;
    }
    assert Rank(table, values) == Ok(p);
    r := Ok(Decode(p, names));
  }

  /** `evalHand`: checks the size, lower-cases, checks every card against the
      deck, completes a 3-card hand with `fill` and evaluates. */
  function EvalHand(
    table: seq<Byte>, deck: map<string, nat>, names: seq<string>,
    fill: seq<string> -> seq<string>, cards: seq<Option<string>>)
    : (r: Result<EvaluatedHand>)
    ensures !ValidHandSize(|cards|) <==> r == Err(BadLength(|cards|))
    ensures ValidHandSize(|cards|) ==>
      (r == Err(InvalidCard) <==>
       exists i :: 0 <= i < |cards| && !InDeck(deck, LowerToken(cards[i])))
    ensures r.Ok? ==> forall i :: 0 <= i < |cards| ==> InDeck(deck, LowerToken(cards[i]))
    ensures ValidHandSize(|cards|) && |cards| != 3 && DeckContainsInput(deck, ConvertInputToLowerCase(cards)) ==>
      r == Evaluation(table, deck, names, Texts(ConvertInputToLowerCase(cards)))
  {
    if !ValidHandSize(|cards|) then
      Err(BadLength(|cards|))
    else
      var lowered := ConvertInputToLowerCase(cards);
      if !DeckContainsInput(deck, lowered) then
        Err(InvalidCard)
      else
        var hand := if |cards| == 3 then fill(Texts(lowered)) else Texts(lowered);
        Evaluation(table, deck, names, hand)
  }

  /** A hand that passed the deck check never fails the DECK lookup in
      `evaluate`: every card has a value. */
  lemma CheckedCardsHaveValues(deck: map<string, nat>, cards: seq<Option<string>>)
    requires DeckContainsInput(deck, ConvertInputToLowerCase(cards))
    ensures CardValues(deck, Texts(ConvertInputToLowerCase(cards))).Some?
  {
    var lowered := ConvertInputToLowerCase(cards);
    var hand := Texts(lowered);
    forall i | 0 <= i < |hand| ensures hand[i] in deck {
      assert InDeck(deck, lowered[i]);
    }
  }

  /** Case does not matter: lower-casing the input first changes nothing. */
  lemma LowerCaseInvariant(
    table: seq<Byte>, deck: map<string, nat>, names: seq<string>,
    fill: seq<string> -> seq<string>, cards: seq<Option<string>>)
    ensures EvalHand(table, deck, names, fill, ConvertInputToLowerCase(cards)) ==
            EvalHand(table, deck, names, fill, cards)
  {
    var lowered := ConvertInputToLowerCase(cards);
    forall i | 0 <= i < |cards| && cards[i].Some? {
      ToLowerIdempotent(cards[i].value);
    }
    assert ConvertInputToLowerCase(lowered) == lowered;
  }

  /** A 3-card hand is replaced by the filler's output before evaluation;
      when the filler returns 5 valid cards and ranking succeeds, the walk
      reads 6 words: 5 per-card lookups and the resolving one. */
  lemma ThreeCardHand(
    table: seq<Byte>, deck: map<string, nat>, names: seq<string>,
    fill: seq<string> -> seq<string>, cards: seq<Option<string>>)
    requires |cards| == 3
    requires DeckContainsInput(deck, ConvertInputToLowerCase(cards))
    ensures EvalHand(table, deck, names, fill, cards) ==
            Evaluation(table, deck, names, fill(Texts(ConvertInputToLowerCase(cards))))
    ensures var hand := fill(Texts(ConvertInputToLowerCase(cards)));
      |hand| == 5 && EvalHand(table, deck, names, fill, cards).Ok? ==>
      |RankLookups(table, CardValues(deck, hand).value)| == 6
  {
    var hand := fill(Texts(ConvertInputToLowerCase(cards)));
    if CardValues(deck, hand).Some? {
      RankReads(table, CardValues(deck, hand).value);
    }
  }
}
