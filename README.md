# Poker hand evaluator: a Dafny model

This project models `PokerEvaluator.evalHand` from `src/poker-evaluator.ts` and proves properties of the model. The function ranks a poker hand of 3, 5, 6 or 7 card tokens using a flat binary table of 32-bit words (`HandRanks.dat`). It works in five steps:

1. Check the hand size.
2. Lower-case every token.
3. Reject any token that is not a key of `DECK`.
4. Replace a 3-card hand with the output of the 3-card filler.
5. Walk the table: start at state 53, do one lookup `p := T[p + c]` per card value `c`, and, for 5- and 6-card hands only, one more resolving lookup `p := T[p]`. Then split the final state into `handType = p >> 12`, `handRank = p & 0xfff`, `value = p` and `handName = HAND_TYPES[handType]`.

The rank table, `DECK`, `HAND_TYPES` and the filler are parameters:
- The table is a byte sequence.
- `DECK` is a `map<string, nat>`.
- `HAND_TYPES` is a `seq<string>`.
- The filler is a total function `seq<string> -> seq<string>`.

Each thrown `Error` becomes an `Err` value of `Results.Result`:
- `BadLength(n)` for a bad hand size.
- `InvalidCard` for a token that is not in the deck.
- `OffsetOutOfRange` for the RangeError that `Buffer.readUInt32LE` throws.

Modules:
- `Results` holds the option, error and result types.
- `RankTable` holds the buffer and its little-endian word read (`evalCard`).
- `HandRanking` holds the walk, as a left fold plus the trace of the indices it reads.
- `RankDecoder` holds the packed-rank decoding.
- `PokerEvaluator` holds `evalHand` and its helpers, including `evaluate` as a method with a loop that is proved equal to the function `Evaluation`.

Three behaviours of `evalHand` shape the error model:
- `HAND_TYPES[t]` for a `t` outside the name table gives `undefined` rather than an error. `handName` is therefore an `Option`.
- The error for an unknown token does not name the token.
- A read outside the table is not an unreachable state. `readUInt32LE` throws a RangeError, and the model returns that as an error value.

## Model

| member | source | states |
|---|---|---|
| `RankTable.ReadWord` | src/poker-evaluator.ts:62-64 | `evalCard(i)` succeeds exactly when bytes 4i..4i+3 lie inside the buffer. It then returns the word whose little-endian encoding is those four bytes; otherwise it fails with the range error. |
| `RankTable.DecodeEncode` | src/poker-evaluator.ts:63 | Decoding the little-endian bytes of any 32-bit word gives the word back. |
| `RankTable.EncodeDecode` | src/poker-evaluator.ts:63 | Encoding the little-endian value of any four bytes gives the bytes back, so the word read is a bijection. |
| `HandRanking.Walk` | src/poker-evaluator.ts:47-48 | The per-card walk can only fail with the table's range error. Its steps are stated by `WalkRecurrence` and `LookupsAreSteps`. |
| `HandRanking.Rank` | src/poker-evaluator.ts:47-52 | The whole ranking, resolving lookup included, can only fail with the table's range error. Its reads are stated by `RankReads`. |
| `HandRanking.WalkAppend` | src/poker-evaluator.ts:48 | Walking `a + b` is walking `a` and then walking `b` from the state `a` ends in, with a failure in `a` propagated. The walk is a left fold in input order. |
| `HandRanking.WalkSnoc` | src/poker-evaluator.ts:48 | Consuming one more card is exactly one lookup, at the current state plus that card's value. |
| `HandRanking.WalkRecurrence` | src/poker-evaluator.ts:47-48 | The state before any card is 53. The state after k+1 cards is the table word at (state after k cards) + (k-th card value). |
| `HandRanking.LookupsInBounds` | src/poker-evaluator.ts:48 | A walk succeeds exactly when every index it reads is inside the table. It never reads more indices than there are cards, and a successful walk reads exactly one per card. |
| `HandRanking.LookupsAreSteps` | src/poker-evaluator.ts:48 | In a successful walk, the k-th index read is the state after the first k cards plus the k-th card value. |
| `HandRanking.RankReads` | src/poker-evaluator.ts:47-52 | Ranking succeeds exactly when all its reads are in bounds. It then reads n+1 words for n = 5 or 6 and n words otherwise. Read k < n is at state k plus card k, and the extra read is at the final per-card state. |
| `RankDecoder.ToInt32` | src/poker-evaluator.ts:55 | The int32 value that `>>` acts on is congruent to the word modulo 2^32, lies in [-2^31, 2^31), and equals the word below 2^31. |
| `RankDecoder.HandType` | src/poker-evaluator.ts:55 | `p >> 12` is the floor of the int32 value divided by 4096. It is non-negative below 2^31 and negative from 2^31 on. |
| `RankDecoder.HandRank` | src/poker-evaluator.ts:56 | `p & 0xfff` is below 4096 and congruent to `p` modulo 4096, i.e. the low 12 bits of `p`. |
| `RankDecoder.HandName` | src/poker-evaluator.ts:58 | `HAND_TYPES[t]` is present exactly when t indexes the name table, and is then that entry. |
| `RankDecoder.Decode` | src/poker-evaluator.ts:54-59 | The result has `value == p` and `handRank < 4096`. `handType * 4096 + handRank` is the int32 value of `p`, which is `p` itself for `p < 2^31`. `handName` is the name at `handType`. |
| `RankDecoder.DecodePack` | src/poker-evaluator.ts:55-57 | Decoding `t * 4096 + r`, with r < 4096 and the value below 2^31, gives back category t, ordinal r and the name at t. |
| `PokerEvaluator.ToLower` | src/poker-evaluator.ts:37 | Lower-casing keeps the length, maps each ASCII capital to its small letter, leaves every other character alone, and leaves no capital behind. |
| `PokerEvaluator.ToLowerIdempotent` | src/poker-evaluator.ts:37 | Lower-casing twice is the same as lower-casing once. |
| `PokerEvaluator.ConvertInputToLowerCase` | src/poker-evaluator.ts:36-38 | Every card is lower-cased position by position, into a new list. A missing (null/undefined) card stays missing. |
| `PokerEvaluator.DeckContainsInput` | src/poker-evaluator.ts:40-42 | The check holds exactly when every card is present and is a key of `DECK`. |
| `PokerEvaluator.CardValues` | src/poker-evaluator.ts:45 | All cards have a value exactly when all are keys of `DECK`. The values are then the `DECK` entries, position by position. |
| `PokerEvaluator.Evaluation` | src/poker-evaluator.ts:44-60 | Evaluation fails only with the range error. It succeeds exactly when every card has a `DECK` value and ranking those values succeeds, and the result is then the decoding of the packed rank. |
| `PokerEvaluator.Evaluate` | src/poker-evaluator.ts:44-60 | The loop that starts at 53 and reassigns `p` once per card, then once more for 5 or 6 cards, returns exactly `Evaluation`. |
| `PokerEvaluator.EvalHand` | src/poker-evaluator.ts:12-34 | The call fails with `BadLength(n)` exactly when n is not 3, 5, 6 or 7; this needs no table. For a valid size it fails with `InvalidCard` exactly when some lower-cased card is missing or not in `DECK`, again before any table read. A success implies every lower-cased card is in `DECK`. 5-, 6- and 7-card hands are evaluated unchanged after lower-casing. |
| `PokerEvaluator.CheckedCardsHaveValues` | src/poker-evaluator.ts:21-26 | Cards that passed the deck check all have `DECK` values. |
| `PokerEvaluator.LowerCaseInvariant` | src/poker-evaluator.ts:21 | Lower-casing the input beforehand never changes the outcome of `evalHand`, so mixed-case tokens such as "As" are treated like "as". |
| `PokerEvaluator.ThreeCardHand` | src/poker-evaluator.ts:29-33 | A valid 3-card hand is evaluated as the filler's output for its lower-cased cards. When the filler returns 5 cards and the call succeeds, ranking reads 6 words: the 5-card walk plus the resolving lookup. |

## Left out

- Loading `HandRanks.dat` with `fs.readFileSync` (line 9) is file I/O. The table is a parameter.
- The `!RANKS_DATA` guard (lines 13-15) is not modelled. A `Buffer`, even an empty one, is always truthy, and `readFileSync` throws before the guard could see a missing file.
- The contents of `DECK` and `HAND_TYPES` (`./constants`) are not part of this model, and neither is the completion policy of `ThreeCardConverter.fillHand` (`./three-card-converter`). The filler is an arbitrary total function over card strings.
- Properties that depend on the table's data are not stated: that card order does not change the result, which category a given hand falls into, and that every read stays inside the table. Out-of-range reads are modelled as the range error instead.
- `PokerEvaluator.ToLower`: only ASCII letters are lower-cased. JavaScript's `toLowerCase` also maps other characters, some of them to ASCII letters (for example U+212A KELVIN SIGN to `k`). Such a token could pass the deck check in the source but is rejected here.
- `PokerEvaluator.CardValues`: a card with no `DECK` entry (one only the filler can produce) gives a NaN offset, which `readUInt32LE` rejects with the same range error. The model reports that error without doing the table reads that come before the unknown card. Every failing read raises that same error, so the outcome is the same.
- `RankTable.ReadWord`: the error value does not carry the offending offset, although the JavaScript RangeError message does.
- Card tokens that are neither strings nor null/undefined (numbers, objects) are not modelled. The input is a list of optional strings.
- Empty slots of a sparse `cards` array are not modelled. `map` keeps such holes, and `every` and `forEach` skip them (lines 37, 41, 45, 48), so the source accepts and walks a hand such as a length-5 array holding one card. The model's input list has no holes, and a missing card is a present `null`/`undefined`, which the deck check rejects.
