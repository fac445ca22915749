/** Decoding of a packed rank: `handType = p >> 12`, `handRank = p & 0xfff`,
    `value = p`, `handName = HAND_TYPES[handType]`, with JavaScript's int32
    semantics for `>>` and `&`. */
module RankDecoder {
  import opened Results
  import opened RankTable

  const TwoTo31 := 0x8000_0000
  const TwoTo32 := 0x1_0000_0000

  /** Width of the in-category ordinal: 12 bits. */
  const RankBits := 4096

  /** The result record of an evaluation. */
  datatype EvaluatedHand = EvaluatedHand(
    handType: int,
    handRank: nat,
    value: Word,
    handName: Option<string>)

  /** JavaScript's ToInt32: the signed 32-bit integer congruent to `w`
      modulo 2^32, which the bitwise operators act on. */
  function ToInt32(w: Word): (r: int)
    ensures -TwoTo31 <= r < TwoTo31
    ensures (w - r) % TwoTo32 == 0
    ensures w < TwoTo31 ==> r == w
  {
    if w < TwoTo31 then w else w - TwoTo32
  }

  /** `p >> 12`: an arithmetic shift of the int32 value, i.e. division rounding
      toward minus infinity (Dafny's `/` by a positive divisor rounds so). */
  function HandType(p: Word): (t: int)
    ensures t * RankBits <= ToInt32(p) < t * RankBits + RankBits
    ensures p < TwoTo31 ==> 0 <= t && t * RankBits <= p
    ensures p >= TwoTo31 ==> t < 0
  {
    ToInt32(p) / RankBits
  }

  /** `p & 0xfff`: the low 12 bits of the int32 value, which are those of `p`. */
  function HandRank(p: Word): (r: nat)
    ensures r < RankBits
    ensures (p - r) % RankBits == 0
  {
    ToInt32(p) % RankBits
  }

  /** `HAND_TYPES[t]`: `undefined` when `t` is not an index of the array. */
  function HandName(names: seq<string>, t: int): (n: Option<string>)
    ensures n.Some? <==> 0 <= t < |names|
    ensures n.Some? ==> n.value == names[t]
  {
    if 0 <= t < |names| then Some(names[t]) else None
  }

  /** The record built at the end of `evaluate`. */
  function Decode(p: Word, names: seq<string>): (h: EvaluatedHand)
    ensures h.value == p
    ensures h.handRank < RankBits
    ensures h.handType * RankBits + h.handRank == ToInt32(p)
    ensures p < TwoTo31 ==> h.handType >= 0 && h.handType * RankBits + h.handRank == p
    ensures h.handName == HandName(names, h.handType)
  {
    var t := HandType(p);
    var r := HandRank(p);
    EvaluatedHand(t, r, p, HandName(names, t))
  }

  /** The packed value of a category and an ordinal inside it. */
  function Pack(t: nat, r: nat): int
  {
    t * RankBits + r
  }

  /** Decoding a packed (category, ordinal) pair gives both back. */
  lemma DecodePack(t: nat, r: nat, names: seq<string>)
    requires t * RankBits < TwoTo31
    requires r < RankBits
    ensures 0 <= Pack(t, r) < TwoTo31
    ensures Decode(Pack(t, r), names).handType == t
    ensures Decode(Pack(t, r), names).handRank == r
    ensures Decode(Pack(t, r), names).handName == HandName(names, t)
  {
    var p := Pack(t, r);
    assert p / RankBits == t;
    assert p % RankBits == r;
  }
}
