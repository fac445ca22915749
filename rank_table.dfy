/** The binary rank table (HandRanks.dat): a flat byte buffer read as
    little-endian unsigned 32-bit words. */
module RankTable {
  import opened Results

  type Byte = x: int | 0 <= x < 0x100
  type Word = x: int | 0 <= x < 0x1_0000_0000

  /** The value of four bytes read least significant first. */
  function DecodeLE(b: seq<Byte>): Word
    requires |b| == 4
  {
    b[0] as int + 0x100 * b[1] as int + 0x1_0000 * b[2] as int + 0x100_0000 * b[3] as int
  }

  /** The four bytes, least significant first, that store `w`. */
  function EncodeLE(w: Word): (b: seq<Byte>)
    ensures |b| == 4
  {
    var q1 := w / 0x100;
    var q2 := q1 / 0x100;
    [w % 0x100, q1 % 0x100, q2 % 0x100, q2 / 0x100]
  }

  /** Quotient and remainder by 256 are determined by any split
      `x == lo + 256 * hi` with `0 <= lo < 256`. */
  lemma DivModOfSplit(x: int, lo: int, hi: int)
    requires 0 <= lo < 0x100 && x == lo + 0x100 * hi
    ensures x / 0x100 == hi && x % 0x100 == lo
  {
  }

  lemma DecodeEncode(w: Word)
    ensures DecodeLE(EncodeLE(w)) == w
  {
    var q1 := w / 0x100;
    var q2 := q1 / 0x100;
    assert w == w % 0x100 + 0x100 * q1;
    assert q1 == q1 % 0x100 + 0x100 * q2;
    assert q2 == q2 % 0x100 + 0x100 * (q2 / 0x100);
  }

  lemma EncodeDecode(b: seq<Byte>)
    requires |b| == 4
    ensures EncodeLE(DecodeLE(b)) == b
  {
    var w := DecodeLE(b);
    var b0, b1, b2, b3 := b[0] as int, b[1] as int, b[2] as int, b[3] as int;
    DivModOfSplit(w, b0, b1 + 0x100 * b2 + 0x1_0000 * b3);
    DivModOfSplit(b1 + 0x100 * b2 + 0x1_0000 * b3, b1, b2 + 0x100 * b3);
    DivModOfSplit(b2 + 0x100 * b3, b2, b3);
  }

  /** Word index `i` lies wholly inside the buffer: bytes 4i .. 4i+3 exist. */
  predicate InBounds(table: seq<Byte>, i: nat)
  {
    4 * i + 4 <= |table|
  }

  /** `evalCard(i)`: `readUInt32LE(4 * i)`, which throws a RangeError when the
      four bytes at that offset are not all inside the buffer. */
  function ReadWord(table: seq<Byte>, i: nat): (r: Result<Word>)
    ensures r.Ok? <==> InBounds(table, i)
    ensures r.Err? ==> r.error == OffsetOutOfRange
    ensures r.Ok? ==> EncodeLE(r.value) == table[4 * i .. 4 * i + 4]
  {
    if InBounds(table, i) then
      var b := table[4 * i .. 4 * i + 4];
      EncodeDecode(b);
      Ok(DecodeLE(b))
    else
      Err(OffsetOutOfRange)
  }
}
