/** The x86 reading of a block as an array of 32-bit words, least significant byte first. */
module Words {
  import opened FileTree

  function GetWord(b: Block, i: int): (v: int) {
    if |b| == BSIZE && 0 <= i < NINDIRECT then
      var b0: int, b1: int, b2: int, b3: int := b[4 * i], b[4 * i + 1], b[4 * i + 2], b[4 * i + 3];
      b0 + 0x100 * b1 + 0x1_0000 * b2 + 0x100_0000 * b3
    else 0
  }

  function PutWord(b: Block, i: int, v: int): (r: Block) {
    if |b| == BSIZE && 0 <= i < NINDIRECT then
      b[4 * i := v % 0x100][4 * i + 1 := v / 0x100 % 0x100]
       [4 * i + 2 := v / 0x1_0000 % 0x100][4 * i + 3 := v / 0x100_0000 % 0x100]
    else b
  }

  function LittleEndian(): (w: Codec) {
    Codec((b, i) => GetWord(b, i), (b, i, v) => PutWord(b, i, v))
  }

  // The bytes of a word.
  lemma Digits(v: int)
    requires 0 <= v < WORD
    ensures v == v % 0x100 + 0x100 * (v / 0x100 % 0x100) + 0x1_0000 * (v / 0x1_0000 % 0x100) + 0x100_0000 * (v / 0x100_0000 % 0x100)
  {
  }

  lemma PutAt(b: Block, i: int, v: int, k: int)
    requires |b| == BSIZE && 0 <= i < NINDIRECT && 0 <= k < BSIZE
    ensures |PutWord(b, i, v)| == BSIZE
    ensures PutWord(b, i, v)[k] ==
      if k == 4 * i then v % 0x100 else if k == 4 * i + 1 then v / 0x100 % 0x100
      else if k == 4 * i + 2 then v / 0x1_0000 % 0x100 else if k == 4 * i + 3 then v / 0x100_0000 % 0x100 else b[k]
  {
  }

  // A word read back is the word written, and writing one leaves the others alone.
  lemma GetPut(b: Block, i: int, v: int, j: int)
    requires |b| == BSIZE && 0 <= i < NINDIRECT && 0 <= j < NINDIRECT && 0 <= v < WORD
    ensures |PutWord(b, i, v)| == BSIZE
    ensures GetWord(PutWord(b, i, v), j) == if i == j then v else GetWord(b, j)
  {
    Digits(v);
    PutAt(b, i, v, 4 * j);
    PutAt(b, i, v, 4 * j + 1);
    PutAt(b, i, v, 4 * j + 2);
    PutAt(b, i, v, 4 * j + 3);
  }

  // So index blocks as the machine stores them keep the laws the block tree relies on.
  lemma LittleEndianLawful()
    ensures Lawful(LittleEndian())
  {
    forall b: Block, i, v, j | |b| == BSIZE && 0 <= i < NINDIRECT && 0 <= v < WORD && 0 <= j < NINDIRECT
      ensures |PutWord(b, i, v)| == BSIZE
      ensures GetWord(PutWord(b, i, v), j) == if i == j then v else GetWord(b, j)
    {
      GetPut(b, i, v, j);
    }
  }
}
