/**
 How fs.c lays files out on the disk: the bitmap of blocks in use, little-endian
 words in indirect blocks, and the address slots of inodes. The blocks are those
 that bread returns, one flat array.
 */
module FsLayout {
  import opened Params
  import opened Bytes

  const NDIRECT: nat := 12
  const NINDIRECT: nat := 128
  const MAXFILE: nat := NDIRECT + NINDIRECT
  const BPB: nat := 4096
  const IPB: nat := 8
  const INODESTART: nat := 32
  const BMAPSTART: nat := 58
  const DATASTART: nat := 59 // blocks below hold metadata and are marked used by mkfs

  // ------------------------------------------------------ words

  function Word(b0: nat, b1: nat, b2: nat, b3: nat): nat {
    b0 + 0x100 * b1 + 0x1_0000 * b2 + 0x100_0000 * b3
  }

  function UintAt(b: Block, j: nat): (v: nat)
    requires j < NINDIRECT
    ensures v < 0x1_0000_0000
  {
    Word(b[4 * j], b[4 * j + 1], b[4 * j + 2], b[4 * j + 3])
  }

  function PutUint(b: Block, j: nat, v: nat): Block
    requires j < NINDIRECT && v < 0x1_0000_0000
  {
    b[4 * j := v % 0x100][4 * j + 1 := v / 0x100 % 0x100][4 * j + 2 := v / 0x1_0000 % 0x100][4 * j + 3 := v / 0x100_0000]
  }

  lemma {:induction false} PutUintAt(b: Block, j: nat, v: nat, l: nat)
    requires j < NINDIRECT && l < NINDIRECT && v < 0x1_0000_0000
    ensures UintAt(PutUint(b, j, v), l) == if l == j then v else UintAt(b, l)
  {
    if l == j {
      var q0 := v / 0x100;
      var q1 := v / 0x1_0000;
      var q2 := v / 0x100_0000;
      assert q0 / 0x100 == q1 && q1 / 0x100 == q2;
    }
  }

  // ------------------------------------------------------ the bitmap

  function Pow2(w: nat): (p: nat)
    ensures p > 0
  {
    if w == 0 then 1 else 2 * Pow2(w - 1)
  }

  /** x & (1 << k) is not zero. */
  predicate Bit(x: nat, k: nat) {
    if k == 0 then x % 2 == 1 else Bit(x / 2, k - 1)
  }

  /** x | (1 << k), or x & ~(1 << k). */
  function PutBit(x: nat, k: nat, on: bool): nat {
    if k == 0 then x / 2 * 2 + (if on then 1 else 0) else PutBit(x / 2, k - 1, on) * 2 + x % 2
  }

  lemma {:induction false} PutBitAt(x: nat, k: nat, on: bool, l: nat)
    ensures Bit(PutBit(x, k, on), l) <==> if l == k then on else Bit(x, l)
  {
    if k > 0 && l > 0 {
      PutBitAt(x / 2, k - 1, on, l - 1);
    }
  }

  lemma {:induction false} PutBitFits(x: nat, k: nat, on: bool, w: nat)
    requires x < Pow2(w) && k < w
    ensures PutBit(x, k, on) < Pow2(w)
  {
    if k > 0 {
      PutBitFits(x / 2, k - 1, on, w - 1);
    }
  }

  /** Block b is marked in use. */
  predicate Used(bitmap: Block, b: nat)
    requires b < BPB
  {
    Bit(bitmap[b / 8], b % 8)
  }

  /** The bitmap with block b marked in use, or free. */
  function Mark(bitmap: Block, b: nat, on: bool): Block
    requires b < BPB
  {
    assert Pow2(8) == 256;
    PutBitFits(bitmap[b / 8], b % 8, on, 8);
    bitmap[b / 8 := PutBit(bitmap[b / 8], b % 8, on)]
  }

  lemma {:induction false} MarkUsed(bitmap: Block, b: nat, on: bool, c: nat)
    requires b < BPB && c < BPB
    ensures Used(Mark(bitmap, b, on), c) <==> if c == b then on else Used(bitmap, c)
  {
    hide Bit, PutBit;
    PutBitAt(bitmap[b / 8], b % 8, on, c % 8);
  }

  lemma {:induction false} LowBits(w: nat, k: nat)
    ensures Bit(Pow2(w) - 1, k) <==> k < w
  {
    if k > 0 {
      if w > 0 {
        assert (Pow2(w) - 1) / 2 == Pow2(w - 1) - 1;
        LowBits(w - 1, k - 1);
      } else {
        LowBits(0, k - 1);
      }
    }
  }

  /** The bitmap mkfs writes for a disk whose data blocks are all free. */
  const FRESH: Block := seq(BSIZE, j => if j < 7 then 255 else if j == 7 then 7 else 0)

  lemma {:induction false} FreshUsed(b: nat)
    requires b < BPB
    ensures Used(FRESH, b) <==> b < DATASTART
  {
    assert Pow2(3) == 8 && Pow2(8) == 256;
    LowBits(if b / 8 < 7 then 8 else if b / 8 == 7 then 3 else 0, b % 8);
  }
}
