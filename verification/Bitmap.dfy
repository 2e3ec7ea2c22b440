/** The free block bitmap as bits inside bytes inside blocks (kernel/fs.c, kernel/fs.h). */
module Bitmap {
  import opened Blocks

  const BPB: nat := 8192   // bitmap bits per block

  /** (x & (1 << j)) != 0 */
  predicate Bit(x: nat, j: nat) {
    if j == 0 then x % 2 == 1 else Bit(x / 2, j - 1)
  }

  /** x | (1 << j) */
  function SetBit(x: nat, j: nat): nat {
    if j == 0 then x / 2 * 2 + 1 else SetBit(x / 2, j - 1) * 2 + x % 2
  }

  /** x & ~(1 << j) */
  function ClearBit(x: nat, j: nat): nat {
    if j == 0 then x / 2 * 2 else ClearBit(x / 2, j - 1) * 2 + x % 2
  }

  function Pow2(n: nat): nat {
    if n == 0 then 1 else 2 * Pow2(n - 1)
  }

  lemma {:induction false} SetBitBits(x: nat, j: nat, k: nat)
    ensures Bit(SetBit(x, j), k) <==> k == j || Bit(x, k)
    decreases j
  {
    if 0 < j && 0 < k {
      SetBitBits(x / 2, j - 1, k - 1);
      assert SetBit(x, j) / 2 == SetBit(x / 2, j - 1);
    }
  }

  lemma {:induction false} ClearBitBits(x: nat, j: nat, k: nat)
    ensures Bit(ClearBit(x, j), k) <==> k != j && Bit(x, k)
    decreases j
  {
    if 0 < j && 0 < k {
      ClearBitBits(x / 2, j - 1, k - 1);
      assert ClearBit(x, j) / 2 == ClearBit(x / 2, j - 1);
    }
  }

  lemma {:induction false} BitsFit(x: nat, j: nat, n: nat)
    requires j < n && x < Pow2(n)
    ensures SetBit(x, j) < Pow2(n) && ClearBit(x, j) < Pow2(n)
  {
    if 0 < j {
      BitsFit(x / 2, j - 1, n - 1);
    }
  }

  lemma {:induction false} ZeroBits(j: nat)
    ensures !Bit(0, j)
  {
    if 0 < j {
      ZeroBits(j - 1);
    }
  }

  /** Whether the bit for block `b` is set in the bitmap that starts at `start`. */
  predicate Marked(disk: map<nat, Block>, start: nat, b: nat)
    requires start + b / BPB in disk
  {
    Bit(disk[start + b / BPB][b % BPB / 8], b % 8)
  }

  /** Block, byte and bit position determine the block number. */
  lemma SamePosition(b: nat, c: nat)
    requires c / BPB == b / BPB && c % BPB / 8 == b % BPB / 8 && c % 8 == b % 8
    ensures c == b
  {
    assert c % BPB % 8 == c % 8 && b % BPB % 8 == b % 8;
  }

  /** data[bi/8] |= m */
  function Mark(blk: Block, b: nat): (r: Block) {
    var i := b % BPB / 8;
    BitsFit(blk[i], b % 8, 8);
    blk[i := SetBit(blk[i], b % 8)]
  }

  /** data[bi/8] &= ~m */
  function Unmark(blk: Block, b: nat): (r: Block) {
    var i := b % BPB / 8;
    BitsFit(blk[i], b % 8, 8);
    blk[i := ClearBit(blk[i], b % 8)]
  }

  /** Marking or unmarking `b` changes the bit of no other block. */
  lemma MarkBits(blk: Block, b: nat, c: nat)
    requires c / BPB == b / BPB
    ensures Bit(Mark(blk, b)[c % BPB / 8], c % 8) <==> c == b || Bit(blk[c % BPB / 8], c % 8)
    ensures Bit(Unmark(blk, b)[c % BPB / 8], c % 8) <==> c != b && Bit(blk[c % BPB / 8], c % 8)
  {
    var i := b % BPB / 8;
    if c % BPB / 8 == i {
      SetBitBits(blk[i], b % 8, c % 8);
      ClearBitBits(blk[i], b % 8, c % 8);
      if c % 8 == b % 8 {
        SamePosition(b, c);
      }
    }
  }
}
