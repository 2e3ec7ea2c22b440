/** Disk blocks as bytes, with the little-endian 32-bit words and the single
    bits that the kernel reads and writes inside them. */
module Blocks {

  const BSIZE: nat := 1024
  const NWORDS: nat := 256

  type byte = x: int | 0 <= x < 256
  type short = x: int | 0 <= x < 0x1_0000
  type word = x: int | 0 <= x < 0x1_0000_0000

  type Block = b: seq<byte> | |b| == BSIZE witness seq(BSIZE, i => 0)

  const ZeroBlock: Block := seq(BSIZE, i => 0)

  /** The uint at index `i` of the block seen as an array of uints. */
  function Word(b: Block, i: nat): (w: word)
    requires i < NWORDS
  {
    var b0: int, b1: int, b2: int, b3: int := b[4 * i], b[4 * i + 1], b[4 * i + 2], b[4 * i + 3];
    b0 + 0x100 * b1 + 0x1_0000 * b2 + 0x100_0000 * b3
  }

  function WordByte(w: word, k: nat): (b: byte)
    requires k < 4
  {
    match k
    case 0 => w % 0x100
    case 1 => w / 0x100 % 0x100
    case 2 => w / 0x100 / 0x100 % 0x100
    case _ => w / 0x100 / 0x100 / 0x100
  }

  lemma WordBytes(w: word)
    ensures WordByte(w, 0) as int + 0x100 * WordByte(w, 1) as int + 0x1_0000 * WordByte(w, 2) as int
            + 0x100_0000 * WordByte(w, 3) as int == w
  {
    var q1: int := w / 0x100;
    var q2: int := q1 / 0x100;
    assert w == 0x100 * q1 + w % 0x100;
    assert q1 == 0x100 * q2 + q1 % 0x100;
    assert q2 == 0x100 * (q2 / 0x100) + q2 % 0x100;
  }

  function SetWord(b: Block, i: nat, w: word): (r: Block)
    requires i < NWORDS
    ensures Word(r, i) == w
    ensures forall j | 0 <= j < NWORDS && j != i :: Word(r, j) == Word(b, j)
  {
    var r: Block := b[..4 * i] + [WordByte(w, 0), WordByte(w, 1), WordByte(w, 2), WordByte(w, 3)] + b[4 * i + 4..];
    WordBytes(w);
    r
  }

  /** The block with the words `ws` stored from index `at` on. */
  function SetWords(b: Block, at: nat, ws: seq<word>): (r: Block)
    requires at + |ws| <= NWORDS
    ensures forall i | 0 <= i < NWORDS :: Word(r, i) == if at <= i < at + |ws| then ws[i - at] else Word(b, i)
  {
    if ws == [] then b
    else
      var n := |ws| - 1;
      SetWord(SetWords(b, at, ws[..n]), at + n, ws[n])
  }

  predicate IsZero(b: Block) {
    forall i | 0 <= i < BSIZE :: b[i] == 0
  }

  lemma ZeroWords(b: Block, i: nat)
    requires IsZero(b) && i < NWORDS
    ensures Word(b, i) == 0
  {
  }
}
