/** Inodes and their records on disk: struct dinode in kernel/fs.h, sixteen to a
    block, and where they are. */
module Records {
  import opened Blocks

  const NDIRECT: nat := 12
  const IPB: nat := 16       // inode records per block
  const DWORDS: nat := 16    // words of a record

  /** The fields that are both in memory and on disk. */
  datatype Inode = Inode(kind: short, major: short, minor: short, nlink: short, size: nat, addrs: seq<nat>)

  /** The inodes differ in size and block pointers at most. */
  predicate SameInode(ip: Inode, ip1: Inode) {
    ip1 == ip.(size := ip1.size, addrs := ip1.addrs)
  }

  /** The fields fit in a record. */
  predicate Storable(ip: Inode) {
    && ip.size < 0x1_0000_0000
    && |ip.addrs| == NDIRECT + 1
    && forall k | 0 <= k <= NDIRECT :: ip.addrs[k] < 0x1_0000_0000
  }

  function Pair(lo: short, hi: short): (w: word) {
    lo as int + 0x1_0000 * hi as int
  }

  lemma PairParts(lo: short, hi: short)
    ensures Pair(lo, hi) % 0x1_0000 == lo && Pair(lo, hi) / 0x1_0000 == hi
  {
  }

  function InodeWords(ip: Inode): (ws: seq<word>)
    requires Storable(ip)
    ensures |ws| == DWORDS
  {
    [Pair(ip.kind, ip.major), Pair(ip.minor, ip.nlink), ip.size]
      + seq(NDIRECT + 1, k requires 0 <= k <= NDIRECT => ip.addrs[k])
  }

  function Words(b: Block, at: nat, n: nat): (ws: seq<nat>)
    requires at + n <= NWORDS
    ensures |ws| == n && forall i | 0 <= i < n :: ws[i] == Word(b, at + i)
  {
    if n == 0 then [] else Words(b, at, n - 1) + [Word(b, at + n - 1)]
  }

  /** Record `k` of the block. */
  function ReadInode(b: Block, k: nat): (ip: Inode)
    requires k < IPB
  {
    var at := DWORDS * k;
    var w0, w1 := Word(b, at), Word(b, at + 1);
    Inode(w0 % 0x1_0000, w0 / 0x1_0000, w1 % 0x1_0000, w1 / 0x1_0000, Word(b, at + 2),
          Words(b, at + 3, NDIRECT + 1))
  }

  /** iupdate's stores into record `k` of the buffer. */
  function PutInode(b: Block, k: nat, ip: Inode): (r: Block)
    requires k < IPB && Storable(ip)
  {
    SetWords(b, DWORDS * k, InodeWords(ip))
  }

  /** They put the inode in its record and change no other record. */
  lemma PutInodeReads(b: Block, k: nat, ip: Inode, j: nat)
    requires k < IPB && Storable(ip) && j < IPB
    ensures ReadInode(PutInode(b, k, ip), j) == if j == k then ip else ReadInode(b, j)
  {
    var r, ws := PutInode(b, k, ip), InodeWords(ip);
    forall i: nat | i < DWORDS ensures Word(r, DWORDS * j + i) == if j == k then ws[i] else Word(b, DWORDS * j + i) {
      assert j < k ==> DWORDS * j + i < DWORDS * k;
      assert k < j ==> DWORDS * k + DWORDS <= DWORDS * j + i;
    }
    var got := ReadInode(r, j);
    assert Word(r, DWORDS * j + 0) == if j == k then ws[0] else Word(b, DWORDS * j + 0);
    PairParts(ip.kind, ip.major);
    PairParts(ip.minor, ip.nlink);
    forall x: nat | x <= NDIRECT
      ensures got.addrs[x] == if j == k then ip.addrs[x] else ReadInode(b, j).addrs[x]
    {
      assert Word(r, DWORDS * j + (3 + x)) == if j == k then ws[3 + x] else Word(b, DWORDS * j + (3 + x));
    }
  }
}
