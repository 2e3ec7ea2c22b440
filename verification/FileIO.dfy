/** File contents (kernel/fs.c readi and writei, kernel/file.c filewrite): byte
    sequences spread over a file's blocks. */
module FileIO {
  import opened Blocks
  import opened Records
  import opened Fs
  import opened Inodes
  import Bitmap
  import LogFormat
  import opened Arithmetic

  // ---------- Contents ----------

  /** The byte at position `p` of a file with slots `s`. */
  ghost function Cell(disk: map<nat, Block>, s: Slots, p: nat): byte {
    if p / BSIZE < MAXFILE && s[DataSlot(p / BSIZE)] in disk then disk[s[DataSlot(p / BSIZE)]][p % BSIZE] else 0
  }

  ghost predicate CellIs(disk: map<nat, Block>, s: Slots, c: seq<byte>, p: nat) {
    p < |c| ==> HasBlock(s, p / BSIZE) && Cell(disk, s, p) == c[p]
  }

  /** The file's first |c| bytes exist and are `c`. */
  ghost predicate CellsAre(disk: map<nat, Block>, s: Slots, c: seq<byte>) {
    |c| <= MAXFILE * BSIZE && forall p {:trigger CellIs(disk, s, c, p)} :: CellIs(disk, s, c, p)
  }

  ghost function Content(disk: map<nat, Block>, s: Slots, size: nat): (c: seq<byte>)
    ensures |c| == size
  {
    seq(size, p requires 0 <= p < size => Cell(disk, s, p))
  }

  /** CellsAre says that the file has no holes and what its contents are. */
  lemma CellsAreContent(disk: map<nat, Block>, s: Slots, c: seq<byte>)
    ensures CellsAre(disk, s, c) <==> NoHoles(s, |c|) && Content(disk, s, |c|) == c
  {
    if CellsAre(disk, s, c) {
      forall bn: nat | bn * BSIZE < |c| ensures HasBlock(s, bn) { assert CellIs(disk, s, c, bn * BSIZE); }
      forall p: nat | p < |c| ensures Content(disk, s, |c|)[p] == c[p] { assert CellIs(disk, s, c, p); }
    } else if NoHoles(s, |c|) && Content(disk, s, |c|) == c {
      forall p: nat ensures CellIs(disk, s, c, p) {
        if p < |c| {
          assert HasBlock(s, p / BSIZE);
          assert Content(disk, s, |c|)[p] == Cell(disk, s, p);
        }
      }
    }
  }

  /** `c` with the bytes `data` at position `off`, extended if they go past its end. */
  function Overwrite(c: seq<byte>, off: nat, data: seq<byte>): (r: seq<byte>)
    requires off <= |c|
    ensures |r| == if off + |data| <= |c| then |c| else off + |data|
    ensures forall p | 0 <= p < |r| :: r[p] == if off <= p < off + |data| then data[p - off] else c[p]
  {
    c[..off] + data + if off + |data| <= |c| then c[off + |data|..] else []
  }

  lemma OverwriteTwice(c: seq<byte>, off: nat, data: seq<byte>, more: seq<byte>)
    requires off <= |c|
    ensures Overwrite(Overwrite(c, off, data), off + |data|, more) == Overwrite(c, off, data + more)
  {
  }

  /** A buffer with `data` stored at offset `o`. */
  function Splice(b: Block, o: nat, data: seq<byte>): (r: Block)
    requires o + |data| <= BSIZE
    ensures forall i | 0 <= i < BSIZE :: r[i] == if o <= i < o + |data| then data[i - o] else b[i]
  {
    b[..o] + data + b[o + |data|..]
  }

  /** bmap leaves every file's contents as they are. */
  lemma GrewKeepsCells(sb: Super, t: Store, u: Store, inum: nat, k: nat, i: nat, c: seq<byte>)
    requires TreeOk(sb, t) && Grew(t, u, inum, k) && i in t.slots && CellsAre(t.disk, t.slots[i], c)
    ensures i in u.slots && CellsAre(u.disk, u.slots[i], c)
  {
    assert SlotKept(t, u, inum, i, 0);
    forall p: nat ensures CellIs(u.disk, u.slots[i], c, p) {
      assert CellIs(t.disk, t.slots[i], c, p);
      if p < |c| {
        var x := DataSlot(p / BSIZE);
        var b := t.slots[i][x];
        assert SlotOk(t, i, x) && UsedOk(sb, t, b) && SlotKept(t, u, inum, i, x);
        assert BlockKept(t, u, inum, b) && DataKept(t, u, inum, b);
      }
    }
  }

  /** Files other than `inum` keep their contents. */
  lemma OthersKeepCells(sb: Super, t: Store, u: Store, inum: nat, i: nat, c: seq<byte>)
    requires TreeOk(sb, t) && FileOnly(t, u, inum) && i in t.slots && i != inum && CellsAre(t.disk, t.slots[i], c)
    ensures i in u.slots && CellsAre(u.disk, u.slots[i], c)
  {
    assert SlotKept(t, u, inum, i, 0);
    forall p: nat ensures CellIs(u.disk, u.slots[i], c, p) {
      assert CellIs(t.disk, t.slots[i], c, p);
      if p < |c| {
        var x := DataSlot(p / BSIZE);
        var b := t.slots[i][x];
        assert SlotOk(t, i, x) && UsedOk(sb, t, b) && SlotKept(t, u, inum, i, x) && BlockKept(t, u, inum, b);
      }
    }
  }

  /** Storing `data` in the block of position `pos` overwrites the contents there:
      distinct blocks of a file are distinct disk blocks. */
  lemma SpliceOverwrites(sb: Super, t: Store, inum: nat, c: seq<byte>, pos: nat, data: seq<byte>, b: nat)
    requires TreeOk(sb, t) && inum in t.slots && CellsAre(t.disk, t.slots[inum], c)
    requires pos <= |c| && HasBlock(t.slots[inum], pos / BSIZE) && pos % BSIZE + |data| <= BSIZE
    requires b == t.slots[inum][DataSlot(pos / BSIZE)] && b in t.disk
    ensures CellsAre(t.disk[b := Splice(t.disk[b], pos % BSIZE, data)], t.slots[inum], Overwrite(c, pos, data))
  {
    var s := t.slots[inum];
    var bn := pos / BSIZE;
    var disk1 := t.disk[b := Splice(t.disk[b], pos % BSIZE, data)];
    var c1 := Overwrite(c, pos, data);
    assert SlotOk(t, inum, DataSlot(bn));
    forall p: nat ensures CellIs(disk1, s, c1, p) {
      assert CellIs(t.disk, s, c, p) && SlotOk(t, inum, DataSlot(p / BSIZE));
    }
  }

  /** Metadata blocks hold no contents. */
  lemma MetaKeepsCells(sb: Super, t: Store, inum: nat, c: seq<byte>, b: nat, blk: Block)
    requires TreeOk(sb, t) && inum in t.slots && CellsAre(t.disk, t.slots[inum], c) && b < sb.datastart
    ensures CellsAre(t.disk[b := blk], t.slots[inum], c)
  {
    var disk1 := t.disk[b := blk];
    forall p: nat ensures CellIs(disk1, t.slots[inum], c, p) {
      assert CellIs(t.disk, t.slots[inum], c, p);
      if p < |c| {
        OwnedSlot(sb, t, inum, DataSlot(p / BSIZE));
      }
    }
  }

  // ---------- Contents on disk ----------

  ghost predicate SettledAt(t: Store, loose: map<nat, Block>, inum: nat, x: nat) {
    x in loose && x in t.owner ==> t.owner[x].inum != inum
  }

  /** No block of the file has changes that were not log_written. */
  ghost predicate Settled(t: Store, loose: map<nat, Block>, inum: nat) {
    forall x {:trigger SettledAt(t, loose, inum, x)} :: SettledAt(t, loose, inum, x)
  }

  /** Then disk and log have the same contents. */
  lemma SettledCells(sb: Super, t: Store, loose: map<nat, Block>, inum: nat, c: seq<byte>)
    requires TreeOk(sb, t) && inum in t.slots && Settled(t, loose, inum) && CellsAre(t.disk, t.slots[inum], c)
    ensures CellsAre(Durable(t, loose).disk, t.slots[inum], c)
  {
    var d := Durable(t, loose).disk;
    forall p: nat ensures CellIs(d, t.slots[inum], c, p) {
      assert CellIs(t.disk, t.slots[inum], c, p);
      if p < |c| {
        OwnedSlot(sb, t, inum, DataSlot(p / BSIZE));
        assert SettledAt(t, loose, inum, t.slots[inum][DataSlot(p / BSIZE)]);
      }
    }
  }

  lemma SettledGrew(t: Store, u: Store, inum: nat, k: nat, loose: map<nat, Block>, loose1: map<nat, Block>)
    requires Grew(t, u, inum, k) && LooseKept(t.owner, u.owner, loose, loose1) && Settled(t, loose, inum)
    ensures Settled(u, loose1, inum)
  {
    forall x: nat ensures SettledAt(u, loose1, inum, x) {
      assert SettledAt(t, loose, inum, x) && LooseSame(t.owner, u.owner, loose, loose1, x) && BlockKept(t, u, inum, x);
    }
  }

  /** A copy that fails changes the contents on disk and in the log neither if the block
      was there and is not in the open commit group, nor if it was not there. */
  lemma FailedCopySaved(sb: Super, t: Store, loose: map<nat, Block>, u: Store, loose1: map<nat, Block>,
                        d: map<nat, Block>,
                        inum: nat, c: seq<byte>, bn: nat)
    requires TreeOk(sb, t) && LooseOk(sb, loose, t.owner) && TreeOk(sb, u) && bn < MAXFILE
    requires Grew(t, u, inum, DataSlot(bn)) && LooseKept(t.owner, u.owner, loose, loose1) && Settled(t, loose, inum)
    requires inum in t.slots && inum in u.slots && CellsAre(t.disk, t.slots[inum], c)
    requires forall x | x in u.disk + loose1 && x != u.slots[inum][DataSlot(bn)] ::
      x in d && d[x] == (u.disk + loose1)[x]
    requires t.slots[inum][DataSlot(bn)] != 0 ==> d == u.disk + loose1
    ensures CellsAre(d, u.slots[inum], c)
  {
    var t1, u1 := Durable(t, loose), Durable(u, loose1);
    SettledCells(sb, t, loose, inum, c);
    DurableTree(sb, t, loose);
    DurableGrew(t, u, loose, loose1, inum, DataSlot(bn));
    GrewKeepsCells(sb, t1, u1, inum, DataSlot(bn), inum, c);
    var s := u.slots[inum];
    forall p: nat ensures CellIs(d, s, c, p) {
      assert CellIs(u1.disk, s, c, p) && CellIs(t.disk, t.slots[inum], c, p);
      if p < |c| && p / BSIZE != bn {
        OwnedSlot(sb, u, inum, DataSlot(p / BSIZE));
        assert SlotOk(u, inum, DataSlot(bn));
      }
    }
  }

  // ---------- Blocks logged by a write ----------

  /** The file has a block for position `pos`, and it is in `group`. */
  ghost predicate Grouped(s: Slots, group: set<nat>, pos: nat) {
    pos / BSIZE < MAXFILE && s[DataSlot(pos / BSIZE)] != 0 && s[DataSlot(pos / BSIZE)] in group
  }

  ghost predicate AheadAt(s: Slots, group: set<nat>, s1: Slots, group1: set<nat>, n: nat) {
    n < MAXFILE ==>
      && s1[DataSlot(n)] == s[DataSlot(n)]
      && (s1[DataSlot(n)] != 0 && s1[DataSlot(n)] in group1 ==> s1[DataSlot(n)] in group)
  }

  /** From block `bn` on the file has the blocks it had, and no more of them are in the
      open commit group. */
  ghost predicate Ahead(s: Slots, group: set<nat>, s1: Slots, group1: set<nat>, bn: nat) {
    group <= group1 && forall n {:trigger AheadAt(s, group, s1, group1, n)} ::
      bn <= n ==> AheadAt(s, group, s1, group1, n)
  }

  lemma AheadGrouped(s: Slots, group: set<nat>, s1: Slots, group1: set<nat>, bn: nat, pos: nat)
    requires Ahead(s, group, s1, group1, bn) && bn <= pos / BSIZE
    ensures Grouped(s1, group1, pos) <==> Grouped(s, group, pos)
    ensures pos / BSIZE < MAXFILE ==> s1[DataSlot(pos / BSIZE)] == s[DataSlot(pos / BSIZE)]
  {
    assert AheadAt(s, group, s1, group1, pos / BSIZE);
  }

  /** A turn that logs block `bn` and the indirect block. */
  lemma AheadNext(sb: Super, s: Slots, held: set<nat>, l0: set<nat>, t: Store, l: set<nat>, u: Store, m: set<nat>,
                  inum: nat, bn: nat, bn1: nat)
    requires sb.Ok() && TreeOk(sb, u) && inum in t.slots && inum in u.slots && bn < bn1 && bn < MAXFILE && l <= m
    requires Ahead(s, held + l0, t.slots[inum], held + l, bn) && SlotsFixed(t, u, inum, DataSlot(bn))
    requires Logs(sb, l, m, {u.slots[inum][NDIRECT], u.slots[inum][DataSlot(bn)]})
    ensures Ahead(s, held + l0, u.slots[inum], held + m, bn1)
  {
    var s1 := u.slots[inum];
    forall n: nat | bn1 <= n ensures AheadAt(s, held + l0, s1, held + m, n) {
      assert AheadAt(s, held + l0, t.slots[inum], held + l, n);
      if n < MAXFILE {
        var x := s1[DataSlot(n)];
        assert SlotFixed(t, u, inum, DataSlot(bn), DataSlot(n));
        if x != 0 {
          OwnedSlot(sb, u, inum, DataSlot(n));
          assert SlotOk(u, inum, NDIRECT) && SlotOk(u, inum, DataSlot(bn)) && SlotOk(u, inum, DataSlot(n));
          assert LogOk(sb, l, m, {s1[NDIRECT], s1[DataSlot(bn)]}, x);
        }
      }
    }
  }

  /** The blocks that hold a file's contents from block `lo` up to block `hi`. */
  ghost function BlocksOf(s: Slots, lo: nat, hi: nat): set<nat>
    decreases hi - lo
  {
    if lo < hi && hi <= MAXFILE then {s[DataSlot(lo)]} + BlocksOf(s, lo + 1, hi) else {}
  }

  lemma {:induction false} BlocksOfSize(s: Slots, lo: nat, hi: nat)
    requires lo <= hi <= MAXFILE
    ensures |BlocksOf(s, lo, hi)| <= hi - lo
    decreases hi - lo
  {
    if lo < hi {
      BlocksOfSize(s, lo + 1, hi);
    }
  }

  lemma {:induction false} InBlocksOf(s: Slots, lo: nat, hi: nat, bn: nat)
    requires lo <= bn < hi <= MAXFILE
    ensures s[DataSlot(bn)] in BlocksOf(s, lo, hi)
    decreases hi - lo
  {
    if lo < bn {
      InBlocksOf(s, lo + 1, hi, bn);
    }
  }

  lemma {:induction false} BlocksOfGrows(t: Store, u: Store, inum: nat, lo: nat, hi: nat, m: nat)
    requires hi <= MAXFILE && inum in t.slots && inum in u.slots && FileOnly(t, u, inum)
    requires m != 0 && m in BlocksOf(t.slots[inum], lo, hi)
    ensures m in BlocksOf(u.slots[inum], lo, hi)
    decreases hi - lo
  {
    if m != t.slots[inum][DataSlot(lo)] {
      BlocksOfGrows(t, u, inum, lo + 1, hi, m);
    } else {
      assert SlotKept(t, u, inum, inum, DataSlot(lo));
    }
  }

  /** The blocks a write to blocks lo..hi of a file may log, besides the bitmap and
      the inode: its indirect block and these blocks. */
  ghost function Touched(s: Slots, lo: nat, hi: nat): set<nat> {
    {s[NDIRECT]} + BlocksOf(s, lo, hi)
  }

  lemma TouchedMore(sb: Super, before: set<nat>, mid: set<nat>, after: set<nat>, t: Store, u: Store, inum: nat, lo: nat,
                    hi: nat, bn: nat)
    requires lo <= bn < hi <= MAXFILE && inum in t.slots && inum in u.slots && FileOnly(t, u, inum)
    requires Logs(sb, before, mid, Touched(t.slots[inum], lo, hi))
    requires Logs(sb, mid, after, {u.slots[inum][NDIRECT], u.slots[inum][DataSlot(bn)]})
    ensures Logs(sb, before, after, Touched(u.slots[inum], lo, hi))
  {
    var s, s1 := t.slots[inum], u.slots[inum];
    InBlocksOf(s1, lo, hi, bn);
    forall m | m != 0 && (m in Touched(s, lo, hi) || m in {s1[NDIRECT], s1[DataSlot(bn)]})
      ensures m in Touched(s1, lo, hi)
    {
      assert SlotKept(t, u, inum, inum, NDIRECT);
      if m in BlocksOf(s, lo, hi) {
        BlocksOfGrows(t, u, inum, lo, hi, m);
      }
    }
    LogsTwice(sb, before, mid, after, Touched(s, lo, hi), {s1[NDIRECT], s1[DataSlot(bn)]}, Touched(s1, lo, hi));
  }

  /** The block after the last one that bytes off..off+n touch. */
  function EndBlock(off: nat, n: nat): nat {
    if n == 0 then off / BSIZE else (off + n - 1) / BSIZE + 1
  }

  // ---------- writei ----------

  /** How many bytes of a request fit in the block of position `pos`. */
  function Chunk(pos: nat, want: nat): nat {
    if want < BSIZE - pos % BSIZE then want else BSIZE - pos % BSIZE
  }

  /** Copy `data` into the buffer of the block of position `pos`. */
  method PutBytes(fs: FileSystem, inum: nat, pos: nat, addr: nat, data: seq<byte>, complete: bool, ghost c: seq<byte>)
    requires fs.Valid() && inum in fs.inodes && CellsAre(fs.disk, fs.slots[inum], c)
    requires pos <= |c| && pos / BSIZE < MAXFILE && pos % BSIZE + |data| <= BSIZE
    requires addr == fs.slots[inum][DataSlot(pos / BSIZE)] != 0
    modifies fs`disk, fs`logged, fs`loose
    ensures fs.Valid() && CellsAre(fs.disk, fs.slots[inum], Overwrite(c, pos, data))
      && FileOnly(old(fs.S()), fs.S(), inum)
    ensures FileOnly(old(fs.Saved()), fs.Saved(), inum) && Logs(fs.sb, old(fs.logged), fs.logged, {addr})
    ensures complete ==> fs.loose == old(fs.loose) - {addr} && addr in fs.logged
    ensures !complete && addr in fs.held + old(fs.logged) ==> fs.loose == old(fs.loose)
    ensures !complete && addr !in fs.held + old(fs.logged) ==> fs.Saved().disk == old(fs.Saved()).disk
    ensures fs.Saved().disk - {addr} == old(fs.Saved()).disk - {addr}
    ensures Journaled(old(fs.Saved()).disk, old(fs.logged), fs.Saved().disk, fs.logged)
  {
    assert SlotOk(fs.S(), inum, DataSlot(pos / BSIZE)) && UsedOk(fs.sb, fs.S(), addr);
    SpliceOverwrites(fs.sb, fs.S(), inum, c, pos, data, addr);
    fs.StoreData(inum, pos / BSIZE, addr, Splice(fs.disk[addr], pos % BSIZE, data), complete);
  }

  /** Disk and log have the contents `c`. */
  ghost predicate SavedAs(t: Store, loose: map<nat, Block>, inum: nat, c: seq<byte>) {
    inum in t.slots && CellsAre(Durable(t, loose).disk, t.slots[inum], c)
  }

  /** From `t` bmap has led to `u` and the copy to disk `d`: what disk and log have then.
      They get the `whole` copy if it is log_written or the block is in the group. */
  lemma BlockSaved(sb: Super, t: Store, loose: map<nat, Block>, u: Store, loose1: map<nat, Block>, d: map<nat, Block>,
                   loose2: map<nat, Block>,
                   inum: nat, c: seq<byte>, bn: nat, whole: bool, c1: seq<byte>)
    requires TreeOk(sb, t) && LooseOk(sb, loose, t.owner) && TreeOk(sb, u) && TreeOk(sb, u.(disk := d)) && bn < MAXFILE
    requires Grew(t, u, inum, DataSlot(bn)) && LooseKept(t.owner, u.owner, loose, loose1) && Settled(t, loose, inum)
    requires inum in t.slots && inum in u.slots && CellsAre(t.disk, t.slots[inum], c)
    requires whole ==> loose2.Keys <= loose1.Keys && CellsAre(d, u.slots[inum], c1)
    requires !whole ==> c1 == c
    requires (u.disk + loose1) - {u.slots[inum][DataSlot(bn)]} == (d + loose2) - {u.slots[inum][DataSlot(bn)]}
    requires !whole && t.slots[inum][DataSlot(bn)] != 0 ==> d + loose2 == u.disk + loose1
    ensures SavedAs(u.(disk := d), loose2, inum, c1)
    ensures whole ==> Settled(u.(disk := d), loose2, inum)
  {
    var v := u.(disk := d);
    if whole {
      SettledGrew(t, u, inum, DataSlot(bn), loose, loose1);
      forall x: nat ensures SettledAt(v, loose2, inum, x) { assert SettledAt(u, loose1, inum, x); }
      SettledCells(sb, v, loose2, inum, c1);
    } else {
      var b := u.slots[inum][DataSlot(bn)];
      forall x | x in u.disk + loose1 && x != b ensures x in d + loose2 && (d + loose2)[x] == (u.disk + loose1)[x] {
        assert x in (u.disk + loose1) - {b};
      }
      FailedCopySaved(sb, t, loose, u, loose1, d + loose2, inum, c, bn);
    }
  }

  /** One turn of writei's loop: `m` bytes go into the block of position `pos`, or
      none if there is no block or the source cannot be read; a failing copy has
      stored the `q` bytes that could be read, in the buffer only unless its block is
      in the open commit group. */
  method WriteBlock(fs: FileSystem, inum: nat, pos: nat, want: nat, src: seq<byte>, ghost c: seq<byte>)
    returns (m: nat, ghost q: nat)
    requires fs.Valid() && inum in fs.inodes && inum in fs.slots && CellsAre(fs.disk, fs.slots[inum], c)
    requires pos <= |c| && pos / BSIZE < MAXFILE && 0 < want
    modifies fs`disk, fs`used, fs`logged, fs`loose, fs`inodes, fs`slots, fs`owner
    ensures fs.Valid() && SameBut(old(fs.inodes), fs.inodes, inum) && inum in fs.slots
    ensures FileOnly(old(fs.S()), fs.S(), inum) && FileOnly(old(fs.Saved()), fs.Saved(), inum)
    ensures SlotsFixed(old(fs.S()), fs.S(), inum, DataSlot(pos / BSIZE))
    ensures m != 0 ==> m == Chunk(pos, want) <= |src| && q == 0
    ensures 0 < m < want ==> (pos + m) % BSIZE == 0
    ensures m != 0 ==> Grouped(fs.slots[inum], fs.logged, pos)
    ensures m == 0 ==>
      || q == |src| < Chunk(pos, want)
      || (q == 0 && fs.Exhausted() && old(fs.slots)[inum][DataSlot(pos / BSIZE)] == 0)
    ensures q + m <= |src| && CellsAre(fs.disk, fs.slots[inum], Overwrite(c, pos, src[..m + q]))
    ensures Logs(fs.sb, old(fs.logged), fs.logged, {fs.slots[inum][NDIRECT], fs.slots[inum][DataSlot(pos / BSIZE)]})
    ensures Journaled(old(fs.Saved()).disk, old(fs.logged), fs.Saved().disk, fs.logged)
    ensures old(Settled(fs.S(), fs.loose, inum)) ==>
      && SavedAs(fs.S(), fs.loose, inum,
        Overwrite(c, pos, src[..m + Left(old(fs.slots[inum]), fs.held + old(fs.logged), pos, q)]))
      && (m != 0 ==> Settled(fs.S(), fs.loose, inum))
  {
    hide MapOk, Journaled, FileOnly, LooseOk, LooseKept, CellsAre, Settled, SavedAs, Grew, SlotsFixed, TreeOk, Logs,
      Overwrite, FileSystem.Exhausted, SameBut;
    m, q := 0, 0;
    assert Overwrite(c, pos, src[..0]) == c;
    var bn := pos / BSIZE;
    ghost var t0, loose0, l0 := fs.S(), fs.loose, fs.logged;
    var addr := fs.BMap(inum, bn);
    ghost var t1, loose1, l1 := fs.S(), fs.loose, fs.logged;
    AfterBMap(fs.sb, t0, loose0, t1, loose1, inum, bn, c);
    if addr == 0 {
      return;
    }
    m := Chunk(pos, want);
    var copied := m;
    if |src| < m {
      m, copied, q := 0, |src|, |src|;
    }
    PutBytes(fs, inum, pos, addr, src[..copied], m != 0, c);
    assert fs.S() == t1.(disk := fs.disk);
    BlockDone(fs.sb, t0, loose0, l0, t1, loose1, l1, fs.S(), fs.loose, fs.logged, inum, DataSlot(bn), addr);
    if Settled(t0, loose0, inum) {
      ghost var left := Left(t0.slots[inum], fs.held + l0, pos, q);
      BlockSaved(fs.sb, t0, loose0, t1, loose1, fs.disk, fs.loose, inum, c, bn,
        m != 0 || Grouped(t0.slots[inum], fs.held + l0, pos), Overwrite(c, pos, src[..m + left]));
    }
  }

  /** From `t` bmap has led to `u` and the store into block `addr` to `v`. */
  lemma BlockDone(sb: Super, t: Store, loose: map<nat, Block>, l: set<nat>, u: Store, loose1: map<nat, Block>,
                  l1: set<nat>, v: Store, loose2: map<nat, Block>, l2: set<nat>, inum: nat, k: nat, addr: nat)
    requires v == u.(disk := v.disk) && inum in u.slots && SlotsFixed(t, u, inum, k)
    requires FileOnly(t, u, inum) && FileOnly(Durable(t, loose), Durable(u, loose1), inum)
    requires FileOnly(u, v, inum) && FileOnly(Durable(u, loose1), Durable(v, loose2), inum)
    requires Journaled(Durable(t, loose).disk, l, Durable(u, loose1).disk, l1)
    requires Journaled(Durable(u, loose1).disk, l1, Durable(v, loose2).disk, l2)
    requires Logs(sb, l, l1, {u.slots[inum][NDIRECT], addr}) && Logs(sb, l1, l2, {addr})
    ensures FileOnly(t, v, inum) && FileOnly(Durable(t, loose), Durable(v, loose2), inum) && SlotsFixed(t, v, inum, k)
    ensures Journaled(Durable(t, loose).disk, l, Durable(v, loose2).disk, l2)
    ensures Logs(sb, l, l2, {v.slots[inum][NDIRECT], addr})
  {
    hide FileOnly, Journaled, Logs, SlotsFixed;
    FileOnlyTwice(t, u, v, inum);
    FileOnlyTwice(Durable(t, loose), Durable(u, loose1), Durable(v, loose2), inum);
    JournaledTwice(Durable(t, loose).disk, l, Durable(u, loose1).disk, l1, Durable(v, loose2).disk, l2);
    var touched := {u.slots[inum][NDIRECT], addr};
    LogsTwice(sb, l, l1, l2, touched, {addr}, touched);
    SlotsFixedFrame(t, u, v, inum, k);
  }

  /** How many of `q` stored bytes that are not counted go to disk with the group. */
  ghost function Left(s: Slots, group: set<nat>, pos: nat, q: nat): nat {
    if Grouped(s, group, pos) then q else 0
  }

  ghost predicate SlotsFixed(t: Store, u: Store, inum: nat, k: nat) {
    forall x {:trigger SlotFixed(t, u, inum, k, x)} :: SlotFixed(t, u, inum, k, x)
  }

  lemma SlotsFixedFrame(t: Store, u: Store, v: Store, inum: nat, k: nat)
    requires SlotsFixed(t, u, inum, k) && v.slots == u.slots
    ensures SlotsFixed(t, v, inum, k)
  {
    forall x: nat ensures SlotFixed(t, v, inum, k, x) { assert SlotFixed(t, u, inum, k, x); }
  }

  /** What bmap leaves as it is. */
  lemma AfterBMap(sb: Super, t: Store, loose: map<nat, Block>, u: Store, loose1: map<nat, Block>, inum: nat, bn: nat,
                  c: seq<byte>)
    requires TreeOk(sb, t) && LooseOk(sb, loose, t.owner) && TreeOk(sb, u) && bn < MAXFILE
    requires Grew(t, u, inum, DataSlot(bn)) && LooseKept(t.owner, u.owner, loose, loose1)
    requires inum in t.slots && CellsAre(t.disk, t.slots[inum], c)
    ensures inum in u.slots && CellsAre(u.disk, u.slots[inum], c) && SlotsFixed(t, u, inum, DataSlot(bn))
    ensures FileOnly(t, u, inum) && FileOnly(Durable(t, loose), Durable(u, loose1), inum)
    ensures Settled(t, loose, inum) ==> SavedAs(u, loose1, inum, c)
  {
    GrewKeepsCells(sb, t, u, inum, DataSlot(bn), inum, c);
    DurableGrew(t, u, loose, loose1, inum, DataSlot(bn));
    if Settled(t, loose, inum) {
      SettledGrew(t, u, inum, DataSlot(bn), loose, loose1);
      SettledCells(sb, u, loose1, inum, c);
    }
  }

  /** From `t` to `u` the contents `c` of the file were overwritten at `off` with
      `data`, and no other file was touched; `n` bounds the blocks logged. */
  ghost predicate Wrote(sb: Super, t: Store, l: set<nat>, u: Store, m: set<nat>, inum: nat, c: seq<byte>, off: nat,
                        n: nat, data: seq<byte>) {
    && inum in t.slots && inum in u.slots && off <= |c|
    && CellsAre(u.disk, u.slots[inum], Overwrite(c, off, data))
    && FileOnly(t, u, inum)
    && Logs(sb, l, m, Touched(u.slots[inum], off / BSIZE, EndBlock(off, n)))
  }

  /** Nothing is written yet. */
  lemma WroteNothing(fs: FileSystem, inum: nat, c: seq<byte>, off: nat, n: nat, none: seq<byte>)
    requires fs.Valid() && inum in fs.inodes && off <= |c| && none == []
    requires inum in fs.slots && CellsAre(fs.disk, fs.slots[inum], c)
    ensures Wrote(fs.sb, fs.S(), fs.logged, fs.S(), fs.logged, inum, c, off, n, none)
    ensures Journaled(fs.Saved().disk, fs.logged, fs.Saved().disk, fs.logged) && FileOnly(fs.Saved(), fs.Saved(), inum)
  {
    assert Overwrite(c, off, none) == c;
    GrewNot(fs.S(), inum, 0);
    GrewNot(fs.Saved(), inum, 0);
  }

  lemma WroteMore(sb: Super, t: Store, l: set<nat>, u: Store, m: set<nat>, v: Store, o: set<nat>, inum: nat,
                  c: seq<byte>,
                  off: nat, n: nat, src: seq<byte>, tot: nat, pos: nat, k: nat)
    requires tot + k <= |src| && tot < n && off + n <= MAXFILE * BSIZE && inum in v.slots && pos == off + tot
    requires Wrote(sb, t, l, u, m, inum, c, off, n, src[..tot])
    requires CellsAre(v.disk, v.slots[inum], Overwrite(Overwrite(c, off, src[..tot]), pos, src[tot..][..k]))
    requires FileOnly(u, v, inum)
    requires Logs(sb, m, o, {v.slots[inum][NDIRECT], v.slots[inum][DataSlot(pos / BSIZE)]})
    ensures Wrote(sb, t, l, v, o, inum, c, off, n, src[..tot + k])
  {
    OverwriteMore(c, off, src, tot, k);
    FileOnlyTwice(t, u, v, inum);
    TouchedMore(sb, l, m, o, u, v, inum, off / BSIZE, EndBlock(off, n), pos / BSIZE);
  }

  lemma OverwriteMore(c: seq<byte>, off: nat, src: seq<byte>, tot: nat, k: nat)
    requires tot + k <= |src| && off <= |c|
    ensures Overwrite(Overwrite(c, off, src[..tot]), off + tot, src[tot..][..k]) == Overwrite(c, off, src[..tot + k])
  {
    OverwriteTwice(c, off, src[..tot], src[tot..][..k]);
    assert src[..tot] + src[tot..][..k] == src[..tot + k];
  }

  /** The state in which writei's loop begins. */
  datatype Start = Start(t: Store, loose: map<nat, Block>, held: set<nat>, logged: set<nat>)

  /** writei's loop so far: `tot` bytes are written, and `q` more are in the buffer of
      the block where it stopped.  If there is `more` to do, the blocks ahead are as
      they were.  If disk and log had all of the file, they have those bytes that are
      written, and those stored in a block of the open commit group. */
  ghost predicate Turned(sb: Super, w: Start, t: Store, loose: map<nat, Block>, logged: set<nat>, inum: nat,
                         c: seq<byte>, off: nat, n: nat, src: seq<byte>, tot: nat, q: nat, more: bool) {
    && inum in w.t.slots && inum in t.slots && tot + q <= |src| && (more ==> q == 0)
    && Wrote(sb, w.t, w.logged, t, logged, inum, c, off, n, src[..tot + q])
    && Ahead(w.t.slots[inum], w.held + w.logged, t.slots[inum], w.held + logged, EndBlock(off, if more then tot else n))
    && (more && 0 < tot ==> Grouped(t.slots[inum], logged, off + tot - 1))
    && FileOnly(Durable(w.t, w.loose), Durable(t, loose), inum)
    && Journaled(Durable(w.t, w.loose).disk, w.logged, Durable(t, loose).disk, logged)
    && (Settled(w.t, w.loose, inum) ==>
         && SavedAs(t, loose, inum,
              Overwrite(c, off, src[..tot + Left(w.t.slots[inum], w.held + w.logged, off + tot, q)]))
         && (more ==> Settled(t, loose, inum)))
  }

  /** Why writei stopped at position `pos` with `want` bytes to go: it could read only
      `have` more, which the failing copy stored, or the file has no block there and
      none is free. */
  ghost predicate Stopped(full: bool, s: Slots, pos: nat, want: int, have: int, q: nat) {
    || (0 <= want && q == have < Chunk(pos, want))
    || (q == 0 && full && pos / BSIZE < MAXFILE && s[DataSlot(pos / BSIZE)] == 0)
  }

  /** writei's loop.  It stops early only when the disk is full or the source cannot be
      read. */
  method WriteLoop(fs: FileSystem, inum: nat, off: nat, n: nat, src: seq<byte>, ghost c: seq<byte>)
    returns (tot: nat, ghost q: nat)
    requires fs.Valid() && inum in fs.inodes && inum in fs.slots && CellsAre(fs.disk, fs.slots[inum], c)
    requires off <= |c| && off + n <= MAXFILE * BSIZE
    modifies fs`disk, fs`used, fs`logged, fs`loose, fs`inodes, fs`slots, fs`owner
    ensures fs.Valid() && SameBut(old(fs.inodes), fs.inodes, inum)
    ensures tot <= n && (0 < tot < n ==> (off + tot) % BSIZE == 0)
    ensures tot < n ==> Stopped(fs.Exhausted(), old(fs.slots[inum]), off + tot, n - tot, |src| - tot, q)
    ensures Turned(fs.sb, Start(old(fs.S()), old(fs.loose), fs.held, old(fs.logged)), fs.S(), fs.loose, fs.logged, inum,
      c, off, n, src, tot, q, tot == n)
  {
    hide Turned, CellsAre, FileSystem.Valid, FileSystem.Exhausted, Stopped;
    tot, q := 0, 0;
    ghost var w := Start(fs.S(), fs.loose, fs.held, fs.logged);
    NotTurned(fs, w, inum, c, off, n, src);
    var more := true;
    while more && tot < n
      invariant fs.Valid() && SameBut(old(fs.inodes), fs.inodes, inum)
      invariant tot <= n && (0 < tot < n ==> (off + tot) % BSIZE == 0)
      invariant more ==> q == 0
      invariant !more ==> tot < n && Stopped(fs.Exhausted(), w.t.slots[inum], off + tot, n - tot, |src| - tot, q)
      invariant Turned(fs.sb, w, fs.S(), fs.loose, fs.logged, inum, c, off, n, src, tot, q, more)
      decreases more, n - tot
    {
      var m;
      m, q := WriteTurn(fs, w, inum, off, n, src, c, tot);
      tot := tot + m;
      more := m != 0;
    }
  }

  lemma NotTurned(fs: FileSystem, w: Start, inum: nat, c: seq<byte>, off: nat, n: nat, src: seq<byte>)
    requires fs.Valid() && inum in fs.inodes && off <= |c| && w == Start(fs.S(), fs.loose, fs.held, fs.logged)
    requires inum in fs.slots && CellsAre(fs.disk, fs.slots[inum], c)
    ensures Turned(fs.sb, w, fs.S(), fs.loose, fs.logged, inum, c, off, n, src, 0, 0, true)
  {
    hide MapOk, TreeOk, LooseOk, Journaled, Logs, FileOnly, CellsAre, Settled;
    WroteNothing(fs, inum, c, off, n, src[..0]);
    assert Overwrite(c, off, src[..0]) == c;
    if Settled(fs.S(), fs.loose, inum) {
      SettledCells(fs.sb, fs.S(), fs.loose, inum, c);
    }
  }

  /** One turn of the loop, `tot` bytes after its start. */
  method WriteTurn(fs: FileSystem, ghost w: Start, inum: nat, off: nat, n: nat, src: seq<byte>, ghost c: seq<byte>,
                   tot: nat)
    returns (m: nat, ghost q: nat)
    requires fs.Valid() && inum in fs.inodes && off <= |c| && off + n <= MAXFILE * BSIZE && tot < n
    requires Turned(fs.sb, w, fs.S(), fs.loose, fs.logged, inum, c, off, n, src, tot, 0, true) && w.held == fs.held
    requires 0 < tot ==> (off + tot) % BSIZE == 0
    modifies fs`disk, fs`used, fs`logged, fs`loose, fs`inodes, fs`slots, fs`owner
    ensures fs.Valid() && SameBut(old(fs.inodes), fs.inodes, inum)
    ensures tot + m <= n && (0 < m && tot + m < n ==> (off + tot + m) % BSIZE == 0)
    ensures inum in w.t.slots && (m != 0 ==> q == 0)
    ensures m == 0 ==> Stopped(fs.Exhausted(), w.t.slots[inum], off + tot, n - tot, |src| - tot, q)
    ensures Turned(fs.sb, w, fs.S(), fs.loose, fs.logged, inum, c, off, n, src, tot + m, q, m != 0)
  {
    hide Turned, CellsAre, TreeOk, MapOk, LooseOk, FileSystem.Exhausted, Journaled, Logs, FileOnly, Settled, SavedAs,
      SlotsFixed, Overwrite, Grouped, Left;
    ghost var t, loose, l := fs.S(), fs.loose, fs.logged;
    TurnedFacts(fs.sb, w, t, loose, l, inum, c, off, n, src, tot);
    MapFacts(fs.sb, fs.disk, fs.used, fs.dinodes, fs.loose);
    var pos := off + tot;
    ghost var c1 := Overwrite(c, off, src[..tot]);
    m, q := WriteBlock(fs, inum, pos, n - tot, src[tot..], c1);
    TurnedMore(fs.sb, w, t, loose, l, fs.S(), fs.loose, fs.logged, inum, c, off, n, src, tot, m, q);
  }

  lemma TurnedFacts(sb: Super, w: Start, t: Store, loose: map<nat, Block>, l: set<nat>, inum: nat, c: seq<byte>,
                    off: nat, n: nat, src: seq<byte>, tot: nat)
    requires Turned(sb, w, t, loose, l, inum, c, off, n, src, tot, 0, true)
    requires 0 < tot ==> (off + tot) % BSIZE == 0
    ensures inum in w.t.slots && inum in t.slots && tot <= |src| && off <= |c|
    ensures CellsAre(t.disk, t.slots[inum], Overwrite(c, off, src[..tot]))
    ensures EndBlock(off, tot) == (off + tot) / BSIZE
    ensures (off + tot) / BSIZE < MAXFILE ==>
      t.slots[inum][DataSlot((off + tot) / BSIZE)] == w.t.slots[inum][DataSlot((off + tot) / BSIZE)]
  {
    hide CellsAre, Overwrite, Journaled, Logs, FileOnly, Settled, SavedAs;
    AheadGrouped(w.t.slots[inum], w.held + w.logged, t.slots[inum], w.held + l, EndBlock(off, tot), off + tot);
  }

  /** The loop after a turn that has led from `t` to `u`. */
  lemma TurnedMore(sb: Super, w: Start, t: Store, loose: map<nat, Block>, l: set<nat>, u: Store,
                   loose1: map<nat, Block>, l1: set<nat>, inum: nat, c: seq<byte>, off: nat, n: nat, src: seq<byte>,
                   tot: nat, m: nat, q: nat)
    requires sb.Ok() && TreeOk(sb, u) && off + n <= MAXFILE * BSIZE && tot < n && tot + m <= n && (m != 0 ==> q == 0)
    requires Turned(sb, w, t, loose, l, inum, c, off, n, src, tot, 0, true) && tot + m + q <= |src|
    requires 0 < tot ==> (off + tot) % BSIZE == 0
    requires (off + tot) % BSIZE + m <= BSIZE && inum in u.slots && off <= |c|
    requires FileOnly(t, u, inum) && FileOnly(Durable(t, loose), Durable(u, loose1), inum)
    requires SlotsFixed(t, u, inum, DataSlot((off + tot) / BSIZE))
    requires m != 0 ==> Grouped(u.slots[inum], l1, off + tot)
    requires CellsAre(u.disk, u.slots[inum], Overwrite(Overwrite(c, off, src[..tot]), off + tot, src[tot..][..m + q]))
    requires Logs(sb, l, l1, {u.slots[inum][NDIRECT], u.slots[inum][DataSlot((off + tot) / BSIZE)]})
    requires Journaled(Durable(t, loose).disk, l, Durable(u, loose1).disk, l1)
    requires Settled(t, loose, inum) ==>
      && SavedAs(u, loose1, inum, Overwrite(Overwrite(c, off, src[..tot]), off + tot,
           src[tot..][..m + Left(t.slots[inum], w.held + l, off + tot, q)]))
      && (m != 0 ==> Settled(u, loose1, inum))
    ensures Turned(sb, w, u, loose1, l1, inum, c, off, n, src, tot + m, q, m != 0)
  {
    hide CellsAre, Overwrite, Journaled, Logs, FileOnly, Settled, SavedAs, SlotsFixed, Wrote, Ahead, TreeOk, Grouped;
    var pos := off + tot;
    var t0, l0 := w.t, w.logged;
    WroteMore(sb, t0, l0, t, l, u, l1, inum, c, off, n, src, tot, pos, m + q);
    FileOnlyTwice(Durable(t0, w.loose), Durable(t, loose), Durable(u, loose1), inum);
    JournaledTwice(Durable(t0, w.loose).disk, l0, Durable(t, loose).disk, l, Durable(u, loose1).disk, l1);
    JournaledGrows(Durable(t, loose).disk, l, Durable(u, loose1).disk, l1);
    TurnBlocks(off, n, tot, m);
    AheadGrouped(t0.slots[inum], w.held + l0, t.slots[inum], w.held + l, pos / BSIZE, pos);
    var left := Left(t0.slots[inum], w.held + l0, pos, q);
    OverwriteMore(c, off, src, tot, m + left);
    AheadNext(sb, t0.slots[inum], w.held, l0, t, l, u, l1, inum, pos / BSIZE,
      EndBlock(off, if m != 0 then tot + m else n));
    if m != 0 {
      SameBlock(u.slots[inum], l1, pos, pos + m - 1);
    }
  }

  /** The blocks that a turn of `m` bytes at byte `tot` touches. */
  lemma TurnBlocks(off: nat, n: nat, tot: nat, m: nat)
    requires tot < n && tot + m <= n && (0 < tot ==> (off + tot) % BSIZE == 0) && (off + tot) % BSIZE + m <= BSIZE
    ensures EndBlock(off, tot) == (off + tot) / BSIZE < EndBlock(off, if m != 0 then tot + m else n)
    ensures m == 0 || (off + tot + m - 1) / BSIZE == (off + tot) / BSIZE
  {
  }

  lemma SameBlock(s: Slots, group: set<nat>, pos: nat, pos1: nat)
    requires pos1 / BSIZE == pos / BSIZE && Grouped(s, group, pos)
    ensures Grouped(s, group, pos1)
  {
  }

  lemma JournaledGrows(disk: map<nat, Block>, before: set<nat>, disk1: map<nat, Block>, after: set<nat>)
    requires Journaled(disk, before, disk1, after)
    ensures before <= after
  {
  }

  /** A file's contents. */
  ghost function ContentOf(t: Store, i: nat): seq<byte> {
    if i in t.slots && i in t.inodes then Content(t.disk, t.slots[i], t.inodes[i].size) else []
  }

  ghost function FileContent(fs: FileSystem, inum: nat): seq<byte>
    reads fs
  {
    ContentOf(fs.S(), inum)
  }

  lemma CellsPrefix(disk: map<nat, Block>, s: Slots, c: seq<byte>, k: nat)
    requires CellsAre(disk, s, c) && k <= |c|
    ensures CellsAre(disk, s, c[..k])
  {
    forall p: nat ensures CellIs(disk, s, c[..k], p) { assert CellIs(disk, s, c, p); }
  }

  /** A valid file's contents. */
  lemma ValidContent(sb: Super, t: Store, i: nat)
    requires TreeOk(sb, t) && i in t.inodes
    ensures i in t.slots && CellsAre(t.disk, t.slots[i], Content(t.disk, t.slots[i], t.inodes[i].size))
  {
    assert FileOk(t, i);
    CellsAreContent(t.disk, t.slots[i], Content(t.disk, t.slots[i], t.inodes[i].size));
  }

  lemma ValidCells(sb: Super, t: Store, i: nat)
    requires TreeOk(sb, t) && i in t.inodes
    ensures i in t.slots && CellsAre(t.disk, t.slots[i], ContentOf(t, i))
  {
    ValidContent(sb, t, i);
  }

  ghost predicate OtherSame(t: Store, u: Store, inum: nat, i: nat) {
    i in t.inodes && i != inum ==> i in u.inodes && u.inodes[i] == t.inodes[i] && ContentOf(u, i) == ContentOf(t, i)
  }

  /** No other file changes. */
  ghost predicate OthersSame(t: Store, u: Store, inum: nat) {
    u.inodes.Keys == t.inodes.Keys && forall i {:trigger OtherSame(t, u, inum, i)} :: OtherSame(t, u, inum, i)
  }

  lemma OthersSameTwice(t: Store, u: Store, v: Store, inum: nat)
    requires OthersSame(t, u, inum) && OthersSame(u, v, inum)
    ensures OthersSame(t, v, inum)
  {
    forall i: nat ensures OtherSame(t, v, inum, i) { assert OtherSame(t, u, inum, i) && OtherSame(u, v, inum, i); }
  }

  lemma FileOnlyOthersSame(sb: Super, t: Store, u: Store, v: Store, inum: nat, b: nat)
    requires TreeOk(sb, t) && TreeOk(sb, u) && TreeOk(sb, v) && FileOnly(t, u, inum) && v.slots == u.slots
      && u.inodes.Keys == t.inodes.Keys
    requires b < sb.datastart && b in v.disk && v.disk == u.disk[b := v.disk[b]]
    requires v.inodes.Keys == t.inodes.Keys && forall i | i in t.inodes && i != inum :: v.inodes[i] == t.inodes[i]
    ensures OthersSame(t, v, inum)
  {
    forall i: nat ensures OtherSame(t, v, inum, i) {
      if i in t.inodes && i != inum {
        ValidContent(sb, t, i);
        OthersKeepCells(sb, t, u, inum, i, ContentOf(t, i));
        MetaKeepsCells(sb, u, i, ContentOf(t, i), b, v.disk[b]);
        CellsAreContent(v.disk, v.slots[i], ContentOf(t, i));
      }
    }
  }

  /** The contents are `c`, which the file's size cuts off. */
  lemma ContentIs(t: Store, inum: nat, c: seq<byte>)
    requires inum in t.inodes && inum in t.slots && CellsAre(t.disk, t.slots[inum], c) && t.inodes[inum].size <= |c|
    ensures ContentOf(t, inum) == c[..t.inodes[inum].size] && NoHoles(t.slots[inum], t.inodes[inum].size)
  {
    CellsPrefix(t.disk, t.slots[inum], c, t.inodes[inum].size);
    CellsAreContent(t.disk, t.slots[inum], c[..t.inodes[inum].size]);
  }

  /** The end of writei: the size grows to `end` if that is larger, and iupdate.  The
      contents are `c`, and on disk `cs` if the file is `tidy`. */
  method FinishWrite(fs: FileSystem, inum: nat, end: nat, ghost c: seq<byte>, ghost tidy: bool, ghost cs: seq<byte>)
    requires fs.Valid() && inum in fs.inodes && inum in fs.slots && CellsAre(fs.disk, fs.slots[inum], c)
    requires end <= |c| && fs.inodes[inum].size <= |c|
    requires tidy ==> SavedAs(fs.S(), fs.loose, inum, cs) && end <= |cs| && fs.inodes[inum].size <= |cs|
    modifies fs`inodes, fs`disk, fs`dinodes, fs`logged, fs`loose
    ensures fs.Valid() && fs.inodes.Keys == old(fs.inodes).Keys && FileContent(fs, inum) <= c
    ensures tidy ==> SavedContent(fs, inum) <= cs
    ensures fs.inodes[inum].size == if end > old(fs.inodes)[inum].size then end else old(fs.inodes)[inum].size
    ensures SameInode(old(fs.inodes)[inum], fs.inodes[inum])
    ensures forall i | i in fs.inodes && i != inum :: fs.inodes[i] == old(fs.inodes)[i]
    ensures fs.dinodes == old(fs.dinodes)[inum := fs.inodes[inum]] && fs.loose == old(fs.loose)
    ensures var b := fs.sb.IBlock(inum);
            0 < b < fs.sb.datastart && b in fs.disk && fs.disk == old(fs.disk)[b := fs.disk[b]]
    ensures fs.logged == old(fs.logged) + {fs.sb.IBlock(inum)}
    ensures Logs(fs.sb, old(fs.logged), fs.logged, {fs.sb.IBlock(inum)})
    ensures Journaled(old(fs.Saved()).disk, old(fs.logged), fs.Saved().disk, fs.logged)
  {
    hide MapOk, TreeOk, LooseOk, Journaled, CellsAre, SavedAs, Logs;
    MapFacts(fs.sb, fs.disk, fs.used, fs.dinodes, fs.loose);
    var size := fs.inodes[inum].size;
    if end > size {
      size := end;
      CellsNoHoles(fs.disk, fs.slots[inum], c, size);
      fs.SetSize(inum, size);
    }
    ghost var u := fs.S();
    InodeStorable(fs.sb, u, inum);
    fs.IUpdate(inum);
    var b := fs.sb.IBlock(inum);
    LogsOne(fs.sb, old(fs.logged), b);
    assert old(fs.Saved()).disk == Durable(u, fs.loose).disk;
    SavedAsFrame(old(fs.S()), u, fs.loose, inum, cs);
    FinishKeeps(fs.sb, u, fs.loose, fs.S(), inum, b, c, tidy, cs);
  }

  lemma SavedAsFrame(t: Store, u: Store, loose: map<nat, Block>, inum: nat, c: seq<byte>)
    requires u.disk == t.disk && u.slots == t.slots
    ensures SavedAs(t, loose, inum, c) ==> SavedAs(u, loose, inum, c)
  {
  }

  lemma CellsNoHoles(disk: map<nat, Block>, s: Slots, c: seq<byte>, size: nat)
    requires CellsAre(disk, s, c) && size <= |c|
    ensures NoHoles(s, size)
  {
    CellsPrefix(disk, s, c, size);
    CellsAreContent(disk, s, c[..size]);
  }

  /** The contents after the inode record was written. */
  lemma FinishKeeps(sb: Super, t: Store, loose: map<nat, Block>, u: Store, inum: nat, b: nat, c: seq<byte>, tidy: bool,
                    cs: seq<byte>)
    requires TreeOk(sb, t) && LooseOk(sb, loose, t.owner) && inum in t.inodes && inum in t.slots && b < sb.datastart
    requires b in u.disk && u == t.(disk := t.disk[b := u.disk[b]])
    requires CellsAre(t.disk, t.slots[inum], c) && t.inodes[inum].size <= |c|
    requires tidy ==> SavedAs(t, loose, inum, cs) && t.inodes[inum].size <= |cs|
    ensures TreeOk(sb, u) && ContentOf(u, inum) <= c
    ensures tidy ==> ContentOf(Durable(u, loose), inum) <= cs
  {
    MetaWriteKeepsTree(sb, t, b, u.disk[b]);
    MetaKeepsCells(sb, t, inum, c, b, u.disk[b]);
    ContentIs(u, inum, c);
    if tidy {
      var t1 := Durable(t, loose);
      DurableTree(sb, t, loose);
      assert LooseAt(sb, loose, t.owner, b);
      assert Durable(u, loose).disk == t1.disk[b := u.disk[b]];
      MetaKeepsCells(sb, t1, inum, cs, b, u.disk[b]);
      ContentIs(Durable(u, loose), inum, cs);
    }
  }

  /** What a file's contents become if only what disk and log have is left. */
  ghost function SavedContent(fs: FileSystem, inum: nat): seq<byte>
    reads fs
  {
    ContentOf(fs.Saved(), inum)
  }

  lemma NothingWritten(fs: FileSystem, inum: nat, blocks: set<nat>)
    ensures OthersSame(fs.S(), fs.S(), inum) && Journaled(fs.Saved().disk, fs.logged, fs.Saved().disk, fs.logged)
    ensures OthersSame(fs.Saved(), fs.Saved(), inum) && Logs(fs.sb, fs.logged, fs.logged, blocks)
  {
    forall x: nat ensures OtherSame(fs.S(), fs.S(), inum, x) && OtherSame(fs.Saved(), fs.Saved(), inum, x) {}
  }

  /** writei past its checks. */
  method WriteBytes(fs: FileSystem, inum: nat, off: word, n: word, src: seq<byte>) returns (r: nat, ghost q: nat)
    requires fs.Valid() && inum in fs.inodes && inum in fs.slots
    requires off <= fs.inodes[inum].size && off as int + n <= MAXFILE * BSIZE
    modifies fs`disk, fs`used, fs`logged, fs`loose, fs`inodes, fs`slots, fs`owner, fs`dinodes
    ensures fs.Valid() && inum in fs.slots && inum in fs.inodes
    ensures OthersSame(old(fs.S()), fs.S(), inum) && OthersSame(old(fs.Saved()), fs.Saved(), inum)
    ensures r <= n && r + q <= |src| && (r == n ==> q == 0) && (0 < r < n ==> (off + r) % BSIZE == 0)
    ensures r < n ==> Stopped(fs.Exhausted(), old(fs.slots[inum]), off + r, n - r, |src| - r, q)
    ensures fs.inodes[inum].size == if off + r > old(fs.inodes[inum].size) then off + r else old(fs.inodes[inum].size)
    ensures SameInode(old(fs.inodes)[inum], fs.inodes[inum])
    ensures off <= |old(FileContent(fs, inum))|
    ensures FileContent(fs, inum) <= Overwrite(old(FileContent(fs, inum)), off, src[..r + q])
    ensures old(Settled(fs.S(), fs.loose, inum)) ==>
      && SavedContent(fs, inum) <= Overwrite(old(FileContent(fs, inum)), off,
           src[..r + Left(old(fs.slots[inum]), fs.held + old(fs.logged), off + r, q)])
      && (r == n ==> Settled(fs.S(), fs.loose, inum))
    ensures Passed(old(fs.slots[inum]), fs.slots[inum], fs.held, old(fs.logged), fs.logged, off, n, r == n)
    ensures fs.dinodes == old(fs.dinodes)[inum := fs.inodes[inum]]
    ensures Journaled(old(fs.Saved()).disk, old(fs.logged), fs.Saved().disk, fs.logged)
    ensures Logs(fs.sb, old(fs.logged), fs.logged,
      {fs.sb.IBlock(inum)} + Touched(fs.slots[inum], off / BSIZE, EndBlock(off, n)))
  {
    hide MapOk, TreeOk, LooseOk, CellsAre, Journaled, Logs, FileOnly, OthersSame, Touched, SavedAs, Settled, Turned,
      Stopped, Passed, Left, Overwrite, ContentOf, FileSystem.Exhausted;
    ghost var c := FileContent(fs, inum);
    ghost var tidy := Settled(fs.S(), fs.loose, inum);
    ghost var w := Start(fs.S(), fs.loose, fs.held, fs.logged);
    ValidCells(fs.sb, fs.S(), inum);
    ContentLength(fs.S(), inum);
    r, q := WriteLoop(fs, inum, off, n, src, c);
    ghost var u, su, l1 := fs.S(), fs.Saved(), fs.logged;
    TurnedDone(fs.sb, w, u, fs.loose, l1, inum, c, off, n, src, r, q, r == n);
    FinishWrite(fs, inum, off as int + r, Overwrite(c, off, src[..r + q]), tidy,
      Overwrite(c, off, src[..r + Left(w.t.slots[inum], w.held + w.logged, off + r, q)]));
    WriteOthers(fs.sb, old(fs.S()), old(fs.loose), u, fs.S(), fs.loose, inum, fs.sb.IBlock(inum));
    LogsTwice(fs.sb, old(fs.logged), l1, fs.logged, Touched(fs.slots[inum], off / BSIZE, EndBlock(off, n)),
      {fs.sb.IBlock(inum)}, {fs.sb.IBlock(inum)} + Touched(fs.slots[inum], off / BSIZE, EndBlock(off, n)));
    JournaledTwice(old(fs.Saved()).disk, old(fs.logged), su.disk, l1, fs.Saved().disk, fs.logged);
    SettledFrame(u, fs.S(), fs.loose, inum);
    PassedMeta(fs.sb, u, w.t.slots[inum], inum, w.held, w.logged, l1, off, n, r == n, fs.sb.IBlock(inum));
  }

  /** The blocks after those that bytes off..off+n touch are as they were; the last of
      these, if they are `all` written, is in the open commit group. */
  ghost predicate Passed(s: Slots, s1: Slots, held: set<nat>, logged: set<nat>, logged1: set<nat>, off: nat, n: nat,
                         all: bool) {
    && Ahead(s, held + logged, s1, held + logged1, EndBlock(off, n))
    && (all && 0 < n ==> Grouped(s1, logged1, off + n - 1))
  }

  lemma TurnedDone(sb: Super, w: Start, t: Store, loose: map<nat, Block>, logged: set<nat>, inum: nat, c: seq<byte>,
                   off: nat, n: nat, src: seq<byte>, tot: nat, q: nat, all: bool)
    requires Turned(sb, w, t, loose, logged, inum, c, off, n, src, tot, q, all) && (all ==> tot == n)
    ensures inum in w.t.slots && inum in t.slots && tot + q <= |src| && (all ==> q == 0) && off <= |c|
    ensures CellsAre(t.disk, t.slots[inum], Overwrite(c, off, src[..tot + q])) && FileOnly(w.t, t, inum)
    ensures Logs(sb, w.logged, logged, Touched(t.slots[inum], off / BSIZE, EndBlock(off, n)))
    ensures Passed(w.t.slots[inum], t.slots[inum], w.held, w.logged, logged, off, n, all)
    ensures FileOnly(Durable(w.t, w.loose), Durable(t, loose), inum)
    ensures Journaled(Durable(w.t, w.loose).disk, w.logged, Durable(t, loose).disk, logged)
    ensures Left(w.t.slots[inum], w.held + w.logged, off + tot, q) <= q
    ensures Settled(w.t, w.loose, inum) ==>
      SavedAs(t, loose, inum, Overwrite(c, off, src[..tot + Left(w.t.slots[inum], w.held + w.logged, off + tot, q)]))
    ensures Settled(w.t, w.loose, inum) && all ==> Settled(t, loose, inum)
  {
    hide CellsAre, Overwrite, Journaled, Logs, FileOnly, Settled, SavedAs, Ahead;
  }

  lemma PassedMeta(sb: Super, t: Store, s: Slots, inum: nat, held: set<nat>, logged: set<nat>, logged1: set<nat>,
                   off: nat, n: nat, all: bool, b: nat)
    requires TreeOk(sb, t) && inum in t.slots && b < sb.datastart
      && Passed(s, t.slots[inum], held, logged, logged1, off, n, all)
    ensures Passed(s, t.slots[inum], held, logged, logged1 + {b}, off, n, all)
  {
    var s1, g0, g := t.slots[inum], held + logged, held + logged1;
    var g1 := held + (logged1 + {b});
    forall k: nat | EndBlock(off, n) <= k ensures AheadAt(s, g0, s1, g1, k) {
      assert AheadAt(s, g0, s1, g, k);
      if k < MAXFILE && s1[DataSlot(k)] != 0 {
        OwnedSlot(sb, t, inum, DataSlot(k));
      }
    }
  }

  lemma SettledFrame(t: Store, u: Store, loose: map<nat, Block>, inum: nat)
    requires u.owner == t.owner
    ensures Settled(t, loose, inum) ==> Settled(u, loose, inum)
  {
    if Settled(t, loose, inum) {
      forall x: nat ensures SettledAt(u, loose, inum, x) { assert SettledAt(t, loose, inum, x); }
    }
  }

  /** Other files after a write, in the cache and on disk. */
  lemma WriteOthers(sb: Super, t: Store, loose: map<nat, Block>, u: Store, v: Store, loose1: map<nat, Block>, inum: nat,
                    b: nat)
    requires TreeOk(sb, t) && TreeOk(sb, u) && TreeOk(sb, v) && FileOnly(t, u, inum) && u.inodes.Keys == t.inodes.Keys
    requires LooseOk(sb, loose, t.owner) && LooseOk(sb, loose1, v.owner)
      && FileOnly(Durable(t, loose), Durable(u, loose1), inum)
    requires b < sb.datastart && b in v.disk && v == u.(disk := u.disk[b := v.disk[b]], inodes := v.inodes)
    requires v.inodes.Keys == t.inodes.Keys && forall i | i in t.inodes && i != inum :: v.inodes[i] == t.inodes[i]
    ensures OthersSame(t, v, inum) && OthersSame(Durable(t, loose), Durable(v, loose1), inum)
  {
    FileOnlyOthersSame(sb, t, u, v, inum, b);
    DurableTree(sb, t, loose);
    DurableTree(sb, u, loose1);
    DurableTree(sb, v, loose1);
    assert LooseAt(sb, loose1, v.owner, b);
    assert Durable(v, loose1).disk == Durable(u, loose1).disk[b := v.disk[b]];
    FileOnlyOthersSame(sb, Durable(t, loose), Durable(u, loose1), Durable(v, loose1), inum, b);
  }

  /** writei.  `src` is as much of the source as can be read.  The contents change
      to the old ones overwritten at `off` with the `r` bytes written, extended as
      needed, and no other file changes.  A copy that fails part way leaves `q` more
      source bytes in the cached block; then the contents are the first `size` bytes
      of that.  If disk and log had all of the file, they get exactly the `r` bytes if
      and only if that block is not in the open commit group, or its `q` bytes are
      the file's old ones. */
  method WriteI(fs: FileSystem, inum: nat, off: word, n: word, src: seq<byte>) returns (r: int, ghost q: nat)
    requires fs.Valid() && inum in fs.inodes && inum in fs.slots
    modifies fs`disk, fs`used, fs`logged, fs`loose, fs`inodes, fs`slots, fs`owner, fs`dinodes
    ensures fs.Valid() && inum in fs.slots && inum in fs.inodes
    ensures OthersSame(old(fs.S()), fs.S(), inum) && OthersSame(old(fs.Saved()), fs.Saved(), inum)
    ensures r == -1 <==> off > old(fs.inodes[inum].size) || off as int + n > MAXFILE * BSIZE
    ensures r == -1 ==> unchanged(fs) && q == 0
    ensures r != -1 ==> 0 <= r <= n && r + q <= |src| && (r == n ==> q == 0) && (0 < r < n ==> (off + r) % BSIZE == 0)
    ensures 0 <= r < n ==> Stopped(fs.Exhausted(), old(fs.slots[inum]), off + r, n - r, |src| - r, q)
    ensures r != -1 ==>
      fs.inodes[inum].size == if off + r > old(fs.inodes[inum].size) then off + r else old(fs.inodes[inum].size)
    ensures SameInode(old(fs.inodes)[inum], fs.inodes[inum])
    ensures r != -1 ==> off <= |old(FileContent(fs, inum))|
    ensures r != -1 ==> Written(FileContent(fs, inum), old(FileContent(fs, inum)), off, src, r, q)
    ensures r != -1 && old(Settled(fs.S(), fs.loose, inum)) ==>
      && Written(SavedContent(fs, inum), old(FileContent(fs, inum)), off, src, r,
           Left(old(fs.slots[inum]), fs.held + old(fs.logged), off + r, q))
      && (r == n ==> Settled(fs.S(), fs.loose, inum))
    ensures r != -1 && old(Settled(fs.S(), fs.loose, inum)) ==>
      (SavedContent(fs, inum) == Overwrite(old(FileContent(fs, inum)), off, src[..r]) <==>
        || !Grouped(old(fs.slots[inum]), fs.held + old(fs.logged), off + r)
        || SameBytes(old(FileContent(fs, inum)), off, src, r, q))
    ensures r != -1 ==>
      Passed(old(fs.slots[inum]), fs.slots[inum], fs.held, old(fs.logged), fs.logged, off, n, r == n)
    ensures r != -1 ==> fs.dinodes == old(fs.dinodes)[inum := fs.inodes[inum]]
    ensures Journaled(old(fs.Saved()).disk, old(fs.logged), fs.Saved().disk, fs.logged)
    ensures Logs(fs.sb, old(fs.logged), fs.logged,
      {fs.sb.IBlock(inum)} + Touched(fs.slots[inum], off / BSIZE, EndBlock(off, n)))
  {
    hide Journaled, Logs, OthersSame, Touched, Overwrite, ContentOf, Settled, FileSystem.Valid, Written, SameBytes,
      Stopped, Passed, Grouped, FileSystem.Exhausted;
    q := 0;
    NothingWritten(fs, inum, {fs.sb.IBlock(inum)} + Touched(fs.slots[inum], off / BSIZE, EndBlock(off, n)));
    var size := fs.inodes[inum].size;
    if off > size || (off as int + n) % 0x1_0000_0000 < off {
      r := -1;
      return;
    }
    if off as int + n > MAXFILE * BSIZE {
      r := -1;
      return;
    }
    ghost var c, group := FileContent(fs, inum), fs.held + fs.logged;
    ContentLength(fs.S(), inum);
    r, q := WriteBytes(fs, inum, off, n, src);
    ContentLength(fs.S(), inum);
    ContentLength(fs.Saved(), inum);
    WriteResult(FileContent(fs, inum), SavedContent(fs, inum), c, off, src, r, q,
      Grouped(old(fs.slots[inum]), group, off as int + r), old(Settled(fs.S(), fs.loose, inum)));
  }

  /** The contents `c` overwritten at `off` with the first `i` bytes of `src`; `q` more
      bytes are stored behind those, as far as the file reaches. */
  ghost predicate Written(content: seq<byte>, c: seq<byte>, off: nat, src: seq<byte>, i: nat, q: nat) {
    off <= |c| && i + q <= |src|
    && content == Overwrite(c, off, src[..i + q])[..|Overwrite(c, off, src[..i])|]
  }

  /** The `q` bytes of `src` from the `i`th on are those that `c` has there. */
  ghost predicate SameBytes(c: seq<byte>, off: nat, src: seq<byte>, i: nat, q: nat) {
    forall j: nat | i <= j < i + q && j < |src| && off + j < |c| :: src[j] == c[off + j]
  }

  lemma WrittenPrefix(content: seq<byte>, c: seq<byte>, off: nat, src: seq<byte>, i: nat, q: nat)
    requires off <= |c| && i + q <= |src| && content <= Overwrite(c, off, src[..i + q])
    requires |content| == if off + i > |c| then off + i else |c|
    ensures Written(content, c, off, src, i, q)
  {
  }

  /** The contents are those of the bytes counted if and only if the bytes stored
      behind them are the old ones. */
  lemma WrittenExactly(content: seq<byte>, c: seq<byte>, off: nat, src: seq<byte>, i: nat, q: nat)
    requires Written(content, c, off, src, i, q)
    ensures content == Overwrite(c, off, src[..i]) <==> SameBytes(c, off, src, i, q)
  {
    var c1, c2 := Overwrite(c, off, src[..i]), Overwrite(c, off, src[..i + q]);
    if content == c1 {
      forall j: nat | i <= j < i + q && off + j < |c| ensures src[j] == c[off + j] {
        assert c2[off + j] == content[off + j] == c1[off + j];
      }
    }
  }

  lemma WrittenWhole(content: seq<byte>, c: seq<byte>, off: nat, src: seq<byte>, i: nat)
    requires Written(content, c, off, src, i, 0)
    ensures content == Overwrite(c, off, src[..i]) && (i == 0 ==> content == c)
  {
    assert Overwrite(c, off, src[..0]) == c;
  }

  /** The contents in the cache and, if the file is `tidy`, on disk. */
  lemma WriteResult(content: seq<byte>, saved: seq<byte>, c: seq<byte>, off: nat, src: seq<byte>, r: nat, q: nat,
                    grouped: bool, tidy: bool)
    requires off <= |c| && r + q <= |src| && content <= Overwrite(c, off, src[..r + q]) && |saved| == |content|
    requires |content| == if off + r > |c| then off + r else |c|
    requires tidy ==> saved <= Overwrite(c, off, src[..r + if grouped then q else 0])
    ensures Written(content, c, off, src, r, q)
    ensures tidy ==> Written(saved, c, off, src, r, if grouped then q else 0)
    ensures tidy ==> (saved == Overwrite(c, off, src[..r]) <==> !grouped || SameBytes(c, off, src, r, q))
  {
    WrittenPrefix(content, c, off, src, r, q);
    if tidy {
      WrittenPrefix(saved, c, off, src, r, if grouped then q else 0);
      WrittenExactly(saved, c, off, src, r, if grouped then q else 0);
    }
  }

  // ---------- readi ----------

  /** readi: the bytes of the file from `off`, at most `n` and not past its end;
      `room` is how many bytes the destination can take, and -1 reports that it was
      too small.  No block is ever allocated. */
  method ReadI(fs: FileSystem, inum: nat, off: word, n: word, room: nat) returns (r: int, data: seq<byte>)
    requires fs.Valid() && inum in fs.inodes && inum in fs.slots
    modifies fs
    ensures unchanged(fs)
    ensures off > fs.inodes[inum].size || off as int + n >= 0x1_0000_0000 ==> r == 0 && data == []
    ensures off <= fs.inodes[inum].size && off as int + n < 0x1_0000_0000 ==>
      var m := if off + n > fs.inodes[inum].size then fs.inodes[inum].size - off else n;
      if m <= room then r == m && data == FileContent(fs, inum)[off..off + m]
      else r == -1 && |data| <= room && data == FileContent(fs, inum)[off..off + |data|]
  {
    hide MapOk, TreeOk, LooseOk, CellsAre, ContentOf;
    data := [];
    var size := fs.inodes[inum].size;
    ContentLength(fs.S(), inum);
    if off > size || (off as int + n) % 0x1_0000_0000 < off {
      r := 0;
      return;
    }
    var m: nat := if off as int + n > size then size - off else n;
    ghost var c := FileContent(fs, inum);
    ValidCells(fs.sb, fs.S(), inum);
    r := 0;
    while r < m
      invariant 0 <= r <= m && unchanged(fs) && r <= room && data == c[off..off as int + r]
    {
      var bytes := ReadBlock(fs, inum, off as int + r, m - r, c);
      if r + |bytes| > room {
        r := -1;
        return;
      }
      assert c[off..off as int + r] + bytes == c[off..off as int + r + |bytes|];
      data := data + bytes;
      r := r + |bytes|;
    }
  }

  /** One turn of readi's loop.  The block is there, so bmap allocates nothing. */
  method ReadBlock(fs: FileSystem, inum: nat, pos: nat, want: nat, ghost c: seq<byte>) returns (bytes: seq<byte>)
    requires fs.Valid() && inum in fs.inodes && CellsAre(fs.disk, fs.slots[inum], c) && 0 < want && pos + want <= |c|
    modifies fs
    ensures unchanged(fs) && |bytes| == Chunk(pos, want) && bytes == c[pos..pos + |bytes|]
  {
    assert CellIs(fs.disk, fs.slots[inum], c, pos);
    var addr := fs.BMap(inum, pos / BSIZE);
    assert SlotOk(fs.S(), inum, DataSlot(pos / BSIZE)) && UsedOk(fs.sb, fs.S(), addr);
    bytes := fs.disk[addr][pos % BSIZE..pos % BSIZE + Chunk(pos, want)];
    forall i | 0 <= i < |bytes| ensures bytes[i] == c[pos + i] {
      assert CellIs(fs.disk, fs.slots[inum], c, pos + i);
    }
  }

  // ---------- filewrite ----------

  /** The most bytes filewrite writes in one transaction. */
  const MAXCHUNK: nat := 3072

  /** A transaction of at most three blocks' worth of bytes, however unaligned, logs
      at most seven distinct blocks when the disk has one bitmap block: the bitmap,
      the inode, the indirect block and four blocks of contents. */
  lemma TransactionBound(sb: Super, logged: set<nat>, iblock: nat, s: Slots, off: nat, n: nat)
    requires sb.size < Bitmap.BPB && n <= MAXCHUNK && off + n <= MAXFILE * BSIZE
    requires Logs(sb, {}, logged, {iblock} + Touched(s, off / BSIZE, EndBlock(off, n)))
    ensures |logged| <= 7 < LogFormat.MAXOPBLOCKS && MAXCHUNK == (LogFormat.MAXOPBLOCKS - 1 - 1 - 2) / 2 * BSIZE
  {
    var lo, hi := off / BSIZE, EndBlock(off, n);
    var most := {sb.bmapstart, iblock, s[NDIRECT]} + BlocksOf(s, lo, hi);
    forall m | m in logged ensures m in most {
      assert LogOk(sb, {}, logged, {iblock} + Touched(s, lo, hi), m);
    }
    assert lo <= hi <= lo + 4;
    if hi <= MAXFILE {
      BlocksOfSize(s, lo, hi);
    } else {
      assert BlocksOf(s, lo, hi) == {};
    }
    SubsetSize(logged, most);
    assert |{sb.bmapstart, iblock, s[NDIRECT]} + BlocksOf(s, lo, hi)| <= |{sb.bmapstart, iblock, s[NDIRECT]}|
      + |BlocksOf(s, lo, hi)|;
  }

  /** The contents `c` with the first `i` bytes of `src` written at `off`, and `q` more
      stored behind them.  Nothing is written past the end of the file. */
  ghost predicate Progress(content: seq<byte>, c: seq<byte>, off: nat, src: seq<byte>, i: nat, q: nat) {
    if off <= |c| then Written(content, c, off, src, i, q) else content == c && i == 0 && q == 0
  }

  /** In the cache and on disk no other file changes, and of this one's inode only size
      and block pointers. */
  ghost predicate OnlyFile(t: Store, saved: Store, t1: Store, saved1: Store, inum: nat) {
    && OthersSame(t, t1, inum) && OthersSame(saved, saved1, inum)
    && inum in t.inodes && inum in t1.inodes && SameInode(t.inodes[inum], t1.inodes[inum])
  }

  lemma OnlyFileTwice(t: Store, saved: Store, t1: Store, saved1: Store, t2: Store, saved2: Store, inum: nat)
    requires OnlyFile(t, saved, t1, saved1, inum) && OnlyFile(t1, saved1, t2, saved2, inum)
    ensures OnlyFile(t, saved, t2, saved2, inum)
  {
    OthersSameTwice(t, t1, t2, inum);
    OthersSameTwice(saved, saved1, saved2, inum);
  }

  lemma NoProgress(fs: FileSystem, inum: nat, off: nat, src: seq<byte>)
    requires fs.Valid() && inum in fs.inodes
    ensures OnlyFile(fs.S(), fs.Saved(), fs.S(), fs.Saved(), inum)
    ensures Progress(FileContent(fs, inum), FileContent(fs, inum), off, src, 0, 0)
    ensures Settled(fs.S(), fs.loose, inum) ==> Progress(SavedContent(fs, inum), FileContent(fs, inum), off, src, 0, 0)
  {
    NothingWritten(fs, inum, {});
    if Settled(fs.S(), fs.loose, inum) {
      SettledContent(fs.sb, fs.S(), fs.loose, inum);
    }
  }

  lemma ProgressLength(content: seq<byte>, c: seq<byte>, off: nat, src: seq<byte>, i: nat)
    requires Progress(content, c, off, src, i, 0)
    ensures i <= |src| && if off <= |c| then off + i <= |content| else i == 0 && content == c
  {
  }

  lemma MoreProgress(content: seq<byte>, content1: seq<byte>, c: seq<byte>, off: nat, src: seq<byte>, i: nat, r: nat,
                     q: nat)
    requires Progress(content, c, off, src, i, 0) && i <= |src| && off + i <= |content|
    requires Written(content1, content, off + i, src[i..], r, q)
    ensures Progress(content1, c, off, src, i + r, q)
  {
    OverwriteTwice(c, off, src[..i], src[i..][..r]);
    OverwriteTwice(c, off, src[..i], src[i..][..r + q]);
    assert src[..i] + src[i..][..r + q] == src[..i + r + q] && src[..i] + src[i..][..r] == src[..i + r];
  }

  lemma SettledContent(sb: Super, t: Store, loose: map<nat, Block>, inum: nat)
    requires TreeOk(sb, t) && inum in t.inodes && Settled(t, loose, inum)
    ensures ContentOf(Durable(t, loose), inum) == ContentOf(t, inum)
  {
    ValidContent(sb, t, inum);
    SettledCells(sb, t, loose, inum, ContentOf(t, inum));
    CellsAreContent(Durable(t, loose).disk, t.slots[inum], ContentOf(t, inum));
  }

  /** One transaction of filewrite, up to its end_op: the next `n1` of the `src` bytes,
      of which `i` have been written at `off`. */
  method WriteTransaction(fs: FileSystem, inum: nat, off: word, i: nat, n1: nat, src: seq<byte>, ghost c: seq<byte>)
    returns (r: int, ghost q: nat)
    requires fs.Valid() && inum in fs.inodes && inum in fs.slots && n1 <= MAXCHUNK && off as int + i < 0x1_0000_0000
    requires Progress(FileContent(fs, inum), c, off, src, i, 0)
    modifies fs
    ensures fs.Valid() && inum in fs.slots && inum in fs.inodes
    ensures OthersSame(old(fs.S()), fs.S(), inum) && OthersSame(old(fs.Saved()), fs.Saved(), inum)
    ensures SameInode(old(fs.inodes)[inum], fs.inodes[inum])
    ensures r == -1 <==> off as int + i > |old(FileContent(fs, inum))| || off as int + i + n1 > MAXFILE * BSIZE
    ensures r == -1 ==> fs.S() == old(fs.S()) && fs.Saved() == old(fs.Saved()) && q == 0
    ensures r == -1 || (0 <= r <= n1 && (r == n1 ==> q == 0) && (0 < r < n1 ==> (off + i + r) % BSIZE == 0))
    ensures i <= |src|
    ensures 0 <= r < n1 ==> Stopped(fs.Exhausted(), old(fs.slots[inum]), off + i + r, n1 - r, |src| - i - r, q)
    ensures Progress(FileContent(fs, inum), c, off, src, if r == -1 then i else i + r, q)
    ensures old(Settled(fs.S(), fs.loose, inum)) ==>
      && Progress(SavedContent(fs, inum), c, off, src, if r == -1 then i else i + r,
           if r == -1 then 0 else Left(old(fs.slots[inum]), old(fs.held + fs.logged), off + i + r, q))
      && (r == n1 ==> Settled(fs.S(), fs.loose, inum))
    ensures fs.held == old(fs.held + fs.logged)
    ensures r != -1 ==> Passed(old(fs.slots[inum]), fs.slots[inum], fs.held, {}, fs.logged, off + i, n1, r == n1)
    ensures fs.dinodes == if r == -1 then old(fs.dinodes) else old(fs.dinodes)[inum := fs.inodes[inum]]
    ensures Journaled(old(fs.Saved()).disk, {}, fs.Saved().disk, fs.logged)
    ensures fs.sb.size < Bitmap.BPB ==> |fs.logged| <= 7
  {
    hide MapOk, TreeOk, LooseOk, Settled, OthersSame, Journaled, FileSystem.Exhausted, Touched, ContentOf, Logs,
      Progress, Overwrite, Written, SameBytes, Stopped, Passed, Left, Grouped;
    fs.held, fs.logged := fs.held + fs.logged, {};   // begin_op
    assert fs.held + fs.logged == fs.held;
    var foff := off as int + i;
    ghost var c0, tidy := FileContent(fs, inum), Settled(fs.S(), fs.loose, inum);
    if tidy {
      SettledContent(fs.sb, fs.S(), fs.loose, inum);
    }
    ContentLength(fs.S(), inum);
    ProgressLength(c0, c, off, src, i);
    r, q := WriteI(fs, inum, foff, n1, src[i..]);
    if r != -1 {
      MoreProgress(c0, FileContent(fs, inum), c, off, src, i, r, q);
      if tidy {
        MoreProgress(c0, SavedContent(fs, inum), c, off, src, i, r, Left(old(fs.slots[inum]), fs.held, foff + r, q));
      }
    }
    if fs.sb.size < Bitmap.BPB {
      LoggedFew(fs.sb, fs.logged, fs.sb.IBlock(inum), fs.slots[inum], foff, n1, r == -1);
    }
  }

  lemma ContentLength(t: Store, inum: nat)
    requires inum in t.slots && inum in t.inodes
    ensures |ContentOf(t, inum)| == t.inodes[inum].size
  {
  }

  lemma LoggedFew(sb: Super, logged: set<nat>, iblock: nat, s: Slots, off: nat, n: nat, none: bool)
    requires sb.size < Bitmap.BPB && n <= MAXCHUNK && (none ==> logged == {}) && (!none ==> off + n <= MAXFILE * BSIZE)
    requires Logs(sb, {}, logged, {iblock} + Touched(s, off / BSIZE, EndBlock(off, n)))
    ensures |logged| <= 7
  {
    if !none {
      TransactionBound(sb, logged, iblock, s, off, n);
    }
  }

  // ---------- Which block is in the open group ----------

  /** The number of the transaction that begins at byte `i`. */
  function Turn(i: nat): nat {
    i / MAXCHUNK
  }

  /** None of the first `k` transactions' end_op committed the group. */
  ghost predicate NoneCommitted(commits: nat -> bool, k: nat) {
    forall j: nat | j < k :: !commits(j)
  }

  /** The block at which a filewrite stops that has written `done` bytes is in the open
      commit group.  Either the transaction before left it there, partly filled, and
      its end_op did not commit; or it was there when filewrite began, in `group`, and
      there was no commit since. */
  ghost predicate Pending(s: Slots, group: set<nat>, commits: nat -> bool, off: nat, done: nat) {
    if MAXCHUNK <= done && (off + done) % BSIZE != 0
    then !commits(Turn(done) - 1)
    else Grouped(s, group, off + done) && NoneCommitted(commits, Turn(done))
  }

  ghost predicate WaitsAt(s0: Slots, group0: set<nat>, s: Slots, group: set<nat>, none: bool, bn: nat) {
    bn < MAXFILE ==>
      && s[DataSlot(bn)] == s0[DataSlot(bn)]
      && (s[DataSlot(bn)] != 0 ==> (s[DataSlot(bn)] in group <==> s[DataSlot(bn)] in group0 && none))
  }

  /** The file's blocks before the transaction that writes the `i`th byte. */
  ghost predicate Waits(s0: Slots, group0: set<nat>, s: Slots, group: set<nat>, commits: nat -> bool, off: nat,
                        i: nat) {
    && i % MAXCHUNK == 0
    && (i == 0 ==> s == s0 && group == group0)
    && (forall bn: nat {:trigger WaitsAt(s0, group0, s, group, NoneCommitted(commits, Turn(i)), bn)} ::
         off + i <= bn * BSIZE ==> WaitsAt(s0, group0, s, group, NoneCommitted(commits, Turn(i)), bn))
    && (0 < i && (off + i) % BSIZE != 0 && (off + i) / BSIZE < MAXFILE ==>
         && s[DataSlot((off + i) / BSIZE)] != 0
         && (Grouped(s, group, off + i) <==> !commits(Turn(i) - 1)))
  }

  lemma WaitsStart(s: Slots, group: set<nat>, commits: nat -> bool, off: nat)
    ensures Waits(s, group, s, group, commits, off, 0)
  {
  }

  /** If the transaction stops after `r` bytes. */
  lemma WaitsPending(s0: Slots, group0: set<nat>, s: Slots, group: set<nat>, commits: nat -> bool, off: nat, i: nat,
                     r: nat, full: bool, want: int, have: int, q: nat)
    requires Waits(s0, group0, s, group, commits, off, i) && r < MAXCHUNK && (0 < r ==> (off + i + r) % BSIZE == 0)
    requires Stopped(full, s, off + i + r, want, have, q) && (off + i + r) / BSIZE < MAXFILE
    ensures Grouped(s, group, off + i + r) <==> Pending(s0, group0, commits, off, i + r)
    ensures Stopped(full, s0, off + i + r, want, have, q)
  {
    SameChunk(i, r);
    var bn := (off + i + r) / BSIZE;
    if (off + i + r) % BSIZE == 0 {
      assert WaitsAt(s0, group0, s, group, NoneCommitted(commits, Turn(i)), bn);
    }
  }

  lemma SameChunk(i: nat, r: nat)
    requires i % MAXCHUNK == 0 && r < MAXCHUNK
    ensures Turn(i + r) == Turn(i) && (i + r) % MAXCHUNK == r && (0 < i ==> MAXCHUNK <= i)
  {
    var k := Turn(i);
    assert i == MAXCHUNK * k;
    Quotient(i + r, MAXCHUNK, k, r);
  }

  lemma NextChunk(i: nat, i1: nat)
    requires i % MAXCHUNK == 0 && i1 == i + MAXCHUNK
    ensures Turn(i1) == Turn(i) + 1 && i1 % MAXCHUNK == 0
  {
    var k := Turn(i);
    assert i == MAXCHUNK * k && i1 == MAXCHUNK * (k + 1);
    Quotient(i1, MAXCHUNK, k + 1, 0);
  }

  /** If it writes MAXCHUNK bytes; then `commit` says whether end_op commits. */
  lemma WaitsNext(s0: Slots, group0: set<nat>, s: Slots, held: set<nat>, commits: nat -> bool, off: nat, i: nat,
                  s1: Slots, logged: set<nat>, group1: set<nat>)
    requires Waits(s0, group0, s, held, commits, off, i) && Passed(s, s1, held, {}, logged, off + i, MAXCHUNK, true)
    requires group1 == if commits(Turn(i)) then {} else held + logged
    ensures Waits(s0, group0, s1, group1, commits, off, i + MAXCHUNK)
  {
    var k, i1 := Turn(i), i + MAXCHUNK;
    hide NoneCommitted;
    NextChunk(i, i1);
    assert held + {} == held;
    NoneMore(commits, k, Turn(i1));
    var none := NoneCommitted(commits, Turn(i1));
    forall bn: nat | off + i1 <= bn * BSIZE ensures WaitsAt(s0, group0, s1, group1, none, bn) {
      assert WaitsAt(s0, group0, s, held, NoneCommitted(commits, k), bn);
      assert EndBlock(off + i, MAXCHUNK) <= bn;
      assert AheadAt(s, held, s1, held + logged, bn);
    }
  }

  lemma NoneMore(commits: nat -> bool, k: nat, k1: nat)
    requires k1 == k + 1
    ensures NoneCommitted(commits, k1) <==> NoneCommitted(commits, k) && !commits(k)
  {
  }

  /** The contents `c` with exactly the first `i` bytes of `src` written at `off`. */
  ghost predicate Exactly(content: seq<byte>, c: seq<byte>, off: nat, src: seq<byte>, i: nat) {
    off <= |c| && i <= |src| && content == Overwrite(c, off, src[..i])
  }

  lemma ExactlyCounted(content: seq<byte>, c: seq<byte>, off: nat, src: seq<byte>, i: nat, q: nat, left: bool,
                       tidy: bool)
    requires tidy ==> Progress(content, c, off, src, i, if left then q else 0)
    ensures tidy && off <= |c| ==> (Exactly(content, c, off, src, i) <==> !left || SameBytes(c, off, src, i, q))
  {
    if tidy && off <= |c| {
      WrittenExactly(content, c, off, src, i, if left then q else 0);
    }
  }

  /** How many bytes the transaction that stops after `done` of `n` bytes has left. */
  function Want(n: int, done: nat): int {
    if n - done < MAXCHUNK - done % MAXCHUNK then n - done else MAXCHUNK - done % MAXCHUNK
  }

  /** One turn of filewrite's loop: a transaction of `n1` bytes, and its end_op.  It gets
      to byte `tot`, and logs `logs` blocks. */
  method WriteNext(fs: FileSystem, inum: nat, off: word, i: nat, n1: nat, src: seq<byte>,
                   commits: nat -> bool, ghost c: seq<byte>, ghost s0: Slots, ghost group0: set<nat>)
    returns (r: int, ghost q: nat, ghost tot: nat, ghost logs: nat)
    requires fs.Valid() && inum in fs.inodes && inum in fs.slots && n1 <= MAXCHUNK && off as int + i < 0x1_0000_0000
    requires Progress(FileContent(fs, inum), c, off, src, i, 0)
    requires Waits(s0, group0, fs.slots[inum], fs.held + fs.logged, commits, off, i)
    modifies fs
    ensures fs.Valid() && inum in fs.slots && inum in fs.inodes
    ensures OnlyFile(old(fs.S()), old(fs.Saved()), fs.S(), fs.Saved(), inum)
    ensures -1 <= r <= n1 && (r == -1 || r == n1 ==> q == 0) && tot == if r == -1 then i else i + r
    ensures 0 < r < n1 ==> (off + tot) % BSIZE == 0
    ensures r == -1 <==> off as int + i > |old(FileContent(fs, inum))| || off as int + i + n1 > MAXFILE * BSIZE
    ensures 0 <= r < n1 ==> Stopped(fs.Exhausted(), s0, off + tot, n1 - r, |src| - tot, q)
    ensures Progress(FileContent(fs, inum), c, off, src, tot, q)
    ensures old(Settled(fs.S(), fs.loose, inum)) ==>
      && Progress(SavedContent(fs, inum), c, off, src, tot, if Pending(s0, group0, commits, off, tot) then q else 0)
      && (r == n1 ==> Settled(fs.S(), fs.loose, inum))
    ensures r == n1 == MAXCHUNK ==> Waits(s0, group0, fs.slots[inum], fs.held + fs.logged, commits, off, tot)
    ensures fs.sb.size < Bitmap.BPB ==> logs <= 7
  {
    hide Progress, OthersSame, ContentOf, Settled, FileSystem.Valid, FileSystem.Exhausted, Journaled, Passed, Waits,
      Pending, Stopped, Grouped, Turn;
    ghost var sl := fs.slots[inum];
    r, q := WriteTransaction(fs, inum, off, i, n1, src, c);
    tot, logs := if r == -1 then i else i + r, |fs.logged|;
    ghost var group := if commits(Turn(i)) then {} else fs.held + fs.logged;
    if 0 <= r < n1 {
      WaitsPending(s0, group0, sl, fs.held, commits, off, i, r, fs.Exhausted(), n1 - r, |src| - i - r, q);
    } else if r == n1 == MAXCHUNK {
      WaitsNext(s0, group0, sl, fs.held, commits, off, i, fs.slots[inum], fs.logged, group);
    }
    fs.held, fs.logged := group, {};   // end_op
    assert fs.held + fs.logged == group;
  }

  /** Why filewrite stopped after `done` of `n` bytes: the offset is past the end of the
      file, or the transaction goes past the largest file size, or see Stopped.  It
      stops between transactions or between blocks. */
  ghost predicate FellShort(full: bool, s: Slots, size: nat, off: nat, n: nat, have: nat, done: nat, q: nat) {
    && (done % MAXCHUNK == 0 || (off + done) % BSIZE == 0)
    && (|| off > size || off + done + Want(n, done) > MAXFILE * BSIZE
        || Stopped(full, s, off + done, Want(n, done), have - done, q))
  }

  /** A transaction of `n1` bytes that begins at byte `i` and gets only to byte `tot`. */
  lemma StopsShort(full: bool, s: Slots, size: nat, off: nat, n: nat, have: nat, i: nat, n1: nat, r: int, tot: nat,
                   q: nat)
    requires i % MAXCHUNK == 0 && i < n && n1 == (if n - i > MAXCHUNK then MAXCHUNK else n - i) && -1 <= r < n1
    requires tot == (if r == -1 then i else i + r) && (0 < r ==> (off + tot) % BSIZE == 0)
    requires r == -1 ==> off > size || off + i + n1 > MAXFILE * BSIZE
    requires 0 <= r ==> Stopped(full, s, off + tot, n1 - r, have - tot, q)
    ensures FellShort(full, s, size, off, n, have, tot, q)
  {
    hide Stopped;
    SameChunk(i, if r == -1 then 0 else r);
  }

  lemma WaitsChunk(s0: Slots, group0: set<nat>, s: Slots, group: set<nat>, commits: nat -> bool, off: nat, i: nat)
    requires Waits(s0, group0, s, group, commits, off, i)
    ensures i % MAXCHUNK == 0
  {
  }

  /** filewrite's loop for a regular file: transactions of at most MAXCHUNK bytes.  The
      group is committed between transaction `k` and the next if `commits(k)`;
      otherwise some operation is outstanding all the time.  It returns n, or -1 if a
      writei fell short.  f->off advances by `done`, the bytes that have been written
      (`q` more are in the cache, see WriteI), and `worst` is the largest number of
      blocks a transaction logged.  If disk and log had all of the file, they get
      exactly the `done` bytes if and only if the block where it stopped is not in the
      open commit group, or the `q` bytes are the file's old ones. */
  method FileWrite(fs: FileSystem, inum: nat, off: word, n: int, src: seq<byte>, commits: nat -> bool)
    returns (ret: int, done: nat, ghost q: nat, ghost worst: nat)
    requires fs.Valid() && inum in fs.inodes && inum in fs.slots
    modifies fs
    ensures fs.Valid() && inum in fs.slots && inum in fs.inodes
    ensures OnlyFile(old(fs.S()), old(fs.Saved()), fs.S(), fs.Saved(), inum)
    ensures (ret == n == done && q == 0) || (ret == -1 && (0 <= n ==> done <= n))
    ensures ret == -1 && 0 <= n ==>
      FellShort(fs.Exhausted(), old(fs.slots[inum]), |old(FileContent(fs, inum))|, off, n, |src|, done, q)
    ensures Progress(FileContent(fs, inum), old(FileContent(fs, inum)), off, src, done, q)
    ensures old(Settled(fs.S(), fs.loose, inum)) ==>
      Progress(SavedContent(fs, inum), old(FileContent(fs, inum)), off, src, done,
        if Pending(old(fs.slots[inum]), old(fs.held + fs.logged), commits, off, done) then q else 0)
    ensures old(Settled(fs.S(), fs.loose, inum)) && off <= |old(FileContent(fs, inum))| ==>
      (Exactly(SavedContent(fs, inum), old(FileContent(fs, inum)), off, src, done) <==>
        || !Pending(old(fs.slots[inum]), old(fs.held + fs.logged), commits, off, done)
        || SameBytes(old(FileContent(fs, inum)), off, src, done, q))
    ensures fs.sb.size < Bitmap.BPB ==> worst <= 7
  {
    hide Progress, FileContent, SavedContent, Settled, FileSystem.Valid, FileSystem.Exhausted, Waits,
      Pending, Stopped, SameBytes, Exactly, FellShort, Turn, FileSystem.S, FileSystem.Saved, OnlyFile;
    var i := 0;
    done, q, worst := 0, 0, 0;
    ghost var c, s0, group0 := FileContent(fs, inum), fs.slots[inum], fs.held + fs.logged;
    ghost var tidy := Settled(fs.S(), fs.loose, inum);
    ghost var t0, saved0 := fs.S(), fs.Saved();
    NoProgress(fs, inum, off, src);
    WaitsStart(s0, group0, commits, off);
    while i < n
      invariant fs.Valid() && inum in fs.slots && inum in fs.inodes
      invariant OnlyFile(t0, saved0, fs.S(), fs.Saved(), inum)
      invariant (i <= n || i == 0) && i == done && q == 0
      invariant 0 < i ==> off as int + i <= MAXFILE * BSIZE
      invariant Progress(FileContent(fs, inum), c, off, src, done, q)
      invariant tidy ==> Settled(fs.S(), fs.loose, inum) && Progress(SavedContent(fs, inum), c, off, src, done, 0)
      invariant i < n ==> Waits(s0, group0, fs.slots[inum], fs.held + fs.logged, commits, off, i)
      invariant fs.sb.size < Bitmap.BPB ==> worst <= 7
    {
      ghost var t1, saved1 := fs.S(), fs.Saved();
      ProgressLength(FileContent(fs, inum), c, off, src, i);
      WaitsChunk(s0, group0, fs.slots[inum], fs.held + fs.logged, commits, off, i);
      var n1 := if n - i > MAXCHUNK then MAXCHUNK else n - i;
      var r;
      ghost var tot, logs;
      r, q, tot, logs := WriteNext(fs, inum, off, i, n1, src, commits, c, s0, group0);
      OnlyFileTwice(t0, saved0, t1, saved1, fs.S(), fs.Saved(), inum);
      worst := if worst < logs then logs else worst;
      if r > 0 {
        done := done + r;
      }
      if r != n1 {
        StopsShort(fs.Exhausted(), s0, |c|, off, n, |src|, i, n1, r, tot, q);
        break;
      }
      i := i + r;
    }
    ExactlyCounted(SavedContent(fs, inum), c, off, src, done, q, Pending(s0, group0, commits, off, done), tidy);
    ret := if i == n then n else -1;
  }

  /** Uncounted bytes that are committed: a file of 10000 bytes, 5000 to be written at
      offset 100, and a source that can be read for 3500 bytes only, while another
      operation is outstanding.  The first transaction writes 3072 bytes, the last 100
      of them into block 3, which stays in the open group.  The second counts none but
      leaves 428 in that block, and they go to disk with the group. */
  method UncountedBytes(fs: FileSystem, inum: nat, src: seq<byte>) returns (ret: int, done: nat)
    requires fs.Valid() && inum in fs.inodes && inum in fs.slots && fs.inodes[inum].size == 10000 && |src| == 3500
    requires Settled(fs.S(), fs.loose, inum)
    modifies fs
    ensures ret == -1 && done == 3072
    ensures |SavedContent(fs, inum)| == 10000 && SavedContent(fs, inum)[3172..3600] == src[3072..3500]
  {
    hide MapOk, TreeOk, LooseOk, OthersSame, Settled, ContentOf, Overwrite, SameBytes, Progress;
    ghost var c, s, group := FileContent(fs, inum), fs.slots[inum], fs.held + fs.logged;
    ContentLength(fs.S(), inum);
    SizeHasBlocks(fs.sb, fs.S(), inum);
    ghost var q, worst;
    ret, done, q, worst := FileWrite(fs, inum, 100, 5000, src, _ => false);
    ProgressBytes(FileContent(fs, inum), c, 100, src, done, q);
    StopsAt3072(fs.Exhausted(), s, done, q);
    assert (100 + done) % BSIZE == 100 && Pending(s, group, _ => false, 100, done);
    ProgressBytes(SavedContent(fs, inum), c, 100, src, done, q);
  }

  /** The bytes stored within the old size are all there. */
  lemma ProgressBytes(content: seq<byte>, c: seq<byte>, off: nat, src: seq<byte>, i: nat, q: nat)
    requires Progress(content, c, off, src, i, q) && off <= |c|
    ensures i + q <= |src|
    ensures off + i + q <= |c| ==> |content| == |c| && content[off + i..off + i + q] == src[i..i + q]
  {
  }

  lemma SizeHasBlocks(sb: Super, t: Store, inum: nat)
    requires TreeOk(sb, t) && inum in t.inodes
    ensures inum in t.slots && NoHoles(t.slots[inum], t.inodes[inum].size)
  {
    assert FileOk(t, inum);
  }

  /** Where filewrite stops there. */
  lemma StopsAt3072(full: bool, s: Slots, done: nat, q: nat)
    requires NoHoles(s, 10000) && done <= 3500 && FellShort(full, s, 10000, 100, 5000, 3500, done, q)
    ensures done == 3072 && q == 428
  {
    assert HasBlock(s, (100 + done) / BSIZE);
  }
}
