/** The inode layer's code (kernel/fs.c): balloc, bfree, bmap, itrunc and iupdate on
    one disk.  Each method is a stretch of code that runs under the locks of the
    buffers and the inode it works on. */
module Inodes {
  import opened Blocks
  import opened Bitmap
  import opened Records
  import opened Fs

  /** A changed block has been log_written, and a block that is log_written exists. */
  ghost predicate ChangeLogged(disk: map<nat, Block>, before: set<nat>, disk1: map<nat, Block>, after: set<nat>,
                               c: nat) {
    && (c in disk ==> c in disk1 && (disk1[c] == disk[c] || c in after))
    && (c in after ==> c in before || c in disk1)
  }

  /** All changes from `disk` to `disk1` are in the transaction. */
  ghost predicate Journaled(disk: map<nat, Block>, before: set<nat>, disk1: map<nat, Block>, after: set<nat>) {
    before <= after && forall c {:trigger ChangeLogged(disk, before, disk1, after, c)} ::
      ChangeLogged(disk, before, disk1, after, c)
  }

  lemma JournaledTwice(disk: map<nat, Block>, before: set<nat>, disk1: map<nat, Block>, mid: set<nat>,
                       disk2: map<nat, Block>, after: set<nat>)
    requires Journaled(disk, before, disk1, mid) && Journaled(disk1, mid, disk2, after)
    ensures Journaled(disk, before, disk2, after)
  {
    forall c: nat ensures ChangeLogged(disk, before, disk2, after, c) {
      assert ChangeLogged(disk, before, disk1, mid, c) && ChangeLogged(disk1, mid, disk2, after, c);
    }
  }

  ghost predicate LogOk(sb: Super, before: set<nat>, after: set<nat>, extra: set<nat>, m: nat) {
    m in after ==> m in before || sb.InBitmap(m) || (m in extra && m != 0)
  }

  /** Nothing but bitmap blocks and the blocks in `extra` has been log_written. */
  ghost predicate Logs(sb: Super, before: set<nat>, after: set<nat>, extra: set<nat>) {
    forall m {:trigger LogOk(sb, before, after, extra, m)} :: LogOk(sb, before, after, extra, m)
  }

  lemma LogsTwice(sb: Super, before: set<nat>, mid: set<nat>, after: set<nat>, e1: set<nat>, e2: set<nat>, e: set<nat>)
    requires Logs(sb, before, mid, e1) && Logs(sb, mid, after, e2)
    requires forall m | m != 0 && (m in e1 || m in e2) :: m in e
    ensures Logs(sb, before, after, e)
  {
    forall m: nat ensures LogOk(sb, before, after, e, m) {
      assert LogOk(sb, before, mid, e1, m) && LogOk(sb, mid, after, e2, m);
    }
  }

  lemma LogsOne(sb: Super, logged: set<nat>, b: nat)
    requires b != 0
    ensures Logs(sb, logged, logged + {b}, {b})
  {
  }

  /** Bitmap, inode records and loose blocks. */
  ghost predicate MapOk(sb: Super, disk: map<nat, Block>, used: set<nat>, recs: map<nat, Inode>,
                        loose: map<nat, Block>) {
    && sb.Ok() && BitmapIs(sb, disk, used) && RecordsAre(sb, disk, recs)
    && forall x | x in loose :: sb.datastart <= x < sb.size
  }

  lemma MapFacts(sb: Super, disk: map<nat, Block>, used: set<nat>, recs: map<nat, Inode>, loose: map<nat, Block>)
    requires MapOk(sb, disk, used, recs, loose)
    ensures sb.Ok() && 0 !in loose
    ensures forall b: nat | b < sb.size :: b in disk
    ensures forall b: nat | b < sb.datastart :: b in used
    ensures forall b | b in used :: b < sb.size
  {
  }

  lemma TakeKeepsMap(sb: Super, disk: map<nat, Block>, used: set<nat>, recs: map<nat, Inode>, loose: map<nat, Block>,
                     logged: set<nat>, r: nat)
    requires MapOk(sb, disk, used, recs, loose) && r < sb.size && r !in used
    ensures sb.BBlock(r) in disk && loose - {sb.BBlock(r)} == loose
    ensures var m := sb.BBlock(r);
            var disk1 := disk[m := Mark(disk[m], r)][r := ZeroBlock];
            MapOk(sb, disk1, used + {r}, recs, loose - {r}) && NewBlock(sb, disk, disk1, r)
            && Logs(sb, logged, logged + {m} + {r}, {r})
  {
    var m := sb.BBlock(r);
    assert BitIs(sb, disk, used, r);
    var disk1 := disk[m := Mark(disk[m], r)];
    MarkUses(sb, disk, used, r);
    RecordsFrame(sb, disk, recs, m, Mark(disk[m], r));
    DataWriteKeepsBitmap(sb, disk1, used + {r}, r, ZeroBlock);
    RecordsFrame(sb, disk1, recs, r, ZeroBlock);
  }

  lemma FreeKeepsMap(sb: Super, disk: map<nat, Block>, used: set<nat>, recs: map<nat, Inode>, loose: map<nat, Block>,
                     logged: set<nat>, b: nat)
    requires MapOk(sb, disk, used, recs, loose) && sb.datastart <= b && b in used
    ensures sb.BBlock(b) in disk && loose - {sb.BBlock(b)} == loose && Marked(disk, sb.bmapstart, b)
    ensures var m := sb.BBlock(b);
            var disk1 := disk[m := Unmark(disk[m], b)];
            MapOk(sb, disk1, used - {b}, recs, loose) && SameData(sb, disk, disk1) && Logs(sb, logged, logged + {m}, {})
  {
    var m := sb.BBlock(b);
    assert BitIs(sb, disk, used, b);
    UnmarkFrees(sb, disk, used, b);
    RecordsFrame(sb, disk, recs, m, Unmark(disk[m], b));
  }

  lemma DataKeepsMap(sb: Super, disk: map<nat, Block>, used: set<nat>, recs: map<nat, Inode>, loose: map<nat, Block>,
                     b: nat, blk: Block, loose1: map<nat, Block>)
    requires MapOk(sb, disk, used, recs, loose) && sb.datastart <= b < sb.size && loose1.Keys <= loose.Keys + {b}
    ensures MapOk(sb, disk[b := blk], used, recs, loose1)
  {
    DataWriteKeepsBitmap(sb, disk, used, b, blk);
    RecordsFrame(sb, disk, recs, b, blk);
  }

  lemma RecordKeepsMap(sb: Super, disk: map<nat, Block>, used: set<nat>, recs: map<nat, Inode>, loose: map<nat, Block>,
                       inum: nat, ip: Inode)
    requires MapOk(sb, disk, used, recs, loose) && inum in recs && Storable(ip)
    ensures 0 < sb.IBlock(inum) < sb.datastart && sb.IBlock(inum) in disk && loose - {sb.IBlock(inum)} == loose
    ensures var b := sb.IBlock(inum);
            MapOk(sb, disk[b := PutInode(disk[b], inum % IPB, ip)], used, recs[inum := ip], loose)
  {
    PutRecord(sb, disk, recs, inum, ip);
    IBlockBounds(sb, inum);
    DataWriteKeepsBitmap(sb, disk, used, sb.IBlock(inum), PutInode(disk[sb.IBlock(inum)], inum % IPB, ip));
  }

  lemma UsedSlot(sb: Super, t: Store, inum: nat, k: nat)
    requires TreeBut(sb, t, inum) && inum in t.slots && k < NSLOTS && t.slots[inum][k] != 0
    ensures sb.datastart <= t.slots[inum][k] && t.slots[inum][k] in t.used
  {
    assert SlotOk(t, inum, k) && UsedOk(sb, t, t.slots[inum][k]);
  }

  lemma OwnedBut(sb: Super, t: Store, inum: nat)
    requires TreeBut(sb, t, inum)
    ensures Owned(t)
  {
  }

  lemma OwnedSlot(sb: Super, t: Store, inum: nat, k: nat)
    requires TreeOk(sb, t) && inum in t.slots && k < NSLOTS && t.slots[inum][k] != 0
    ensures t.slots[inum][k] in t.owner && t.owner[t.slots[inum][k]] == Owner(inum, k)
    ensures t.slots[inum][k] in t.disk && sb.datastart <= t.slots[inum][k] && t.slots[inum][k] in t.used
  {
    assert SlotOk(t, inum, k) && UsedOk(sb, t, t.slots[inum][k]);
  }

  lemma AddrsOf(sb: Super, t: Store, inum: nat)
    requires TreeOk(sb, t) && inum in t.inodes
    ensures inum in t.slots && AddrsAre(t.inodes[inum], t.slots[inum])
  {
    assert FileOk(t, inum);
  }

  lemma IndirectEntry(sb: Super, t: Store, inum: nat, j: nat)
    requires TreeOk(sb, t) && inum in t.inodes && inum in t.slots && t.slots[inum][NDIRECT] != 0 && j < NINDIRECT
    ensures t.slots[inum][NDIRECT] in t.disk
      && Word(t.disk[t.slots[inum][NDIRECT]], j) == t.slots[inum][NDIRECT + 1 + j]
  {
    assert FileOk(t, inum) && EntryIs(t.disk[t.slots[inum][NDIRECT]], t.slots[inum], j);
  }

  lemma NoEntries(sb: Super, t: Store, inum: nat, k: nat)
    requires TreeOk(sb, t) && inum in t.inodes && inum in t.slots && t.slots[inum][NDIRECT] == 0 && NDIRECT < k < NSLOTS
    ensures t.slots[inum][k] == 0
  {
    assert FileOk(t, inum);
  }

  lemma GrewFixed(t: Store, u: Store, inum: nat, k: nat, x: nat)
    requires Grew(t, u, inum, k) && inum in t.slots && x < NSLOTS && x != k && x != NDIRECT
    ensures inum in u.slots && u.slots[inum][x] == t.slots[inum][x]
  {
    assert SlotFixed(t, u, inum, k, x) && SlotKept(t, u, inum, inum, x);
  }

  lemma NothingLogged(sb: Super, disk: map<nat, Block>, logged: set<nat>)
    ensures Journaled(disk, logged, disk, logged) && Logs(sb, logged, logged, {})
  {
  }

  /** Storing a block in its buffer and log_writing it.  The blocks in `loose`, whose
      buffers hold changes that were not log_written, count as what is there. */
  lemma LogJournaled(disk: map<nat, Block>, loose: map<nat, Block>, logged: set<nat>, b: nat, blk: Block)
    ensures Journaled(disk + loose, logged, disk[b := blk] + (loose - {b}), logged + {b})
  {
    var d, d1 := disk + loose, disk[b := blk] + (loose - {b});
    forall c: nat ensures ChangeLogged(d, logged, d1, logged + {b}, c) {}
  }

  // ---------- Changes that were not log_written ----------

  /** A block with changes that were not log_written is no metadata and no indirect
      block. */
  ghost predicate LooseAt(sb: Super, loose: map<nat, Block>, owner: map<nat, Owner>, x: nat) {
    x in loose ==> sb.datastart <= x < sb.size && (x in owner ==> owner[x].slot != NDIRECT)
  }

  ghost predicate LooseOk(sb: Super, loose: map<nat, Block>, owner: map<nat, Owner>) {
    forall x {:trigger LooseAt(sb, loose, owner, x)} :: LooseAt(sb, loose, owner, x)
  }

  ghost predicate LooseSame(owner: map<nat, Owner>, owner1: map<nat, Owner>, loose: map<nat, Block>,
                            loose1: map<nat, Block>, x: nat) {
    && (x in loose1 ==> x in loose && loose1[x] == loose[x] && (x in owner1 ==> x in owner))
    && (x in owner && x in loose ==> x in loose1)
  }

  /** Blocks that nobody owned may have been tidied up; those that are now owned have. */
  ghost predicate LooseKept(owner: map<nat, Owner>, owner1: map<nat, Owner>, loose: map<nat, Block>,
                            loose1: map<nat, Block>) {
    forall x {:trigger LooseSame(owner, owner1, loose, loose1, x)} :: LooseSame(owner, owner1, loose, loose1, x)
  }

  lemma LooseKeptNot(owner: map<nat, Owner>, loose: map<nat, Block>)
    ensures LooseKept(owner, owner, loose, loose)
  {
    forall x: nat ensures LooseSame(owner, owner, loose, loose, x) {}
  }

  lemma LooseKeptTwice(t: Store, u: Store, v: Store, inum: nat, k: nat,
                       loose: map<nat, Block>, loose1: map<nat, Block>, loose2: map<nat, Block>)
    requires Grew(t, u, inum, k) && LooseKept(t.owner, u.owner, loose, loose1)
      && LooseKept(u.owner, v.owner, loose1, loose2)
    ensures LooseKept(t.owner, v.owner, loose, loose2)
  {
    forall x: nat ensures LooseSame(t.owner, v.owner, loose, loose2, x) {
      assert LooseSame(t.owner, u.owner, loose, loose1, x) && LooseSame(u.owner, v.owner, loose1, loose2, x);
      assert BlockKept(t, u, inum, x);
    }
  }

  /** The store as it is on disk and in the log. */
  ghost function Durable(t: Store, loose: map<nat, Block>): Store {
    t.(disk := t.disk + loose)
  }

  lemma DurableTree(sb: Super, t: Store, loose: map<nat, Block>)
    requires TreeOk(sb, t) && LooseOk(sb, loose, t.owner)
    ensures TreeOk(sb, Durable(t, loose))
  {
    var u := Durable(t, loose);
    OwnedFrame(t, u);
    forall i: nat ensures FileOk(u, i) {
      assert FileOk(t, i);
      if i in t.inodes {
        assert SlotOk(t, i, NDIRECT) && LooseAt(sb, loose, t.owner, t.slots[i][NDIRECT]);
        EncodesFrame(t.disk, u.disk, t.inodes[i], t.slots[i]);
      }
    }
    forall c: nat ensures UsedOk(sb, u, c) { assert UsedOk(sb, t, c); }
  }

  lemma DurableGrew(t: Store, u: Store, loose: map<nat, Block>, loose1: map<nat, Block>, inum: nat, k: nat)
    requires Grew(t, u, inum, k) && LooseKept(t.owner, u.owner, loose, loose1)
    ensures Grew(Durable(t, loose), Durable(u, loose1), inum, k)
  {
    var t1, u1 := Durable(t, loose), Durable(u, loose1);
    forall i: nat, x: nat ensures SlotKept(t1, u1, inum, i, x) { assert SlotKept(t, u, inum, i, x); }
    forall b: nat ensures BlockKept(t1, u1, inum, b) {
      assert BlockKept(t, u, inum, b) && LooseSame(t.owner, u.owner, loose, loose1, b);
    }
    forall x: nat ensures SlotFixed(t1, u1, inum, k, x) { assert SlotFixed(t, u, inum, k, x); }
    forall b: nat ensures DataKept(t1, u1, inum, b) {
      assert DataKept(t, u, inum, b) && BlockKept(t, u, inum, b) && LooseSame(t.owner, u.owner, loose, loose1, b);
    }
  }

  /** The loose blocks after a store in the buffer of block `b`, which is log_written if
      the store was complete.  A block that is in the open commit group is not loose:
      the group's commit writes what its buffer holds then. */
  ghost function LooseAfter(disk: map<nat, Block>, loose: map<nat, Block>, group: set<nat>, b: nat,
                            complete: bool): map<nat, Block>
    requires b in disk
  {
    if complete then loose - {b} else if b in group then loose else loose[b := (disk + loose)[b]]
  }

  lemma StoreSaved(disk: map<nat, Block>, loose: map<nat, Block>, group: set<nat>, logged: set<nat>, b: nat, blk: Block,
                   complete: bool)
    requires b in disk
    ensures var d, d1 := disk + loose, disk[b := blk] + LooseAfter(disk, loose, group, b, complete);
            && d1 - {b} == d - {b} && (!complete && b !in group ==> d1 == d)
            && Journaled(d, logged, d1, if complete || b in group then logged + {b} else logged)
  {
    var d, d1 := disk + loose, disk[b := blk] + LooseAfter(disk, loose, group, b, complete);
    var l1 := if complete || b in group then logged + {b} else logged;
    forall c: nat ensures ChangeLogged(d, logged, d1, l1, c) {}
  }

  /** A free block that is taken, and zeroed by log_write, is not loose any more; nobody
      owned it. */
  lemma TakenWasLoose(sb: Super, t: Store, loose: map<nat, Block>, b: nat, o: Owner)
    requires TreeOk(sb, t) && LooseOk(sb, loose, t.owner) && b !in t.used
    ensures LooseKept(t.owner, t.owner[b := o], loose, loose - {b}) && LooseOk(sb, loose - {b}, t.owner[b := o])
  {
    var loose1, owner1 := loose - {b}, t.owner[b := o];
    assert UsedOk(sb, t, b);
    forall x: nat ensures LooseSame(t.owner, owner1, loose, loose1, x) {}
    forall x: nat ensures LooseAt(sb, loose1, owner1, x) { assert LooseAt(sb, loose, t.owner, x); }
  }

  lemma IndirectNotLoose(sb: Super, t: Store, loose: map<nat, Block>, inum: nat)
    requires TreeOk(sb, t) && LooseOk(sb, loose, t.owner) && inum in t.slots && t.slots[inum][NDIRECT] != 0
    ensures t.slots[inum][NDIRECT] !in loose
  {
    OwnedSlot(sb, t, inum, NDIRECT);
    assert LooseAt(sb, loose, t.owner, t.slots[inum][NDIRECT]);
  }

  lemma LooseShrinks(sb: Super, loose: map<nat, Block>, owner: map<nat, Owner>, gone: set<nat>)
    requires LooseOk(sb, loose, owner)
    ensures LooseOk(sb, loose, owner - gone)
  {
    var owner1 := owner - gone;
    forall x: nat ensures LooseAt(sb, loose, owner1, x) { assert LooseAt(sb, loose, owner, x); }
  }

  lemma LooseWriteKeeps(sb: Super, t: Store, loose: map<nat, Block>, b: nat, blk: Block)
    requires TreeOk(sb, t) && LooseOk(sb, loose, t.owner) && b in loose
    ensures sb.datastart <= b < sb.size && TreeOk(sb, t.(disk := t.disk[b := blk])) && LooseOk(sb, loose - {b}, t.owner)
  {
    assert LooseAt(sb, loose, t.owner, b);
    if b in t.owner {
      DataWriteKeepsTree(sb, t, b, blk);
    } else {
      FreeWriteKeepsTree(sb, t, b, blk);
    }
    var loose1 := loose - {b};
    forall x: nat ensures LooseAt(sb, loose1, t.owner, x) { assert LooseAt(sb, loose, t.owner, x); }
  }

  lemma StoreKeeps(sb: Super, t: Store, loose: map<nat, Block>, inum: nat, k: nat, b: nat, blk: Block,
                   loose1: map<nat, Block>)
    requires TreeOk(sb, t) && LooseOk(sb, loose, t.owner) && inum in t.slots && k < NSLOTS && k != NDIRECT
    requires b == t.slots[inum][k] != 0 && b < sb.size && loose1.Keys <= loose.Keys + {b}
    requires forall x | x in loose && x != b :: x in loose1 && loose1[x] == loose[x]
    ensures var u := t.(disk := t.disk[b := blk]);
            TreeOk(sb, u) && LooseOk(sb, loose1, t.owner) && FileOnly(t, u, inum)
            && FileOnly(Durable(t, loose), Durable(u, loose1), inum)
  {
    OwnedSlot(sb, t, inum, k);
    DataWriteKeepsTree(sb, t, b, blk);
    forall x: nat ensures LooseAt(sb, loose1, t.owner, x) { assert LooseAt(sb, loose, t.owner, x); }
    var u := t.(disk := t.disk[b := blk]);
    var t1, u1 := Durable(t, loose), Durable(u, loose1);
    forall i: nat, x: nat ensures SlotKept(t, u, inum, i, x) && SlotKept(t1, u1, inum, i, x) {}
    forall c: nat ensures BlockKept(t, u, inum, c) && BlockKept(t1, u1, inum, c) {}
  }

  // ---------- A new file system ----------

  function BlankInode(): (ip: Inode)
    ensures ip == Inode(0, 0, 0, 0, 0, ip.addrs) && |ip.addrs| == NDIRECT + 1
    ensures forall k | 0 <= k <= NDIRECT :: ip.addrs[k] == 0
  {
    Inode(0, 0, 0, 0, 0, seq(NDIRECT + 1, k => 0))
  }

  function NoSlots(): (s: Slots)
    ensures forall k | 0 <= k < NSLOTS :: s[k] == 0
  {
    seq(NSLOTS, k => 0)
  }

  ghost predicate BitBelow(sb: Super, disk: map<nat, Block>, n: nat, b: nat) {
    b < sb.size ==> sb.BBlock(b) in disk && (Marked(disk, sb.bmapstart, b) <==> b < n)
  }

  ghost predicate BlankAt(sb: Super, disk: map<nat, Block>, b: nat) {
    b < sb.size ==> b in disk && (!sb.InBitmap(b) ==> IsZero(disk[b]))
  }

  /** The first `n` blocks are marked and all else is blank. */
  ghost predicate MarkedBelow(sb: Super, disk: map<nat, Block>, n: nat) {
    && (forall b {:trigger BitBelow(sb, disk, n, b)} :: BitBelow(sb, disk, n, b))
    && (forall b {:trigger BlankAt(sb, disk, b)} :: BlankAt(sb, disk, b))
  }

  lemma BlankDisk(sb: Super, disk: map<nat, Block>)
    requires sb.Ok() && forall b: nat | b < sb.size :: b in disk && IsZero(disk[b])
    ensures MarkedBelow(sb, disk, 0)
  {
    forall b: nat ensures BitBelow(sb, disk, 0, b) { ZeroBits(b % 8); }
    forall b: nat ensures BlankAt(sb, disk, b) {}
  }

  lemma MarkNext(sb: Super, disk: map<nat, Block>, n: nat, n1: nat)
    requires sb.Ok() && MarkedBelow(sb, disk, n) && n < sb.datastart && n1 == n + 1
    ensures var m := sb.BBlock(n); m in disk && MarkedBelow(sb, disk[m := Mark(disk[m], n)], n1)
  {
    var m := sb.BBlock(n);
    assert BitBelow(sb, disk, n, n);
    var disk1 := disk[m := Mark(disk[m], n)];
    forall b: nat ensures BitBelow(sb, disk1, n1, b) {
      assert BitBelow(sb, disk, n, b);
      if b / BPB == n / BPB {
        MarkBits(disk[m], n, b);
      }
    }
    forall b: nat ensures BlankAt(sb, disk1, b) { assert BlankAt(sb, disk, b); }
  }

  lemma BlankRecord(b: Block, k: nat)
    requires IsZero(b) && k < IPB
    ensures ReadInode(b, k) == BlankInode()
  {
    forall i: nat | i < NWORDS ensures Word(b, i) == 0 { ZeroWords(b, i); }
    var ip := ReadInode(b, k);
    forall j: nat | j <= NDIRECT ensures ip.addrs[j] == 0 { assert ip.addrs[j] == Word(b, DWORDS * k + 3 + j); }
  }

  lemma FormatOk(sb: Super, disk: map<nat, Block>, used: set<nat>, inodes: map<nat, Inode>, slots: map<nat, Slots>)
    requires sb.Ok() && MarkedBelow(sb, disk, sb.datastart) && (forall b: nat :: b in used <==> b < sb.datastart)
    requires inodes.Keys == slots.Keys
    requires forall i | i in inodes :: i < sb.ninodes && inodes[i] == BlankInode() && slots[i] == NoSlots()
    ensures MapOk(sb, disk, used, inodes, map[]) && TreeOk(sb, Store(disk, used, inodes, slots, map[]))
  {
    forall b: nat | b < sb.size ensures b in disk { assert BlankAt(sb, disk, b); }
    forall b: nat | b < sb.size ensures BitIs(sb, disk, used, b) { assert BitBelow(sb, disk, sb.datastart, b); }
    forall i: nat ensures RecordIs(sb, disk, inodes, i) {
      if i in inodes {
        IBlockBounds(sb, i);
        assert BlankAt(sb, disk, sb.IBlock(i));
        BlankRecord(disk[sb.IBlock(i)], i % IPB);
      }
    }
    var t := Store(disk, used, inodes, slots, map[]);
    forall i: nat, k: nat ensures SlotOk(t, i, k) {}
    forall b: nat ensures OwnerOk(t, b) && UsedOk(sb, t, b) {}
    forall i: nat ensures FileOk(t, i) {}
  }

  /** Same inodes but for one inode's block pointers. */
  ghost predicate SameBut(inodes: map<nat, Inode>, inodes1: map<nat, Inode>, inum: nat) {
    && inodes1.Keys == inodes.Keys
    && (forall i | i in inodes && i != inum :: inodes1[i] == inodes[i])
    && (inum in inodes ==> inodes1[inum] == inodes[inum].(addrs := inodes1[inum].addrs))
  }

  class FileSystem {
    const sb: Super
    var disk: map<nat, Block>
    var inodes: map<nat, Inode>     // in-memory inodes
    ghost var dinodes: map<nat, Inode>   // the inode records in `disk`
    ghost var held: set<nat>             // blocks in the open commit group before this operation
    ghost var logged: set<nat>           // blocks of the group that this operation log_wrote or changed
    ghost var loose: map<nat, Block>     // blocks changed but not in the group: what disk and log have
    ghost var used: set<nat>
    ghost var slots: map<nat, Slots>
    ghost var owner: map<nat, Owner>

    ghost function S(): Store
      reads this`disk, this`used, this`inodes, this`slots, this`owner
    {
      Store(disk, used, inodes, slots, owner)
    }

    /** What disk and log have, once the open commit group is committed. */
    ghost function Saved(): Store
      reads this`disk, this`loose, this`used, this`inodes, this`slots, this`owner
    {
      Durable(S(), loose)
    }

    ghost predicate Mapped()
      reads this`disk, this`used, this`dinodes, this`loose
    {
      MapOk(sb, disk, used, dinodes, loose)
    }

    ghost predicate Valid()
      reads this`disk, this`used, this`inodes, this`slots, this`owner, this`dinodes, this`loose
    {
      Mapped() && TreeOk(sb, S()) && LooseOk(sb, loose, owner) && inodes.Keys <= dinodes.Keys
    }

    /** Valid, but for the encoding of file `inum`. */
    ghost predicate ValidBut(inum: nat)
      reads this`disk, this`used, this`inodes, this`slots, this`owner, this`dinodes, this`loose
    {
      Mapped() && TreeBut(sb, S(), inum) && inum in inodes && inum in slots && LooseOk(sb, loose, owner)
        && inodes.Keys <= dinodes.Keys
    }

    /** No block is free. */
    ghost predicate Exhausted()
      reads this`used
    {
      forall b: nat | b < sb.size :: b in used
    }

    /** A new file system with empty files `inums`, on a disk of zeroed blocks, its
        bitmap made like mkfs's balloc makes it. */
    constructor Format(sb: Super, zeroes: map<nat, Block>, inums: set<nat>)
      requires sb.Ok() && (forall i | i in inums :: i < sb.ninodes)
      requires forall b: nat | b < sb.size :: b in zeroes && IsZero(zeroes[b])
      ensures Valid() && this.sb == sb && inodes.Keys == inums && dinodes == inodes && loose == map[]
        && held == {} && logged == {}
      ensures forall i | i in inums :: inodes[i] == BlankInode() && inodes[i].size == 0
      ensures forall b: nat :: b in used <==> b < sb.datastart
    {
      var d: map<nat, Block>, i := zeroes, 0;
      ghost var marked: set<nat> := {};
      BlankDisk(sb, d);
      while i < sb.datastart
        invariant 0 <= i <= sb.datastart && MarkedBelow(sb, d, i)
        invariant forall b: nat :: b in marked <==> b < i
      {
        MarkNext(sb, d, i, i + 1);
        d := d[sb.BBlock(i) := Mark(d[sb.BBlock(i)], i)];
        marked := marked + {i};
        i := i + 1;
      }
      var blank := map i | i in inums :: BlankInode();
      ghost var none := map i | i in inums :: NoSlots();
      FormatOk(sb, d, marked, blank, none);
      this.sb, disk, inodes, dinodes := sb, d, blank, blank;
      held, logged, loose, used, slots, owner := {}, {}, map[], marked, none, map[];
      new;
      forall x: nat ensures LooseAt(this.sb, loose, owner, x) {}
    }

    /** Store `blk` in the buffer of block `b`, and log_write it. */
    method Put(b: nat, blk: Block)
      modifies this`disk, this`logged, this`loose
      ensures disk == old(disk)[b := blk] && logged == old(logged) + {b} && loose == old(loose) - {b}
      ensures Journaled(old(Saved()).disk, old(logged), Saved().disk, logged)
    {
      LogJournaled(disk, loose, logged, b, blk);
      disk := disk[b := blk];
      logged := logged + {b};
      loose := loose - {b};
    }

    /** The cache recycles the buffer of a block with changes that were not
        log_written; what bread returns is then `blk`, what disk and log have. */
    method Recycle(b: nat, blk: Block)
      requires Valid() && b in loose && blk == loose[b]
      modifies this`disk, this`loose
      ensures Valid() && Saved() == old(Saved()) && loose == old(loose) - {b} && disk == old(disk)[b := blk]
    {
      hide MapOk, TreeOk;
      LooseWriteKeeps(sb, S(), loose, b, blk);
      DataKeepsMap(sb, disk, used, dinodes, loose, b, blk, loose - {b});
      disk := disk[b := blk];
      loose := loose - {b};
      assert Saved().disk == old(Saved()).disk;
    }

    /** balloc's work on the free block it found: mark it, then bzero it. */
    method TakeBlock(r: nat)
      requires Mapped() && r < sb.size && r !in used
      modifies this`disk, this`used, this`logged, this`loose
      ensures Mapped() && used == old(used) + {r} && NewBlock(sb, old(disk), disk, r)
      ensures loose == old(loose) - {r}
      ensures Journaled(old(Saved()).disk, old(logged), Saved().disk, logged) && Logs(sb, old(logged), logged, {r})
    {
      hide MapOk, Journaled, Logs, NewBlock;
      var m := sb.BBlock(r);
      TakeKeepsMap(sb, disk, used, dinodes, loose, logged, r);
      Put(m, Mark(disk[m], r));
      used := used + {r};
      ghost var d1, l1 := Saved().disk, logged;
      Put(r, ZeroBlock);
      JournaledTwice(old(Saved()).disk, old(logged), d1, l1, Saved().disk, logged);
    }

    /** balloc: the first free block, marked and zeroed; 0 if there is none. */
    method BAlloc() returns (r: nat)
      requires Mapped()
      modifies this`disk, this`used, this`logged, this`loose
      ensures Mapped()
      ensures r == 0 ==> Exhausted() && unchanged(this)
      ensures loose == old(loose) - {r}
      ensures r != 0 ==> r < sb.size && r !in old(used) && used == old(used) + {r} && NewBlock(sb, old(disk), disk, r)
      ensures r != 0 ==> forall b: nat | b < r :: b in used
      ensures Journaled(old(Saved()).disk, old(logged), Saved().disk, logged) && Logs(sb, old(logged), logged, {r})
    {
      hide Journaled;
      NothingLogged(sb, Saved().disk, logged);
      var b := 0;
      while b < sb.size
        invariant b % BPB == 0
        invariant forall c: nat | c < b && c < sb.size :: c in used
        invariant unchanged(this)
        decreases sb.size - b
      {
        var bi := 0;
        while bi < BPB && b + bi < sb.size
          invariant 0 <= bi <= BPB
          invariant forall c: nat | c < b + bi && c < sb.size :: c in used
          invariant unchanged(this)
        {
          r := b + bi;
          var m := sb.bmapstart + b / BPB;
          BitIndex(b, bi);
          assert BitIs(sb, disk, used, r);
          if !Bit(disk[m][bi / 8], bi % 8) {
            TakeBlock(r);
            return;
          }
          bi := bi + 1;
        }
        b := b + BPB;
      }
      r := 0;
    }

    /** bfree: clears the block's bit; that it is set is the source's panic check. */
    method BFree(b: nat)
      requires Mapped() && sb.datastart <= b && b in used
      modifies this`disk, this`used, this`logged, this`loose
      ensures Mapped() && used == old(used) - {b} && SameData(sb, old(disk), disk) && loose == old(loose)
      ensures Journaled(old(Saved()).disk, old(logged), Saved().disk, logged) && Logs(sb, old(logged), logged, {})
    {
      hide MapOk, Journaled, Logs, SameData;
      var m := sb.BBlock(b);
      FreeKeepsMap(sb, disk, used, dinodes, loose, logged, b);
      Put(m, Unmark(disk[m], b));
      used := used - {b};
    }

    /** a[j] = addr in the indirect block, and log_write. */
    method StoreEntry(ind: nat, j: nat, addr: nat)
      requires Mapped() && sb.datastart <= ind < sb.size && j < NINDIRECT && addr < sb.size
      modifies this`disk, this`logged, this`loose
      ensures Mapped() && EntrySet(old(disk), disk, ind, j, addr) && loose == old(loose) - {ind}
      ensures Journaled(old(Saved()).disk, old(logged), Saved().disk, logged) && Logs(sb, old(logged), logged, {ind})
    {
      DataKeepsMap(sb, disk, used, dinodes, loose, ind, SetWord(disk[ind], j, addr), loose - {ind});
      Put(ind, SetWord(disk[ind], j, addr));
    }

    /** bmap's allocation for `addrs[k]`, a direct block or the indirect block. */
    method AllocAddr(inum: nat, k: nat) returns (addr: nat)
      requires Valid() && inum in inodes && k <= NDIRECT && slots[inum][k] == 0
      modifies this`disk, this`used, this`logged, this`loose, this`inodes, this`slots, this`owner
      ensures Valid() && Grew(old(S()), S(), inum, k) && SameBut(old(inodes), inodes, inum)
      ensures addr == slots[inum][k]
      ensures k != NDIRECT ==> slots[inum][NDIRECT] == old(slots)[inum][NDIRECT]
      ensures addr == 0 ==> unchanged(this) && Exhausted()
      ensures LooseKept(old(owner), owner, old(loose), loose)
      ensures Journaled(old(Saved()).disk, old(logged), Saved().disk, logged) && Logs(sb, old(logged), logged, {addr})
    {
      hide MapOk, Journaled, Logs, TreeOk, LooseOk, LooseKept, Grew, NewBlock;
      MapFacts(sb, disk, used, dinodes, loose);
      AddrsOf(sb, S(), inum);
      addr := BAlloc();
      if addr == 0 {
        GrewNot(S(), inum, k);
        LooseKeptNot(owner, loose);
        return;
      }
      TakenWasLoose(sb, old(S()), old(loose), addr, Owner(inum, k));
      AllocAddrKeepsTree(sb, old(S()), disk, inum, k, addr);
      AttachTo(inum, k, addr, old(S()));
    }

    /** addrs[k] = addr, for a block that was taken in state `t`. */
    method AttachTo(inum: nat, k: nat, addr: nat, ghost t: Store)
      requires inum in inodes && inum in slots && |inodes[inum].addrs| == NDIRECT + 1 && k <= NDIRECT && addr != 0
      requires S() == t.(disk := disk, used := t.used + {addr})
      modifies this`inodes, this`slots, this`owner
      ensures S() == WithAddr(t, disk, inum, k, addr) && SameBut(old(inodes), inodes, inum)
    {
      inodes := inodes[inum := inodes[inum].(addrs := inodes[inum].addrs[k := addr])];
      slots := slots[inum := slots[inum][k := addr]];
      owner := owner[addr := Owner(inum, k)];
    }

    /** Allocate a block and store its number in the indirect block. */
    method GrowIndirect(ind: nat, j: nat) returns (addr: nat, ghost mid: map<nat, Block>)
      requires Mapped() && ind in used && sb.datastart <= ind && j < NINDIRECT
      modifies this`disk, this`used, this`logged, this`loose
      ensures Mapped()
      ensures addr == 0 ==> unchanged(this) && Exhausted()
      ensures addr != 0 ==> addr !in old(used) && used == old(used) + {addr}
      ensures addr != 0 ==> NewBlock(sb, old(disk), mid, addr) && ind in mid && EntrySet(mid, disk, ind, j, addr)
      ensures addr != 0 ==> loose == old(loose) - {addr} - {ind}
      ensures Journaled(old(Saved()).disk, old(logged), Saved().disk, logged)
        && Logs(sb, old(logged), logged, {ind, addr})
    {
      addr := BAlloc();
      mid := disk;
      ghost var d1, l1 := Saved().disk, logged;
      if addr != 0 {
        StoreEntry(ind, j, addr);
        JournaledTwice(old(Saved()).disk, old(logged), d1, l1, Saved().disk, logged);
      }
      LogsTwice(sb, old(logged), l1, logged, {addr}, {ind}, {ind, addr});
    }

    /** bmap's allocation for entry `j` of the indirect block, which is slot `k`. */
    method AllocEntry(inum: nat, j: nat, ghost k: nat) returns (addr: nat)
      requires Valid() && inum in inodes && j < NINDIRECT && k == NDIRECT + 1 + j
      requires slots[inum][NDIRECT] != 0 && slots[inum][k] == 0
      modifies this`disk, this`used, this`logged, this`loose, this`slots, this`owner
      ensures Valid() && Grew(old(S()), S(), inum, k)
      ensures addr == slots[inum][k] && slots[inum][NDIRECT] == old(slots)[inum][NDIRECT]
      ensures addr == 0 ==> unchanged(this) && Exhausted()
      ensures LooseKept(old(owner), owner, old(loose), loose)
      ensures Journaled(old(Saved()).disk, old(logged), Saved().disk, logged)
        && Logs(sb, old(logged), logged, {slots[inum][NDIRECT], addr})
    {
      hide MapOk, Journaled, Logs, TreeOk, LooseOk, LooseKept, Grew, NewBlock, EntrySet;
      MapFacts(sb, disk, used, dinodes, loose);
      AddrsOf(sb, S(), inum);
      OwnedSlot(sb, S(), inum, NDIRECT);
      IndirectNotLoose(sb, S(), loose, inum);
      var ind := inodes[inum].addrs[NDIRECT];
      ghost var mid;
      addr, mid := GrowIndirect(ind, j);
      if addr == 0 {
        GrewNot(S(), inum, k);
        LooseKeptNot(owner, loose);
        return;
      }
      assert loose == old(loose) - {addr};
      TakenWasLoose(sb, old(S()), old(loose), addr, Owner(inum, k));
      AllocEntryKeepsTree(sb, old(S()), mid, disk, inum, j, k, addr);
      FillSlot(inum, k, addr);
    }

    /** Slot `k` of the file gets block `b`, or becomes empty with b == 0. */
    ghost method FillSlot(inum: nat, k: nat, b: nat)
      requires inum in slots && k < NSLOTS
      modifies this`slots, this`owner
      ensures S() == SetSlot(old(S()), inum, k, b)
    {
      owner := if b == 0 then owner - {slots[inum][k]} else owner[b := Owner(inum, k)];
      slots := slots[inum := slots[inum][k := b]];
    }

    /** bmap for a block beyond the direct ones. */
    method BMapIndirect(inum: nat, bn: nat) returns (addr: nat)
      requires Valid() && inum in inodes && NDIRECT <= bn < MAXFILE
      modifies this`disk, this`used, this`logged, this`loose, this`inodes, this`slots, this`owner
      ensures Valid() && Grew(old(S()), S(), inum, bn + 1) && SameBut(old(inodes), inodes, inum)
      ensures old(slots)[inum][bn + 1] != 0 ==> unchanged(this)
      ensures addr == slots[inum][bn + 1]
      ensures addr == 0 ==> Exhausted()
      ensures LooseKept(old(owner), owner, old(loose), loose)
      ensures Journaled(old(Saved()).disk, old(logged), Saved().disk, logged)
        && Logs(sb, old(logged), logged, {slots[inum][NDIRECT], addr})
    {
      hide MapOk, Journaled, LooseKept, LooseOk, TreeOk, Grew;
      NothingLogged(sb, Saved().disk, logged);
      AddrsOf(sb, S(), inum);
      GrewNot(S(), inum, NDIRECT);
      GrewNot(S(), inum, bn + 1);
      LooseKeptNot(owner, loose);
      var ind := inodes[inum].addrs[NDIRECT];
      if ind == 0 {
        NoEntries(sb, S(), inum, bn + 1);
        ind := AllocAddr(inum, NDIRECT);
        if ind == 0 {
          addr := 0;
          return;
        }
        GrewFixed(old(S()), S(), inum, NDIRECT, bn + 1);
      }
      ghost var t1, l1, loose1, d1 := S(), logged, loose, Saved().disk;
      NothingLogged(sb, d1, l1);
      LooseKeptNot(owner, loose);
      AddrsOf(sb, S(), inum);
      IndirectEntry(sb, S(), inum, bn - NDIRECT);
      addr := Word(disk[ind], bn - NDIRECT);
      if addr == 0 {
        addr := AllocEntry(inum, bn - NDIRECT, bn + 1);
        JournaledTwice(old(Saved()).disk, old(logged), d1, l1, Saved().disk, logged);
      }
      LooseKeptTwice(old(S()), t1, S(), inum, NDIRECT, old(loose), loose1, loose);
      GrewNot(t1, inum, bn + 1);
      GrewTwice(old(S()), t1, S(), inum, bn + 1);
      GrewNot(S(), inum, bn + 1);
      LogsTwice(sb, old(logged), l1, logged, {ind}, {ind, addr}, {ind, addr});
    }

    /** bmap: the disk block of the file's block `bn`, allocated if need be; 0 when
        the disk is full.  A file's block that exists is found without any change. */
    method BMap(inum: nat, bn: nat) returns (addr: nat)
      requires Valid() && inum in inodes && bn < MAXFILE
      modifies this`disk, this`used, this`logged, this`loose, this`inodes, this`slots, this`owner
      ensures Valid() && Grew(old(S()), S(), inum, DataSlot(bn)) && SameBut(old(inodes), inodes, inum)
      ensures old(slots)[inum][DataSlot(bn)] != 0 ==> unchanged(this)
      ensures addr == slots[inum][DataSlot(bn)]
      ensures addr == 0 ==> Exhausted()
      ensures bn < NDIRECT ==> slots[inum][NDIRECT] == old(slots)[inum][NDIRECT]
      ensures LooseKept(old(owner), owner, old(loose), loose)
      ensures Journaled(old(Saved()).disk, old(logged), Saved().disk, logged)
        && Logs(sb, old(logged), logged, {slots[inum][NDIRECT], addr})
    {
      if bn < NDIRECT {
        assert FileOk(S(), inum);
        addr := inodes[inum].addrs[bn];
        if addr == 0 {
          addr := AllocAddr(inum, bn);
        } else {
          GrewNot(S(), inum, bn);
          LooseKeptNot(owner, loose);
        }
        LogsTwice(sb, old(logged), logged, logged, {addr}, {}, {slots[inum][NDIRECT], addr});
      } else {
        addr := BMapIndirect(inum, bn);
      }
    }

    /** Change the buffer of a block of the file's contents, and log_write it if the
        copy into it was complete.  Otherwise disk and log keep what they have,
        unless the block is in the open commit group already. */
    method StoreData(inum: nat, bn: nat, b: nat, blk: Block, complete: bool)
      requires Valid() && inum in slots && bn < MAXFILE && b == slots[inum][DataSlot(bn)] != 0
      modifies this`disk, this`logged, this`loose
      ensures Valid() && disk == old(disk)[b := blk] && FileOnly(old(S()), S(), inum)
      ensures FileOnly(old(Saved()), Saved(), inum)
      ensures logged == if complete || b in held + old(logged) then old(logged) + {b} else old(logged)
      ensures complete ==> loose == old(loose) - {b}
      ensures !complete && b in held + old(logged) ==> loose == old(loose)
      ensures !complete && b !in held + old(logged) ==> Saved().disk == old(Saved()).disk
      ensures Saved().disk - {b} == old(Saved()).disk - {b}
      ensures Journaled(old(Saved()).disk, old(logged), Saved().disk, logged)
    {
      hide MapOk, TreeOk, LooseOk, FileOnly, Journaled;
      OwnedSlot(sb, S(), inum, DataSlot(bn));
      MapFacts(sb, disk, used, dinodes, loose);
      ghost var loose1 := LooseAfter(disk, loose, held + logged, b, complete);
      StoreSaved(disk, loose, held + logged, logged, b, blk, complete);
      DataKeepsMap(sb, disk, used, dinodes, loose, b, blk, loose1);
      StoreKeeps(sb, S(), loose, inum, DataSlot(bn), b, blk, loose1);
      disk := disk[b := blk];
      loose := loose1;
      if complete || b in held + logged {
        logged := logged + {b};
      }
    }

    /** The file's size becomes `size`; all its blocks exist. */
    method SetSize(inum: nat, size: nat)
      requires Valid() && inum in inodes && NoHoles(slots[inum], size)
      modifies this`inodes
      ensures Valid() && inodes == old(inodes)[inum := old(inodes)[inum].(size := size)]
    {
      inodes := inodes[inum := inodes[inum].(size := size)];
      OwnedFrame(old(S()), S());
      forall i: nat ensures FileOk(S(), i) { assert FileOk(old(S()), i); }
      forall b: nat ensures UsedOk(sb, S(), b) { assert UsedOk(sb, old(S()), b); }
    }

    /** iupdate: copy the in-memory inode to its record on disk. */
    method IUpdate(inum: nat)
      requires Mapped() && inum in inodes && inum in dinodes && Storable(inodes[inum])
      modifies this`disk, this`dinodes, this`logged, this`loose
      ensures Mapped() && dinodes == old(dinodes)[inum := inodes[inum]] && loose == old(loose)
      ensures logged == old(logged) + {sb.IBlock(inum)} && 0 < sb.IBlock(inum) < sb.datastart
      ensures disk == old(disk)[sb.IBlock(inum) := disk[sb.IBlock(inum)]]
      ensures Journaled(old(Saved()).disk, old(logged), Saved().disk, logged)
    {
      hide MapOk, Journaled;
      var b := sb.IBlock(inum);
      RecordKeepsMap(sb, disk, used, dinodes, loose, inum, inodes[inum]);
      Put(b, PutInode(disk[b], inum % IPB, inodes[inum]));
      dinodes := dinodes[inum := inodes[inum]];
    }

    /** bfree of the file's block in slot `k`. */
    method FreeSlot(inum: nat, ghost k: nat, b: nat, ghost t: Store, ghost lo: nat, ghost hi: nat, ghost lo1: nat,
                    ghost hi1: nat)
      requires ValidBut(inum) && k < NSLOTS && slots[inum][k] == b != 0
      requires Truncated(sb, t, S(), inum, lo, hi)
      requires forall x: nat | x < NSLOTS :: Gone(x, lo1, hi1) <==> x == k || Gone(x, lo, hi)
      modifies this`disk, this`used, this`logged, this`loose, this`slots, this`owner
      ensures ValidBut(inum) && Truncated(sb, t, S(), inum, lo1, hi1)
      ensures slots == old(slots)[inum := old(slots)[inum][k := 0]]
      ensures loose == old(loose)
      ensures Journaled(old(Saved()).disk, old(logged), Saved().disk, logged) && Logs(sb, old(logged), logged, {})
    {
      hide MapOk, Journaled, Logs, LooseOk, TreeBut, Truncated, SameData, Gone;
      UsedSlot(sb, S(), inum, k);
      BFree(b);
      FreeKeepsTree(sb, old(S()), disk, inum, k);
      OwnedBut(sb, old(S()), inum);
      TruncatedStep(sb, t, old(S()), disk, inum, lo, hi, lo1, hi1, k);
      LooseShrinks(sb, loose, owner, {b});
      FillSlot(inum, k, 0);
    }

    /** addrs[k] = 0, after its block was freed. */
    method ClearAddr(inum: nat, k: nat, ghost t: Store, ghost lo: nat, ghost hi: nat)
      requires ValidBut(inum) && Truncated(sb, t, S(), inum, lo, hi) && k <= NDIRECT && slots[inum][k] == 0
      requires |inodes[inum].addrs| == NDIRECT + 1 && forall x | 0 <= x <= NDIRECT && x != k ::
        inodes[inum].addrs[x] == slots[inum][x]
      modifies this`inodes
      ensures ValidBut(inum) && Truncated(sb, t, S(), inum, lo, hi) && SameBut(old(inodes), inodes, inum)
      ensures AddrsAre(inodes[inum], slots[inum])
    {
      InodeFrame(sb, t, S(), inum, inodes[inum].(addrs := inodes[inum].addrs[k := 0]), lo, hi);
      inodes := inodes[inum := inodes[inum].(addrs := inodes[inum].addrs[k := 0])];
    }

    /** One turn of itrunc's first loop. */
    method FreeAddr(inum: nat, i: nat, i1: nat, ghost t: Store)
      requires ValidBut(inum) && i < NDIRECT && i1 == i + 1 && TreeOk(sb, t) && Truncated(sb, t, S(), inum, i, 0)
        && AddrsAre(inodes[inum], slots[inum])
      modifies this`disk, this`used, this`logged, this`loose, this`slots, this`owner, this`inodes
      ensures ValidBut(inum) && Truncated(sb, t, S(), inum, i1, 0)
      ensures SameBut(old(inodes), inodes, inum) && AddrsAre(inodes[inum], slots[inum])
      ensures Journaled(old(Saved()).disk, old(logged), Saved().disk, logged) && Logs(sb, old(logged), logged, {})
    {
      NothingLogged(sb, Saved().disk, logged);
      var b := inodes[inum].addrs[i];
      if b != 0 {
        FreeSlot(inum, i, b, t, i, 0, i1, 0);
        ClearAddr(inum, i, t, i1, 0);
      } else {
        assert SlotCut(t, S(), inum, i, 0, inum, i);
        TruncatedSkip(sb, t, S(), inum, i, 0, i1, 0);
      }
    }

    /** itrunc's first loop: the direct blocks. */
    method FreeDirect(inum: nat)
      requires Valid() && inum in inodes
      modifies this`disk, this`used, this`logged, this`loose, this`slots, this`owner, this`inodes
      ensures ValidBut(inum) && Truncated(sb, old(S()), S(), inum, NDIRECT, 0)
      ensures SameBut(old(inodes), inodes, inum) && AddrsAre(inodes[inum], slots[inum])
      ensures Journaled(old(Saved()).disk, old(logged), Saved().disk, logged) && Logs(sb, old(logged), logged, {})
    {
      hide Journaled, Logs, Truncated, MapOk, LooseOk;
      NothingLogged(sb, Saved().disk, logged);
      assert FileOk(S(), inum);
      TruncatedNot(sb, S(), inum);
      var i := 0;
      while i < NDIRECT
        invariant 0 <= i <= NDIRECT
        invariant ValidBut(inum) && Truncated(sb, old(S()), S(), inum, i, 0)
        invariant SameBut(old(inodes), inodes, inum) && AddrsAre(inodes[inum], slots[inum])
        invariant Journaled(old(Saved()).disk, old(logged), Saved().disk, logged) && Logs(sb, old(logged), logged, {})
      {
        ghost var d1, l1 := Saved().disk, logged;
        FreeAddr(inum, i, i + 1, old(S()));
        JournaledTwice(old(Saved()).disk, old(logged), d1, l1, Saved().disk, logged);
        LogsTwice(sb, old(logged), l1, logged, {}, {}, {});
        i := i + 1;
      }
    }

    /** itrunc's second loop: the blocks named by the indirect block, whose contents
        are `blk`. */
    method FreeEntries(inum: nat, blk: Block, ghost t: Store)
      requires ValidBut(inum) && Truncated(sb, t, S(), inum, NDIRECT, 0) && inum in t.slots
      requires forall j: nat {:trigger EntryIs(blk, t.slots[inum], j)} :: EntryIs(blk, t.slots[inum], j)
      modifies this`disk, this`used, this`logged, this`loose, this`slots, this`owner
      ensures ValidBut(inum) && Truncated(sb, t, S(), inum, NDIRECT, NSLOTS)
      ensures forall x | 0 <= x <= NDIRECT :: slots[inum][x] == old(slots)[inum][x]
      ensures Journaled(old(Saved()).disk, old(logged), Saved().disk, logged) && Logs(sb, old(logged), logged, {})
    {
      hide MapOk, Journaled, Logs, LooseOk, TreeBut;
      NothingLogged(sb, Saved().disk, logged);
      var j := 0;
      while j < NINDIRECT
        invariant 0 <= j <= NINDIRECT
        invariant ValidBut(inum) && Truncated(sb, t, S(), inum, NDIRECT, if j == 0 then 0 else NDIRECT + 1 + j)
        invariant forall x | 0 <= x <= NDIRECT :: slots[inum][x] == old(slots)[inum][x]
        invariant Journaled(old(Saved()).disk, old(logged), Saved().disk, logged) && Logs(sb, old(logged), logged, {})
      {
        ghost var k := NDIRECT + 1 + j;
        ghost var hi := if j == 0 then 0 else k;
        assert EntryIs(blk, t.slots[inum], j) && SlotCut(t, S(), inum, NDIRECT, hi, inum, k);
        var b := Word(blk, j);
        if b != 0 {
          ghost var d1, l1 := Saved().disk, logged;
          FreeSlot(inum, k, b, t, NDIRECT, hi, NDIRECT, k + 1);
          JournaledTwice(old(Saved()).disk, old(logged), d1, l1, Saved().disk, logged);
          LogsTwice(sb, old(logged), l1, logged, {}, {}, {});
        } else {
          TruncatedSkip(sb, t, S(), inum, NDIRECT, hi, NDIRECT, k + 1);
        }
        j := j + 1;
      }
    }

    /** itrunc's work on the indirect block. */
    method FreeIndirect(inum: nat, ind: nat, ghost t: Store)
      requires ValidBut(inum) && Truncated(sb, t, S(), inum, NDIRECT, 0) && inum in t.slots
        && AddrsAre(inodes[inum], slots[inum])
      requires ind == slots[inum][NDIRECT] != 0 && ind in disk
      requires forall j: nat {:trigger EntryIs(disk[ind], t.slots[inum], j)} :: EntryIs(disk[ind], t.slots[inum], j)
      modifies this`disk, this`used, this`logged, this`loose, this`slots, this`owner, this`inodes
      ensures ValidBut(inum) && Truncated(sb, t, S(), inum, NDIRECT + 1, NSLOTS)
      ensures SameBut(old(inodes), inodes, inum) && AddrsAre(inodes[inum], slots[inum])
      ensures Journaled(old(Saved()).disk, old(logged), Saved().disk, logged) && Logs(sb, old(logged), logged, {})
    {
      FreeEntries(inum, disk[ind], t);
      ghost var d1, l1 := Saved().disk, logged;
      FreeSlot(inum, NDIRECT, ind, t, NDIRECT, NSLOTS, NDIRECT + 1, NSLOTS);
      ClearAddr(inum, NDIRECT, t, NDIRECT + 1, NSLOTS);
      JournaledTwice(old(Saved()).disk, old(logged), d1, l1, Saved().disk, logged);
      LogsTwice(sb, old(logged), l1, logged, {}, {}, {});
    }

    /** itrunc: every block the file owns is freed, each exactly once (bfree demands
        that it is marked), no other block is, and no other file changes. */
    method ITrunc(inum: nat)
      requires Valid() && inum in inodes
      modifies this
      ensures Valid() && inodes.Keys == old(inodes).Keys && inodes[inum].size == 0
      ensures SameInode(old(inodes)[inum], inodes[inum])
      ensures forall k | 0 <= k < NSLOTS :: slots[inum][k] == 0
      ensures forall i | i in inodes && i != inum :: inodes[i] == old(inodes)[i] && slots[i] == old(slots)[i]
      ensures forall b :: b in owner <==> b in old(owner) && old(owner)[b].inum != inum
      ensures forall b :: b in used <==> b in old(used) && (b in old(owner) ==> old(owner)[b].inum != inum)
      ensures SameData(sb, old(disk), disk)
      ensures dinodes == old(dinodes)[inum := inodes[inum]]
      ensures Journaled(old(Saved()).disk, old(logged), Saved().disk, logged)
        && Logs(sb, old(logged), logged, {sb.IBlock(inum)})
    {
      hide Journaled, Logs, Truncated, MapOk, LooseOk;
      MapFacts(sb, disk, used, dinodes, loose);
      FreeDirect(inum);
      ghost var d1, l1 := Saved().disk, logged;
      FreeRest(inum, old(S()));
      JournaledTwice(old(Saved()).disk, old(logged), d1, l1, Saved().disk, logged);
      LogsTwice(sb, old(logged), l1, logged, {}, {}, {});
      FinishTrunc(inum, old(S()), old(Saved()).disk, old(logged));
    }

    /** The rest of itrunc's work on blocks: the indirect block, if there is one. */
    method FreeRest(inum: nat, ghost t: Store)
      requires ValidBut(inum) && TreeOk(sb, t) && inum in t.inodes && Truncated(sb, t, S(), inum, NDIRECT, 0)
        && AddrsAre(inodes[inum], slots[inum])
      modifies this`disk, this`used, this`logged, this`loose, this`slots, this`owner, this`inodes
      ensures ValidBut(inum) && Truncated(sb, t, S(), inum, NDIRECT + 1, NSLOTS)
      ensures SameBut(old(inodes), inodes, inum) && AddrsAre(inodes[inum], slots[inum])
      ensures Journaled(old(Saved()).disk, old(logged), Saved().disk, logged) && Logs(sb, old(logged), logged, {})
    {
      NothingLogged(sb, Saved().disk, logged);
      assert FileOk(t, inum) && SlotCut(t, S(), inum, NDIRECT, 0, inum, NDIRECT);
      var ind := inodes[inum].addrs[NDIRECT];
      if ind != 0 {
        assert SameBlock(sb, t.disk, disk, ind) && SlotOk(t, inum, NDIRECT) && UsedOk(sb, t, ind);
        assert forall j: nat {:trigger EntryIs(disk[ind], t.slots[inum], j)} ::
          EntryIs(t.disk[ind], t.slots[inum], j) ==> EntryIs(disk[ind], t.slots[inum], j);
        FreeIndirect(inum, ind, t);
      } else {
        TruncatedSkip(sb, t, S(), inum, NDIRECT, 0, NDIRECT + 1, NSLOTS);
      }
    }

    /** The end of itrunc: size 0 and iupdate. */
    method FinishTrunc(inum: nat, ghost t: Store, ghost d0: map<nat, Block>, ghost l0: set<nat>)
      requires ValidBut(inum) && AddrsAre(inodes[inum], slots[inum])
      requires TreeOk(sb, t) && Truncated(sb, t, S(), inum, NDIRECT + 1, NSLOTS) && forall b: nat | b < sb.datastart ::
        b in t.used
      requires Journaled(d0, l0, Saved().disk, logged) && Logs(sb, l0, logged, {})
      modifies this`inodes, this`disk, this`dinodes, this`logged, this`loose
      ensures Valid() && inodes == old(inodes)[inum := old(inodes)[inum].(size := 0)]
      ensures forall k | 0 <= k < NSLOTS :: slots[inum][k] == 0
      ensures forall i | i in slots && i != inum :: i in t.slots && slots[i] == t.slots[i]
      ensures forall b :: b in owner <==> b in t.owner && t.owner[b].inum != inum
      ensures forall b :: b in used <==> b in t.used && (b in t.owner ==> t.owner[b].inum != inum)
      ensures SameData(sb, t.disk, disk) && dinodes == old(dinodes)[inum := inodes[inum]]
      ensures Journaled(d0, l0, Saved().disk, logged) && Logs(sb, l0, logged, {sb.IBlock(inum)})
    {
      hide MapOk, Journaled, Logs, TreeOk, TreeBut, Truncated, SameData, LooseOk;
      MapFacts(sb, disk, used, dinodes, loose);
      TruncatedAll(sb, t, S(), inum);
      ghost var d1, l1 := Saved().disk, logged;
      inodes := inodes[inum := inodes[inum].(size := 0)];
      ghost var u := S();
      InodeStorable(sb, u, inum);
      IUpdate(inum);
      JournaledTwice(d0, l0, d1, l1, Saved().disk, logged);
      MetaWriteKeepsTree(sb, u, sb.IBlock(inum), disk[sb.IBlock(inum)]);
      assert S() == u.(disk := disk);
      SameDataMeta(sb, t.disk, u.disk, sb.IBlock(inum), disk[sb.IBlock(inum)]);
      LogsOne(sb, l1, sb.IBlock(inum));
      LogsTwice(sb, l0, l1, logged, {}, {sb.IBlock(inum)}, {sb.IBlock(inum)});
    }
  }
}
