/** The inode layer (kernel/fs.c): block allocation, the direct/indirect block map
    and truncation.

    `disk` is what bread returns for each block.  A panic of the source is a
    precondition here, so verifying a caller shows that it cannot happen. */
module Fs {
  import opened Blocks
  import opened Bitmap
  import opened Records

  const NINDIRECT: nat := 256
  const MAXFILE: nat := NDIRECT + NINDIRECT
  const NSLOTS: nat := MAXFILE + 1

  /** The superblock fields used; blocks below `datastart` hold metadata. */
  datatype Super = Super(size: nat, ninodes: nat, inodestart: nat, bmapstart: nat, datastart: nat) {
    /** Block `m` is part of the bitmap. */
    predicate InBitmap(m: nat) {
      bmapstart <= m <= bmapstart + size / BPB
    }

    /** The bitmap block that holds block `b`'s bit. */
    function BBlock(b: nat): nat {
      bmapstart + b / BPB
    }

    /** The block that holds inode `inum`'s record. */
    function IBlock(inum: nat): nat {
      inum / IPB + inodestart
    }

    ghost predicate Ok() {
      && 0 < datastart <= size <= 0x1_0000_0000
      && bmapstart + size / BPB < datastart
      && 0 < inodestart && inodestart + ninodes / IPB < bmapstart
    }
  }

  /** A file's block pointers: the direct ones, the indirect block, and the
      entries of the indirect block; 0 is no block. */
  type Slots = s: seq<nat> | |s| == NSLOTS witness seq(NSLOTS, i => 0)

  /** The slot of a file's `bn`th block of contents. */
  function DataSlot(bn: nat): nat {
    if bn < NDIRECT then bn else bn + 1
  }

  datatype Owner = Owner(inum: nat, slot: nat)

  /** Disk blocks, the marked blocks, inodes, each inode's slots, and the slot each
      block is in. */
  datatype Store = Store(disk: map<nat, Block>, used: set<nat>, inodes: map<nat, Inode>,
                         slots: map<nat, Slots>, owner: map<nat, Owner>)

  // ---------- Who owns which block ----------

  ghost predicate SlotOk(t: Store, i: nat, k: nat) {
    i in t.slots && k < NSLOTS && t.slots[i][k] != 0 ==>
      t.slots[i][k] in t.owner && t.owner[t.slots[i][k]] == Owner(i, k)
  }

  ghost predicate OwnerOk(t: Store, b: nat) {
    b in t.owner ==>
      b != 0 && t.owner[b].inum in t.slots && t.owner[b].slot < NSLOTS && t.slots[t.owner[b].inum][t.owner[b].slot] == b
  }

  /** `owner` is the inverse of `slots`: no block is in two slots. */
  ghost predicate Owned(t: Store) {
    && (forall i, k {:trigger SlotOk(t, i, k)} :: SlotOk(t, i, k))
    && (forall b {:trigger OwnerOk(t, b)} :: OwnerOk(t, b))
  }

  /** The marked blocks are the metadata blocks and the blocks in some slot. */
  ghost predicate UsedOk(sb: Super, t: Store, b: nat) {
    && (b in t.owner ==> sb.datastart <= b && b in t.used && b in t.disk)
    && (b in t.used ==> b < sb.datastart || b in t.owner)
  }

  ghost predicate EntryIs(blk: Block, s: Slots, j: nat) {
    j < NINDIRECT ==> Word(blk, j) == s[NDIRECT + 1 + j]
  }

  /** The inode's pointers are the first slots. */
  ghost predicate AddrsAre(ip: Inode, s: Slots) {
    |ip.addrs| == NDIRECT + 1 && forall k | 0 <= k <= NDIRECT :: ip.addrs[k] == s[k]
  }

  /** The inode and its indirect block hold exactly these slots. */
  ghost predicate Encodes(disk: map<nat, Block>, ip: Inode, s: Slots) {
    && AddrsAre(ip, s)
    && if s[NDIRECT] == 0 then forall k | NDIRECT < k < NSLOTS :: s[k] == 0
       else s[NDIRECT] in disk && forall j: nat {:trigger EntryIs(disk[s[NDIRECT]], s, j)} ::
         EntryIs(disk[s[NDIRECT]], s, j)
  }

  ghost predicate HasBlock(s: Slots, bn: nat) {
    bn < MAXFILE && s[DataSlot(bn)] != 0
  }

  /** Every block of the file's contents exists. */
  ghost predicate NoHoles(s: Slots, size: nat) {
    size <= MAXFILE * BSIZE && forall bn: nat {:trigger HasBlock(s, bn)} | bn * BSIZE < size :: HasBlock(s, bn)
  }

  ghost predicate FileOk(t: Store, i: nat) {
    i in t.inodes ==> i in t.slots && Encodes(t.disk, t.inodes[i], t.slots[i]) && NoHoles(t.slots[i], t.inodes[i].size)
  }

  /** Everything about files and blocks, except how file `inum` is encoded. */
  ghost predicate TreeBut(sb: Super, t: Store, inum: nat) {
    && Owned(t)
    && t.inodes.Keys == t.slots.Keys
    && (forall i {:trigger FileOk(t, i)} | i != inum :: FileOk(t, i))
    && (forall b {:trigger UsedOk(sb, t, b)} :: UsedOk(sb, t, b))
  }

  ghost predicate TreeOk(sb: Super, t: Store) {
    && Owned(t)
    && t.inodes.Keys == t.slots.Keys
    && (forall i {:trigger FileOk(t, i)} :: FileOk(t, i))
    && (forall b {:trigger UsedOk(sb, t, b)} :: UsedOk(sb, t, b))
  }

  /** Put block `b` in slot `k` of file `i`, or empty the slot with b == 0. */
  function SetSlot(t: Store, i: nat, k: nat, b: nat): Store
    requires i in t.slots && k < NSLOTS
  {
    t.(slots := t.slots[i := t.slots[i][k := b]],
       owner := if b == 0 then t.owner - {t.slots[i][k]} else t.owner[b := Owner(i, k)])
  }

  lemma AttachOwned(t: Store, i: nat, k: nat, b: nat)
    requires Owned(t) && i in t.slots && k < NSLOTS && t.slots[i][k] == 0 && b != 0 && b !in t.owner
    ensures Owned(SetSlot(t, i, k, b))
  {
    var u := SetSlot(t, i, k, b);
    forall j: nat, x: nat ensures SlotOk(u, j, x) { assert SlotOk(t, j, x); }
    forall c: nat ensures OwnerOk(u, c) { assert OwnerOk(t, c); }
  }

  lemma DetachOwned(t: Store, i: nat, k: nat)
    requires Owned(t) && i in t.slots && k < NSLOTS && t.slots[i][k] != 0
    ensures t.slots[i][k] in t.owner && Owned(SetSlot(t, i, k, 0))
  {
    var u := SetSlot(t, i, k, 0);
    assert SlotOk(t, i, k);
    forall j: nat, x: nat ensures SlotOk(u, j, x) { assert SlotOk(t, j, x); }
    forall c: nat ensures OwnerOk(u, c) { assert OwnerOk(t, c); }
  }

  /** Owned depends on slots and owner only. */
  lemma OwnedFrame(t: Store, u: Store)
    requires Owned(t) && u.slots == t.slots && u.owner == t.owner
    ensures Owned(u)
  {
    forall j: nat, x: nat ensures SlotOk(u, j, x) { assert SlotOk(t, j, x); }
    forall c: nat ensures OwnerOk(u, c) { assert OwnerOk(t, c); }
  }

  // ---------- The bitmap ----------

  /** Where balloc's loops look for the bit of block b + bi. */
  lemma BitIndex(b: nat, bi: nat)
    requires b % BPB == 0 && bi < BPB
    ensures (b + bi) / BPB == b / BPB && (b + bi) % BPB == bi && (b + bi) % 8 == bi % 8
  {
  }

  /** Block `b`'s bit is set exactly when it is in `used`. */
  ghost predicate BitIs(sb: Super, disk: map<nat, Block>, used: set<nat>, b: nat) {
    sb.bmapstart + b / BPB in disk && (Marked(disk, sb.bmapstart, b) <==> b in used)
  }

  /** `used` is the set of blocks whose bit is set; metadata blocks are among them. */
  ghost predicate BitmapIs(sb: Super, disk: map<nat, Block>, used: set<nat>) {
    && (forall b: nat | b < sb.size :: b in disk)
    && (forall b | b in used :: b < sb.size)
    && (forall b: nat | b < sb.datastart :: b in used)
    && (forall b: nat {:trigger BitIs(sb, disk, used, b)} | b < sb.size :: BitIs(sb, disk, used, b))
  }

  lemma MarkUses(sb: Super, disk: map<nat, Block>, used: set<nat>, b: nat)
    requires sb.Ok() && BitmapIs(sb, disk, used) && b < sb.size
    ensures var m := sb.bmapstart + b / BPB;
            BitmapIs(sb, disk[m := Mark(disk[m], b)], used + {b})
  {
    var m := sb.bmapstart + b / BPB;
    var disk1 := disk[m := Mark(disk[m], b)];
    forall c: nat | c < sb.size
      ensures BitIs(sb, disk1, used + {b}, c)
    {
      assert BitIs(sb, disk, used, c);
      if c / BPB == b / BPB {
        MarkBits(disk[m], b, c);
      }
    }
  }

  lemma UnmarkFrees(sb: Super, disk: map<nat, Block>, used: set<nat>, b: nat)
    requires sb.Ok() && BitmapIs(sb, disk, used) && sb.datastart <= b < sb.size
    ensures var m := sb.bmapstart + b / BPB;
            BitmapIs(sb, disk[m := Unmark(disk[m], b)], used - {b})
  {
    var m := sb.bmapstart + b / BPB;
    var disk1 := disk[m := Unmark(disk[m], b)];
    forall c: nat | c < sb.size
      ensures BitIs(sb, disk1, used - {b}, c)
    {
      assert BitIs(sb, disk, used, c);
      if c / BPB == b / BPB {
        MarkBits(disk[m], b, c);
      }
    }
  }

  /** Writing a block outside the bitmap leaves the bitmap as it is. */
  lemma DataWriteKeepsBitmap(sb: Super, disk: map<nat, Block>, used: set<nat>, b: nat, blk: Block)
    requires sb.Ok() && BitmapIs(sb, disk, used) && (b < sb.bmapstart || sb.datastart <= b)
    ensures BitmapIs(sb, disk[b := blk], used)
  {
    var disk1 := disk[b := blk];
    forall c: nat | c < sb.size
      ensures BitIs(sb, disk1, used, c)
    {
      assert BitIs(sb, disk, used, c);
    }
  }

  // ---------- Inode records ----------

  /** Inode `i`'s record on disk is `recs[i]`. */
  ghost predicate RecordIs(sb: Super, disk: map<nat, Block>, recs: map<nat, Inode>, i: nat) {
    i in recs ==>
      && i < sb.ninodes && sb.IBlock(i) in disk
      && ReadInode(disk[sb.IBlock(i)], i % IPB) == recs[i]
  }

  ghost predicate RecordsAre(sb: Super, disk: map<nat, Block>, recs: map<nat, Inode>) {
    forall i: nat {:trigger RecordIs(sb, disk, recs, i)} :: RecordIs(sb, disk, recs, i)
  }

  lemma IBlockBounds(sb: Super, i: nat)
    requires sb.Ok() && i < sb.ninodes
    ensures sb.inodestart <= sb.IBlock(i) < sb.bmapstart < sb.datastart
  {
  }

  /** Records do not change when bitmap and data blocks do. */
  lemma RecordsFrame(sb: Super, disk: map<nat, Block>, recs: map<nat, Inode>, b: nat, blk: Block)
    requires sb.Ok() && RecordsAre(sb, disk, recs) && sb.bmapstart <= b
    ensures RecordsAre(sb, disk[b := blk], recs)
  {
    var disk1 := disk[b := blk];
    forall i: nat ensures RecordIs(sb, disk1, recs, i) {
      assert RecordIs(sb, disk, recs, i);
      if i in recs {
        IBlockBounds(sb, i);
      }
    }
  }

  lemma SamePlace(i: nat, j: nat)
    requires i / IPB == j / IPB && i % IPB == j % IPB
    ensures i == j
  {
  }

  /** iupdate changes one record. */
  lemma PutRecord(sb: Super, disk: map<nat, Block>, recs: map<nat, Inode>, inum: nat, ip: Inode)
    requires sb.Ok() && RecordsAre(sb, disk, recs) && inum in recs && Storable(ip)
    ensures inum < sb.ninodes && sb.IBlock(inum) in disk
    ensures RecordsAre(sb, disk[sb.IBlock(inum) := PutInode(disk[sb.IBlock(inum)], inum % IPB, ip)], recs[inum := ip])
  {
    assert RecordIs(sb, disk, recs, inum);
    var b := sb.IBlock(inum);
    var disk1, recs1 := disk[b := PutInode(disk[b], inum % IPB, ip)], recs[inum := ip];
    forall i: nat ensures RecordIs(sb, disk1, recs1, i) {
      assert RecordIs(sb, disk, recs, i);
      if i in recs && sb.IBlock(i) == b {
        PutInodeReads(disk[b], inum % IPB, ip, i % IPB);
        if i % IPB == inum % IPB {
          SamePlace(i, inum);
        }
      }
    }
  }

  // ---------- Steps of bmap and itrunc on the block tree ----------

  /** Data block `c` is as it was. */
  ghost predicate SameBlock(sb: Super, disk: map<nat, Block>, disk1: map<nat, Block>, c: nat) {
    c in disk && sb.datastart <= c ==> c in disk1 && disk1[c] == disk[c]
  }

  /** balloc's changes, as seen by the files: `b` is zeroed, and otherwise only
      metadata blocks change. */
  ghost predicate NewBlock(sb: Super, disk: map<nat, Block>, disk1: map<nat, Block>, b: nat) {
    && sb.datastart <= b && b in disk1 && IsZero(disk1[b])
    && forall c {:trigger SameBlock(sb, disk, disk1, c)} | c != b :: SameBlock(sb, disk, disk1, c)
  }

  /** bfree's changes, as seen by the files: only metadata blocks change. */
  ghost predicate SameData(sb: Super, disk: map<nat, Block>, disk1: map<nat, Block>) {
    forall c {:trigger SameBlock(sb, disk, disk1, c)} :: SameBlock(sb, disk, disk1, c)
  }

  lemma SameDataMeta(sb: Super, disk: map<nat, Block>, disk1: map<nat, Block>, b: nat, blk: Block)
    requires SameData(sb, disk, disk1) && b < sb.datastart
    ensures SameData(sb, disk, disk1[b := blk])
  {
    var disk2 := disk1[b := blk];
    forall c: nat ensures SameBlock(sb, disk, disk2, c) { assert SameBlock(sb, disk, disk1, c); }
  }

  /** Entry `j` of block `ind`, seen as an array of uints, becomes `b`. */
  ghost predicate EntrySet(disk: map<nat, Block>, disk1: map<nat, Block>, ind: nat, j: nat, b: nat)
    requires ind in disk && j < NINDIRECT
  {
    && ind in disk1 && disk1 == disk[ind := disk1[ind]]
    && Word(disk1[ind], j) == b
    && forall k | 0 <= k < NINDIRECT && k != j :: Word(disk1[ind], k) == Word(disk[ind], k)
  }

  /** An inode's encoding depends on the disk only through its indirect block. */
  lemma EncodesFrame(disk: map<nat, Block>, disk1: map<nat, Block>, ip: Inode, s: Slots)
    requires Encodes(disk, ip, s)
    requires s[NDIRECT] != 0 ==> s[NDIRECT] in disk1 && disk1[s[NDIRECT]] == disk[s[NDIRECT]]
    ensures Encodes(disk1, ip, s)
  {
    if s[NDIRECT] != 0 {
      forall j: nat ensures EntryIs(disk1[s[NDIRECT]], s, j) { assert EntryIs(disk[s[NDIRECT]], s, j); }
    }
  }

  /** A fresh zeroed block attached to an empty inode slot. */
  lemma AttachAddr(disk: map<nat, Block>, ip: Inode, s: Slots, k: nat, b: nat)
    requires Encodes(disk, ip, s) && k <= NDIRECT && s[k] == 0 && b != 0 && b in disk && IsZero(disk[b])
    ensures Encodes(disk, ip.(addrs := ip.addrs[k := b]), s[k := b])
  {
    var s1 := s[k := b];
    if s1[NDIRECT] != 0 {
      var blk := disk[s1[NDIRECT]];
      forall j: nat
        ensures EntryIs(blk, s1, j)
      {
        if k != NDIRECT {
          assert EntryIs(blk, s, j);
        } else if j < NINDIRECT {
          ZeroWords(blk, j);
        }
      }
    }
  }

  lemma AttachEntry(disk: map<nat, Block>, disk1: map<nat, Block>, ip: Inode, s: Slots, j: nat, b: nat)
    requires Encodes(disk, ip, s) && s[NDIRECT] != 0 && j < NINDIRECT && EntrySet(disk, disk1, s[NDIRECT], j, b)
    ensures Encodes(disk1, ip, s[NDIRECT + 1 + j := b])
  {
    var ind := s[NDIRECT];
    var s1 := s[NDIRECT + 1 + j := b];
    forall x: nat
      ensures EntryIs(disk1[ind], s1, x)
    {
      assert EntryIs(disk[ind], s, x);
    }
  }

  /** Every file stays encoded when the data blocks it owns keep their contents. */
  lemma FileFrame(sb: Super, t: Store, disk1: map<nat, Block>, used1: set<nat>, i: nat)
    requires TreeOk(sb, t) && (forall b: nat | b in t.owner && t.owner[b].inum == i :: SameBlock(sb, t.disk, disk1, b))
    ensures FileOk(t.(disk := disk1, used := used1), i)
  {
    assert FileOk(t, i);
    if i in t.inodes {
      var ind := t.slots[i][NDIRECT];
      if ind != 0 {
        assert SlotOk(t, i, NDIRECT) && UsedOk(sb, t, ind) && SameBlock(sb, t.disk, disk1, ind);
      }
      EncodesFrame(t.disk, disk1, t.inodes[i], t.slots[i]);
    }
  }

  /** A slot of the file, once filled, stays; slots of other files do not change. */
  ghost predicate SlotKept(t: Store, u: Store, inum: nat, i: nat, x: nat) {
    i in t.slots && x < NSLOTS && (i != inum || t.slots[i][x] != 0) ==> i in u.slots && u.slots[i][x] == t.slots[i][x]
  }

  /** A block stays where it is; one of another file also keeps its contents. */
  ghost predicate BlockKept(t: Store, u: Store, inum: nat, b: nat) {
    b in t.owner ==>
      && b in u.owner && u.owner[b] == t.owner[b]
      && (t.owner[b].inum != inum && b in t.disk ==> b in u.disk && u.disk[b] == t.disk[b])
  }

  /** Between `t` and `u` only file `inum` has changed, and it lost no block. */
  ghost predicate FileOnly(t: Store, u: Store, inum: nat) {
    && u.slots.Keys == t.slots.Keys
    && (forall i, x {:trigger SlotKept(t, u, inum, i, x)} :: SlotKept(t, u, inum, i, x))
    && (forall b {:trigger BlockKept(t, u, inum, b)} :: BlockKept(t, u, inum, b))
  }

  ghost predicate SlotFixed(t: Store, u: Store, inum: nat, k: nat, x: nat) {
    inum in t.slots && inum in u.slots && x < NSLOTS && x != k && x != NDIRECT ==> u.slots[inum][x] == t.slots[inum][x]
  }

  ghost predicate DataKept(t: Store, u: Store, inum: nat, b: nat) {
    b in t.owner && t.owner[b].inum == inum && t.owner[b].slot != NDIRECT && b in t.disk ==>
      b in u.disk && u.disk[b] == t.disk[b]
  }

  /** What bmap may do for slot `k` of a file: this slot and the indirect block can
      go from empty to a fresh block, and only the indirect block is written. */
  ghost predicate Grew(t: Store, u: Store, inum: nat, k: nat) {
    && FileOnly(t, u, inum)
    && (forall x {:trigger SlotFixed(t, u, inum, k, x)} :: SlotFixed(t, u, inum, k, x))
    && (forall b {:trigger DataKept(t, u, inum, b)} :: DataKept(t, u, inum, b))
  }

  lemma FileOnlyTwice(t: Store, u: Store, v: Store, inum: nat)
    requires FileOnly(t, u, inum) && FileOnly(u, v, inum)
    ensures FileOnly(t, v, inum)
  {
    forall i: nat, x: nat ensures SlotKept(t, v, inum, i, x) {
      assert SlotKept(t, u, inum, i, x) && SlotKept(u, v, inum, i, x);
    }
    forall b: nat ensures BlockKept(t, v, inum, b) {
      assert BlockKept(t, u, inum, b) && BlockKept(u, v, inum, b);
    }
  }

  lemma GrewTwice(t: Store, u: Store, v: Store, inum: nat, k: nat)
    requires Grew(t, u, inum, NDIRECT) && Grew(u, v, inum, k)
    ensures Grew(t, v, inum, k)
  {
    FileOnlyTwice(t, u, v, inum);
    forall x: nat ensures SlotFixed(t, v, inum, k, x) {
      assert SlotFixed(t, u, inum, NDIRECT, x) && SlotFixed(u, v, inum, k, x);
    }
    forall b: nat ensures DataKept(t, v, inum, b) {
      assert DataKept(t, u, inum, b) && DataKept(u, v, inum, b) && BlockKept(t, u, inum, b);
    }
  }

  lemma GrewNot(t: Store, inum: nat, k: nat)
    ensures Grew(t, t, inum, k)
  {
    forall i: nat, x: nat ensures SlotKept(t, t, inum, i, x) {}
    forall b: nat ensures BlockKept(t, t, inum, b) {}
    forall x: nat ensures SlotFixed(t, t, inum, k, x) {}
    forall b: nat ensures DataKept(t, t, inum, b) {}
  }

  /** A fresh block in an empty slot: nothing else moves. */
  lemma AttachGrew(t: Store, u: Store, inum: nat, k: nat, b: nat)
    requires inum in t.slots && k < NSLOTS && t.slots[inum][k] == 0 && b != 0 && b !in t.owner
    requires u.slots == t.slots[inum := t.slots[inum][k := b]] && u.owner == t.owner[b := Owner(inum, k)]
    requires forall c: nat | c in t.owner && c in t.disk && t.owner[c] != Owner(inum, NDIRECT) ::
      c in u.disk && u.disk[c] == t.disk[c]
    ensures Grew(t, u, inum, k)
  {
    forall i: nat, x: nat ensures SlotKept(t, u, inum, i, x) {}
    forall c: nat ensures BlockKept(t, u, inum, c) {}
    forall x: nat ensures SlotFixed(t, u, inum, k, x) {}
    forall c: nat ensures DataKept(t, u, inum, c) {}
  }

  /** The store after a block was allocated and attached to `addrs[k]`. */
  function WithAddr(t: Store, disk1: map<nat, Block>, inum: nat, k: nat, b: nat): Store
    requires inum in t.slots && inum in t.inodes && |t.inodes[inum].addrs| == NDIRECT + 1 && k <= NDIRECT
  {
    SetSlot(t.(disk := disk1, used := t.used + {b},
               inodes := t.inodes[inum := t.inodes[inum].(addrs := t.inodes[inum].addrs[k := b])]), inum, k, b)
  }

  lemma AllocAddrKeepsTree(sb: Super, t: Store, disk1: map<nat, Block>, inum: nat, k: nat, b: nat)
    requires 0 < sb.datastart && TreeOk(sb, t) && NewBlock(sb, t.disk, disk1, b) && b !in t.used
    requires inum in t.inodes && k <= NDIRECT && t.slots[inum][k] == 0
    ensures |t.inodes[inum].addrs| == NDIRECT + 1
    ensures TreeOk(sb, WithAddr(t, disk1, inum, k, b)) && Grew(t, WithAddr(t, disk1, inum, k, b), inum, k)
  {
    assert FileOk(t, inum) && UsedOk(sb, t, b);
    var u0 := t.(disk := disk1, used := t.used + {b});
    var u := WithAddr(t, disk1, inum, k, b);
    forall c: nat | c in t.owner ensures SameBlock(sb, t.disk, disk1, c) && c != b && c in t.disk && c in disk1
      && disk1[c] == t.disk[c] {
      assert UsedOk(sb, t, c);
    }
    AttachOwned(t, inum, k, b);
    OwnedFrame(SetSlot(t, inum, k, b), u);
    AttachGrew(t, u, inum, k, b);
    forall i: nat ensures FileOk(u, i) {
      FileFrame(sb, t, disk1, u0.used, i);
      if i == inum {
        AttachAddr(disk1, t.inodes[inum], t.slots[inum], k, b);
        NoHolesGrow(t.slots[inum], k, b, t.inodes[inum].size);
      } else {
        assert FileOk(u0, i);
      }
    }
    forall c: nat ensures UsedOk(sb, u, c) { assert UsedOk(sb, t, c); }
  }

  lemma NoHolesGrow(s: Slots, k: nat, b: nat, size: nat)
    requires NoHoles(s, size) && k < NSLOTS && b != 0
    ensures NoHoles(s[k := b], size)
  {
    forall bn: nat | bn * BSIZE < size ensures HasBlock(s[k := b], bn) { assert HasBlock(s, bn); }
  }

  /** The store after a block was allocated and its number stored in entry `j` of
      the indirect block, which is slot `k`. */
  function WithEntry(t: Store, disk2: map<nat, Block>, inum: nat, k: nat, b: nat): Store
    requires inum in t.slots && k < NSLOTS
  {
    SetSlot(t.(disk := disk2, used := t.used + {b}), inum, k, b)
  }

  lemma AllocEntryKeepsTree(sb: Super, t: Store, disk1: map<nat, Block>, disk2: map<nat, Block>, inum: nat, j: nat,
                            k: nat, b: nat)
    requires 0 < sb.datastart && TreeOk(sb, t) && NewBlock(sb, t.disk, disk1, b) && b !in t.used
    requires inum in t.inodes && j < NINDIRECT && k == NDIRECT + 1 + j && t.slots[inum][NDIRECT] != 0
      && t.slots[inum][k] == 0
    requires t.slots[inum][NDIRECT] in disk1 && EntrySet(disk1, disk2, t.slots[inum][NDIRECT], j, b)
    ensures TreeOk(sb, WithEntry(t, disk2, inum, k, b)) && Grew(t, WithEntry(t, disk2, inum, k, b), inum, k)
  {
    var ind := t.slots[inum][NDIRECT];
    assert FileOk(t, inum) && UsedOk(sb, t, b) && SlotOk(t, inum, NDIRECT);
    assert UsedOk(sb, t, ind) && SameBlock(sb, t.disk, disk1, ind);
    var u := WithEntry(t, disk2, inum, k, b);
    forall c: nat | c in t.owner && c != ind ensures SameBlock(sb, t.disk, disk2, c) && c != b && c in t.disk
      && c in disk2 && disk2[c] == t.disk[c] {
      assert UsedOk(sb, t, c) && SameBlock(sb, t.disk, disk1, c);
    }
    AttachOwned(t, inum, k, b);
    OwnedFrame(SetSlot(t, inum, k, b), u);
    AttachGrew(t, u, inum, k, b);
    forall i: nat ensures FileOk(u, i) {
      if i == inum {
        EncodesFrame(t.disk, disk1, t.inodes[inum], t.slots[inum]);
        AttachEntry(disk1, disk2, t.inodes[inum], t.slots[inum], j, b);
        NoHolesGrow(t.slots[inum], k, b, t.inodes[inum].size);
      } else {
        FileFrame(sb, t, disk2, u.used, i);
        assert FileOk(t.(disk := disk2, used := u.used), i);
      }
    }
    forall c: nat ensures UsedOk(sb, u, c) { assert UsedOk(sb, t, c); }
  }

  /** The block tree does not depend on metadata blocks. */
  lemma MetaWriteKeepsTree(sb: Super, t: Store, b: nat, blk: Block)
    requires TreeOk(sb, t) && b < sb.datastart
    ensures TreeOk(sb, t.(disk := t.disk[b := blk]))
  {
    var u := t.(disk := t.disk[b := blk]);
    OwnedFrame(t, u);
    forall i: nat ensures FileOk(u, i) {
      forall c: nat | c in t.owner && t.owner[c].inum == i ensures SameBlock(sb, t.disk, u.disk, c) {}
      FileFrame(sb, t, u.disk, t.used, i);
    }
    forall c: nat ensures UsedOk(sb, u, c) { assert UsedOk(sb, t, c); }
  }

  /** Nor on free blocks. */
  lemma FreeWriteKeepsTree(sb: Super, t: Store, b: nat, blk: Block)
    requires TreeOk(sb, t) && b !in t.owner
    ensures TreeOk(sb, t.(disk := t.disk[b := blk]))
  {
    var u := t.(disk := t.disk[b := blk]);
    OwnedFrame(t, u);
    forall i: nat ensures FileOk(u, i) {
      forall c: nat | c in t.owner && t.owner[c].inum == i ensures SameBlock(sb, t.disk, u.disk, c) {}
      FileFrame(sb, t, u.disk, t.used, i);
    }
    forall c: nat ensures UsedOk(sb, u, c) { assert UsedOk(sb, t, c); }
  }

  /** A file's inode fits in its record. */
  lemma InodeStorable(sb: Super, t: Store, i: nat)
    requires sb.Ok() && TreeOk(sb, t) && i in t.inodes && forall b | b in t.used :: b < sb.size
    ensures Storable(t.inodes[i])
  {
    assert FileOk(t, i);
    forall k | 0 <= k <= NDIRECT ensures t.inodes[i].addrs[k] < 0x1_0000_0000 {
      assert SlotOk(t, i, k) && UsedOk(sb, t, t.slots[i][k]);
    }
  }

  /** Writing a block of a file's contents. */
  lemma DataWriteKeepsTree(sb: Super, t: Store, b: nat, blk: Block)
    requires TreeOk(sb, t) && b in t.owner && t.owner[b].slot != NDIRECT
    ensures TreeOk(sb, t.(disk := t.disk[b := blk]))
  {
    var u := t.(disk := t.disk[b := blk]);
    OwnedFrame(t, u);
    forall i: nat ensures FileOk(u, i) {
      assert FileOk(t, i);
      if i in t.inodes {
        assert SlotOk(t, i, NDIRECT);
        EncodesFrame(t.disk, u.disk, t.inodes[i], t.slots[i]);
      }
    }
    forall c: nat ensures UsedOk(sb, u, c) { assert UsedOk(sb, t, c); }
  }

  // ---------- itrunc ----------

  predicate Gone(x: nat, lo: nat, hi: nat) {
    x < lo || NDIRECT < x < hi
  }

  ghost predicate SlotCut(t: Store, u: Store, inum: nat, lo: nat, hi: nat, i: nat, x: nat) {
    i in t.slots && x < NSLOTS ==>
      i in u.slots && u.slots[i][x] == if i == inum && Gone(x, lo, hi) then 0 else t.slots[i][x]
  }

  ghost predicate OwnerCut(t: Store, u: Store, inum: nat, b: nat) {
    && (b in u.owner ==> b in t.owner && u.owner[b] == t.owner[b])
    && (b in t.owner && b !in u.owner ==> t.owner[b].inum == inum)
  }

  /** What itrunc has done so far: the file's slots below `lo`, and its indirect
      entries below slot `hi`, are free and everything else is untouched; no data or
      indirect block has been written. */
  ghost predicate Truncated(sb: Super, t: Store, u: Store, inum: nat, lo: nat, hi: nat) {
    && u.slots.Keys == t.slots.Keys
    && (forall i, x {:trigger SlotCut(t, u, inum, lo, hi, i, x)} :: SlotCut(t, u, inum, lo, hi, i, x))
    && (forall b {:trigger OwnerCut(t, u, inum, b)} :: OwnerCut(t, u, inum, b))
    && SameData(sb, t.disk, u.disk)
  }

  lemma FreeKeepsTree(sb: Super, t: Store, disk1: map<nat, Block>, inum: nat, k: nat)
    requires TreeBut(sb, t, inum) && inum in t.slots && k < NSLOTS && t.slots[inum][k] != 0
      && SameData(sb, t.disk, disk1)
    ensures TreeBut(sb, SetSlot(t.(disk := disk1, used := t.used - {t.slots[inum][k]}), inum, k, 0), inum)
  {
    var u := SetSlot(t.(disk := disk1, used := t.used - {t.slots[inum][k]}), inum, k, 0);
    DetachOwned(t, inum, k);
    OwnedFrame(SetSlot(t, inum, k, 0), u);
    forall i: nat | i != inum ensures FileOk(u, i) {
      assert FileOk(t, i);
      if i in t.inodes {
        var ind := t.slots[i][NDIRECT];
        assert SlotOk(t, i, NDIRECT) && UsedOk(sb, t, ind) && SameBlock(sb, t.disk, disk1, ind);
        EncodesFrame(t.disk, disk1, t.inodes[i], t.slots[i]);
      }
    }
    forall c: nat ensures UsedOk(sb, u, c) { assert UsedOk(sb, t, c) && SameBlock(sb, t.disk, disk1, c); }
  }

  /** Freeing slot `k` takes itrunc one step further. */
  lemma TruncatedStep(sb: Super, t: Store, u: Store, disk1: map<nat, Block>, inum: nat, lo: nat, hi: nat, lo1: nat,
                      hi1: nat, k: nat)
    requires Truncated(sb, t, u, inum, lo, hi) && Owned(u) && SameData(sb, u.disk, disk1)
    requires inum in u.slots && k < NSLOTS && u.slots[inum][k] != 0
    requires forall x: nat | x < NSLOTS :: Gone(x, lo1, hi1) <==> x == k || Gone(x, lo, hi)
    ensures Truncated(sb, t, SetSlot(u.(disk := disk1, used := u.used - {u.slots[inum][k]}), inum, k, 0), inum, lo1,
      hi1)
  {
    var v := SetSlot(u.(disk := disk1, used := u.used - {u.slots[inum][k]}), inum, k, 0);
    assert SlotOk(u, inum, k);
    forall i: nat, x: nat ensures SlotCut(t, v, inum, lo1, hi1, i, x) { assert SlotCut(t, u, inum, lo, hi, i, x); }
    forall b: nat ensures OwnerCut(t, v, inum, b) { assert OwnerCut(t, u, inum, b); }
    forall c: nat ensures SameBlock(sb, t.disk, disk1, c) {
      assert SameBlock(sb, t.disk, u.disk, c) && SameBlock(sb, u.disk, disk1, c);
    }
  }

  /** An empty slot needs no freeing. */
  lemma TruncatedSkip(sb: Super, t: Store, u: Store, inum: nat, lo: nat, hi: nat, lo1: nat, hi1: nat)
    requires Truncated(sb, t, u, inum, lo, hi) && inum in t.slots
    requires forall x: nat | x < NSLOTS && Gone(x, lo1, hi1) :: Gone(x, lo, hi) || t.slots[inum][x] == 0
    requires forall x: nat | x < NSLOTS && Gone(x, lo, hi) :: Gone(x, lo1, hi1)
    ensures Truncated(sb, t, u, inum, lo1, hi1)
  {
    forall i: nat, x: nat ensures SlotCut(t, u, inum, lo1, hi1, i, x) { assert SlotCut(t, u, inum, lo, hi, i, x); }
  }

  /** When all slots are free, so are exactly the blocks the file owned. */
  lemma TruncatedAll(sb: Super, t: Store, u: Store, inum: nat)
    requires TreeOk(sb, t) && TreeBut(sb, u, inum) && inum in u.inodes && AddrsAre(u.inodes[inum], u.slots[inum])
    requires Truncated(sb, t, u, inum, NDIRECT + 1, NSLOTS)
    requires forall b: nat | b < sb.datastart :: b in t.used && b in u.used
    ensures TreeOk(sb, u.(inodes := u.inodes[inum := u.inodes[inum].(size := 0)]))
    ensures forall k | 0 <= k < NSLOTS :: u.slots[inum][k] == 0
    ensures forall i | i in u.slots && i != inum :: i in t.slots && u.slots[i] == t.slots[i]
    ensures SameData(sb, t.disk, u.disk)
    ensures forall b :: b in u.owner <==> b in t.owner && t.owner[b].inum != inum
    ensures forall b :: b in u.used <==> b in t.used && (b in t.owner ==> t.owner[b].inum != inum)
  {
    var v := u.(inodes := u.inodes[inum := u.inodes[inum].(size := 0)]);
    forall k: nat | k < NSLOTS ensures u.slots[inum][k] == 0 {
      assert SlotCut(t, u, inum, NDIRECT + 1, NSLOTS, inum, k);
    }
    forall i | i in u.slots && i != inum ensures i in t.slots && u.slots[i] == t.slots[i] {
      forall x: nat | x < NSLOTS ensures u.slots[i][x] == t.slots[i][x] {
        assert SlotCut(t, u, inum, NDIRECT + 1, NSLOTS, i, x);
      }
    }
    forall b: nat ensures b in u.owner <==> b in t.owner && t.owner[b].inum != inum {
      assert OwnerCut(t, u, inum, b) && OwnerOk(u, b);
    }
    forall b: nat ensures b in u.used <==> b in t.used && (b in t.owner ==> t.owner[b].inum != inum) {
      assert UsedOk(sb, t, b) && UsedOk(sb, u, b);
    }
    OwnedFrame(u, v);
    forall i: nat ensures FileOk(v, i) { assert i != inum ==> FileOk(u, i); }
    forall c: nat ensures UsedOk(sb, v, c) { assert UsedOk(sb, u, c); }
  }

  /** Changing file `inum`'s inode only. */
  lemma InodeFrame(sb: Super, t: Store, u: Store, inum: nat, ip: Inode, lo: nat, hi: nat)
    requires TreeBut(sb, u, inum) && Truncated(sb, t, u, inum, lo, hi) && inum in u.inodes
    ensures TreeBut(sb, u.(inodes := u.inodes[inum := ip]), inum)
    ensures Truncated(sb, t, u.(inodes := u.inodes[inum := ip]), inum, lo, hi)
  {
    var v := u.(inodes := u.inodes[inum := ip]);
    OwnedFrame(u, v);
    forall i: nat | i != inum ensures FileOk(v, i) { assert FileOk(u, i); }
    forall b: nat ensures UsedOk(sb, v, b) { assert UsedOk(sb, u, b); }
    forall i: nat, x: nat ensures SlotCut(t, v, inum, lo, hi, i, x) { assert SlotCut(t, u, inum, lo, hi, i, x); }
    forall b: nat ensures OwnerCut(t, v, inum, b) { assert OwnerCut(t, u, inum, b); }
  }

  lemma TruncatedNot(sb: Super, t: Store, inum: nat)
    ensures Truncated(sb, t, t, inum, 0, 0)
  {
    forall i: nat, x: nat ensures SlotCut(t, t, inum, 0, 0, i, x) {}
    forall b: nat ensures OwnerCut(t, t, inum, b) {}
    forall c: nat ensures SameBlock(sb, t.disk, t.disk, c) {}
  }
}
