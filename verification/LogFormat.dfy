/** The redo log on disk (kernel/log.c): where it lies and which file system
    contents a disk stands for. */
module LogFormat {

  const MAXOPBLOCKS: nat := 10
  const LOGSIZE: nat := 3 * MAXOPBLOCKS

  /** The superblock fields the log uses: its first block, its length in blocks,
      and the number of blocks on the disk. */
  datatype Layout = Layout(start: nat, size: nat, nblocks: nat) {

    ghost predicate Ok() {
      1 <= size && start + size <= nblocks <= 0x1_0000_0000
    }

    /** A block that belongs to the file system proper, not to the log. */
    predicate Home(b: nat) {
      b < nblocks && !(start <= b < start + size)
    }

    /** The number of entries at which log_write refuses to append. */
    function Capacity(): nat
      requires 1 <= size
    {
      if LOGSIZE < size - 1 then LOGSIZE else size - 1
    }

    ghost predicate Full<T>(d: map<nat, T>) {
      forall b: nat :: b < nblocks ==> b in d
    }

    ghost predicate ValidHeader(lh: seq<nat>)
      requires 1 <= size
    {
      |lh| <= Capacity() && forall i | 0 <= i < |lh| :: Home(lh[i])
    }
  }

  /** Home blocks of `d` hold the contents `e`. */
  ghost predicate HomeIs<T>(l: Layout, d: map<nat, T>, e: map<nat, T>) {
    forall b: nat :: l.Home(b) ==> b in d && b in e && d[b] == e[b]
  }

  /** Log block `i` holds the contents of the block that entry `i` of the header names. */
  ghost predicate InLog<T>(l: Layout, d: map<nat, T>, lh: seq<nat>, e: map<nat, T>, i: nat)
    requires i < |lh|
  {
    l.start + 1 + i in d && lh[i] in e && d[l.start + 1 + i] == e[lh[i]]
  }

  /** The disk `d`, with header `lh`, stands for the file system contents `e`: a
      block named by the header reads from the log, every other block from its
      home location. */
  ghost predicate Stands<T>(l: Layout, d: map<nat, T>, lh: seq<nat>, e: map<nat, T>) {
    && (forall i: nat {:trigger lh[i]} | i < |lh| :: InLog(l, d, lh, e, i))
    && (forall b: nat | l.Home(b) && b !in lh :: b in d && b in e && d[b] == e[b])
  }

  /** log_write's search: a block already logged is absorbed. */
  function Absorb(lh: seq<nat>, b: nat): (r: seq<nat>) {
    if b in lh then lh else lh + [b]
  }

  /** An empty log stands for what the home blocks hold. */
  lemma StandsEmpty<T>(l: Layout, d: map<nat, T>, e: map<nat, T>)
    requires HomeIs(l, d, e)
    ensures Stands(l, d, [], e)
  {
  }

  /** Installing a block leaves the contents a disk stands for as they are. */
  lemma InstallStands<T>(l: Layout, d: map<nat, T>, lh: seq<nat>, i: nat, now: map<nat, T>)
    requires l.Ok() && l.ValidHeader(lh) && Stands(l, d, lh, now) && i < |lh|
    ensures Stands(l, d[lh[i] := now[lh[i]]], lh, now)
  {
    var d1 := d[lh[i] := now[lh[i]]];
    forall j: nat | j < |lh| ensures InLog(l, d1, lh, now, j) {
      assert InLog(l, d, lh, now, j) && l.Home(lh[i]);
    }
    forall b: nat | l.Home(b) && b !in lh ensures b in d1 && b in now && d1[b] == now[b] {
    }
  }
}
