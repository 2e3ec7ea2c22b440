/** The logging code itself (kernel/log.c): header encoding, commit, recovery and
    the begin_op/log_write/end_op bookkeeping, on byte-level blocks. */
module Log {
  import opened Blocks
  import opened LogFormat

  type Disk = map<nat, Block>

  /** Entries of the header block: word 0 is n, words 1.. are block numbers. */
  function HeaderOf(b: Block): (lh: seq<nat>)
    requires Word(b, 0) <= LOGSIZE
  {
    seq(Word(b, 0), i requires 0 <= i < Word(b, 0) => Word(b, 1 + i))
  }

  /** The header block after n and the first `k` entries have been stored. */
  function PutEntries(b: Block, lh: seq<nat>, k: nat): (r: Block)
    requires k <= |lh| <= LOGSIZE && forall i | 0 <= i < |lh| :: lh[i] < 0x1_0000_0000
    ensures Word(r, 0) == |lh|
    ensures forall i | 0 <= i < k :: Word(r, 1 + i) == lh[i]
  {
    if k == 0 then SetWord(b, 0, |lh|) else SetWord(PutEntries(b, lh, k - 1), k, lh[k - 1])
  }

  function PutHeader(b: Block, lh: seq<nat>): (r: Block)
    requires |lh| <= LOGSIZE && forall i | 0 <= i < |lh| :: lh[i] < 0x1_0000_0000
    ensures Word(r, 0) <= LOGSIZE && HeaderOf(r) == lh
  {
    PutEntries(b, lh, |lh|)
  }

  /** The header block `b` decodes to `lh`. */
  ghost predicate Decodes(b: Block, lh: seq<nat>) {
    Word(b, 0) <= LOGSIZE && HeaderOf(b) == lh
  }

  /** After a crash on disk `d`, recovery is to restore `e`. */
  ghost predicate Recoverable(l: Layout, d: Disk, e: Disk)
    requires l.Ok()
  {
    && l.Full(d)
    && exists lh :: Decodes(d[l.start], lh) && l.ValidHeader(lh) && Stands(l, d, lh, e)
  }

  lemma RecoverableEmpty(l: Layout, d: Disk, e: Disk)
    requires l.Ok() && l.Full(d) && Decodes(d[l.start], []) && HomeIs(l, d, e)
    ensures Recoverable(l, d, e)
  {
    StandsEmpty(l, d, e);
  }

  lemma RecoverableIs(l: Layout, d: Disk, lh: seq<nat>, e: Disk)
    requires l.Ok() && l.Full(d) && Decodes(d[l.start], lh) && l.ValidHeader(lh) && Stands(l, d, lh, e)
    ensures Recoverable(l, d, e)
  {
  }

  lemma LogHolds(l: Layout, d: Disk, lh: seq<nat>, e: Disk, i: nat)
    requires Stands(l, d, lh, e) && i < |lh|
    ensures l.start + 1 + i in d && lh[i] in e && d[l.start + 1 + i] == e[lh[i]]
  {
    assert InLog(l, d, lh, e, i);
  }

  /** `h` extends `h0` by `count` disks, on the first `k` of which a crash restores
      `was` and on the others `now`. */
  ghost predicate Grown(l: Layout, h0: seq<Disk>, h: seq<Disk>, count: nat, was: Disk, k: nat, now: Disk)
    requires l.Ok()
  {
    && |h| == |h0| + count && h0 <= h
    && forall i | |h0| <= i < |h| :: Recoverable(l, h[i], if i < |h0| + k then was else now)
  }

  ghost predicate OpenHome(l: Layout, d: Disk, cache: Disk, lh: seq<nat>, now: Disk, b: nat) {
    l.Home(b) ==> b in d && b in now && ViewOf(d, cache, b) == now[b] && (b !in lh ==> d[b] == now[b])
  }

  ghost predicate OpenLog(l: Layout, d: Disk, cache: Disk, lh: seq<nat>, now: Disk, k: nat, j: nat) {
    j + 1 < l.size ==> l.start + 1 + j in d && ViewOf(d, cache, l.start + 1 + j) == d[l.start + 1 + j]
                       && (j < k && j < |lh| && lh[j] in now ==> d[l.start + 1 + j] == now[lh[j]])
  }

  ghost function ViewOf(d: Disk, cache: Disk, b: nat): Block
    requires b in d
  {
    if b in cache then cache[b] else d[b]
  }

  /** The open group `lh`: home blocks of disk `d` hold `was`, the cache makes them
      `now`, and the first `k` logged blocks are in the log. */
  ghost predicate OpenAt(l: Layout, d: Disk, cache: Disk, lh: seq<nat>, was: Disk, now: Disk, k: nat)
    requires l.Ok() && l.Full(d)
  {
    && HomeIs(l, d, was) && Decodes(d[l.start], [])
    && (forall b {:trigger OpenHome(l, d, cache, lh, now, b)} :: OpenHome(l, d, cache, lh, now, b))
    && (forall j {:trigger OpenLog(l, d, cache, lh, now, k, j)} :: OpenLog(l, d, cache, lh, now, k, j))
  }

  /** write_log copies logged block `k` to the log. */
  lemma CopyKeepsOpen(l: Layout, d: Disk, cache: Disk, lh: seq<nat>, was: Disk, now: Disk, k: nat, k1: nat, from: Block)
    requires l.Ok() && l.Full(d) && l.ValidHeader(lh) && k < |lh| && k1 == k + 1 && OpenAt(l, d, cache, lh, was, now, k)
    requires from == ViewOf(d, cache, lh[k])
    ensures OpenAt(l, d[l.start + 1 + k := from], cache[lh[k] := from][l.start + 1 + k := from], lh, was, now, k1)
  {
    hide Decodes;
    var to := l.start + 1 + k;
    var d1, cache1 := d[to := from], cache[lh[k] := from][to := from];
    assert l.Home(lh[k]) && OpenHome(l, d, cache, lh, now, lh[k]);
    forall b: nat ensures OpenHome(l, d1, cache1, lh, now, b) { assert OpenHome(l, d, cache, lh, now, b); }
    forall j: nat ensures OpenLog(l, d1, cache1, lh, now, k1, j) { assert OpenLog(l, d, cache, lh, now, k, j); }
  }

  /** With nothing logged, the disk is up to date. */
  lemma EmptyIsClosed(l: Layout, d: Disk, cache: Disk, was: Disk, now: Disk)
    requires l.Ok() && l.Full(d) && OpenAt(l, d, cache, [], was, now, 0)
    ensures OpenAt(l, d, cache, [], now, now, 0)
  {
    forall b: nat | l.Home(b) ensures b in d && b in now && d[b] == now[b] { assert OpenHome(l, d, cache, [], now, b); }
  }

  /** write_head makes the copied group permanent. */
  lemma SealStands(l: Layout, d: Disk, cache: Disk, lh: seq<nat>, was: Disk, now: Disk, d1: Disk)
    requires l.Ok() && l.Full(d) && l.ValidHeader(lh) && OpenAt(l, d, cache, lh, was, now, |lh|)
    requires l.start in d1 && d1 == d[l.start := d1[l.start]]
    ensures Stands(l, d1, lh, now)
  {
    forall i: nat | i < |lh| ensures InLog(l, d1, lh, now, i) {
      assert l.Home(lh[i]) && OpenLog(l, d, cache, lh, now, |lh|, i) && OpenHome(l, d, cache, lh, now, lh[i]);
    }
    forall b: nat | l.Home(b) && b !in lh ensures b in d1 && b in now && d1[b] == now[b] {
      assert OpenHome(l, d, cache, lh, now, b);
    }
  }

  /** log_write adds or absorbs a block. */
  lemma WriteKeepsOpen(l: Layout, d: Disk, cache: Disk, lh: seq<nat>, was: Disk, now: Disk, b: nat, data: Block)
    requires l.Ok() && l.Full(d) && OpenAt(l, d, cache, lh, was, now, 0) && l.Home(b)
    ensures OpenAt(l, d, cache[b := data], Absorb(lh, b), was, now[b := data], 0)
  {
    hide Decodes;
    var cache1, lh1, now1 := cache[b := data], Absorb(lh, b), now[b := data];
    forall x: nat ensures OpenHome(l, d, cache1, lh1, now1, x) { assert OpenHome(l, d, cache, lh, now, x); }
    forall j: nat ensures OpenLog(l, d, cache1, lh1, now1, 0, j) { assert OpenLog(l, d, cache, lh, now, 0, j); }
  }

  /** While a sealed group is installed: log blocks read as on the disk, home blocks as on
      the disk or already as they will be. */
  ghost predicate SealedView(l: Layout, d: Disk, cache: Disk, now: Disk, b: nat) {
    && (l.start < b < l.start + l.size ==> b in d && ViewOf(d, cache, b) == d[b])
    && (l.Home(b) ==> b in d && b in now && (ViewOf(d, cache, b) == d[b] || ViewOf(d, cache, b) == now[b]))
  }

  ghost predicate SealedViews(l: Layout, d: Disk, cache: Disk, now: Disk) {
    forall b {:trigger SealedView(l, d, cache, now, b)} :: SealedView(l, d, cache, now, b)
  }

  /** Reading blocks into the cache and writing one home keeps that. */
  lemma InstallKeepsViews(l: Layout, d: Disk, cache: Disk, now: Disk, from: nat, b: nat)
    requires l.Ok() && l.Full(d) && SealedViews(l, d, cache, now) && l.start < from < l.start + l.size && l.Home(b)
      && b in now
    ensures from in d && b in d && ViewOf(d, cache, from) == d[from]
    ensures var cache1 := cache[from := ViewOf(d, cache, from)];
            SealedViews(l, d[b := now[b]], cache1[b := ViewOf(d, cache1, b)][b := now[b]], now)
  {
    assert SealedView(l, d, cache, now, from) && SealedView(l, d, cache, now, b);
    var cache1 := cache[from := ViewOf(d, cache, from)];
    var d2: Disk, cache2: Disk := d[b := now[b]], cache1[b := ViewOf(d, cache1, b)][b := now[b]];
    forall x: nat ensures SealedView(l, d2, cache2, now, x) { assert SealedView(l, d, cache, now, x); }
  }

  class Log {
    const l: Layout
    var disk: Disk
    var cache: Disk
    var n: nat             // lh.n
    var block: seq<nat>    // lh.block[LOGSIZE]
    var outstanding: nat
    var committing: bool
    ghost var history: seq<Disk>   // the disk after each block write

    ghost predicate Valid()
      reads this`disk, this`cache, this`n, this`block
    {
      && l.Ok() && l.Full(disk)
      && |block| == LOGSIZE && n <= l.Capacity() && l.ValidHeader(block[..n])
      && (forall b: nat :: b in cache ==> b < l.nblocks)
    }

    /** initlog on a disk that stands for `e`: recovery restores it, and a crash on the
        way changes nothing about that. */
    constructor (l: Layout, disk: Disk, ghost lh: seq<nat>, ghost e: Disk)
      requires l.Ok() && l.Full(disk)
      requires Decodes(disk[l.start], lh) && l.ValidHeader(lh) && Stands(l, disk, lh, e)
      ensures this.l == l && Open(e, e, 0) && n == 0 && outstanding == 0 && !committing
      ensures Grown(l, [], history, |lh| + 1, e, 0, e)
    {
      hide Decodes, Stands, OpenAt;
      this.l, this.disk, cache := l, disk, map[];
      n, block, outstanding, committing := 0, seq(LOGSIZE, i => 0), 0, false;
      history := [];
      new;
      RecoverFromLog(lh, e);
    }

    function Lh(): seq<nat>
      requires n <= |block|
      reads this`n, this`block
    {
      block[..n]
    }

    /** What bread returns. */
    ghost function View(b: nat): Block
      requires l.Full(disk) && b < l.nblocks
      reads this`disk, this`cache
    {
      ViewOf(disk, cache, b)
    }

    method BRead(b: nat) returns (data: Block)
      requires Valid() && b < l.nblocks
      modifies this`cache
      ensures Valid() && data == old(View(b)) && cache == old(cache)[b := data]
    {
      if b !in cache {
        cache := cache[b := disk[b]];
      }
      data := cache[b];
    }

    /** Fill the locked buffer of `b` with `data` and write it to the disk. */
    method BWrite(b: nat, data: Block)
      requires Valid() && b < l.nblocks
      modifies this`cache, this`disk, this`history
      ensures Valid() && disk == old(disk)[b := data] && cache == old(cache)[b := data]
      ensures history == old(history) + [disk]
    {
      cache := cache[b := data];
      disk := disk[b := data];
      history := history + [disk];
    }

    /** Writes the in-memory header to the disk; one block write. */
    method WriteHead()
      requires Valid()
      modifies this`cache, this`disk, this`history
      ensures Valid() && disk == old(disk)[l.start := disk[l.start]]
      ensures Decodes(disk[l.start], Lh())
      ensures history == old(history) + [disk]
      ensures forall b: nat :: b < l.nblocks && b != l.start ==> View(b) == old(View(b))
    {
      hide HeaderOf, SetWord;
      var data := BRead(l.start);
      ghost var before := data;
      data := SetWord(data, 0, n);
      var i := 0;
      while i < n
        invariant 0 <= i <= n
        invariant data == PutEntries(before, Lh(), i)
      {
        data := SetWord(data, i + 1, block[i]);
        i := i + 1;
      }
      assert data == PutHeader(before, Lh());
      BWrite(l.start, data);
    }

    /** Loads the in-memory header from the disk. */
    method ReadHead(ghost lh: seq<nat>)
      requires Valid() && cache == map[] && Decodes(disk[l.start], lh) && l.ValidHeader(lh)
      modifies this`cache, this`n, this`block
      ensures Valid() && Lh() == lh && cache == map[l.start := disk[l.start]]
    {
      var data := BRead(l.start);
      assert HeaderOf(data) == lh && |lh| == Word(data, 0);
      n := Word(data, 0);
      var i := 0;
      while i < n
        invariant 0 <= i <= n == |lh| && |block| == LOGSIZE
        invariant block[..i] == lh[..i]
        invariant cache == map[l.start := data]
      {
        assert HeaderOf(data)[i] == Word(data, i + 1);
        block := block[i := Word(data, i + 1)];
        i := i + 1;
      }
      assert Lh() == lh;
    }

    /** The open group: home blocks on disk hold `was`, the cache makes them
        `now`, and the first `k` logged blocks are in the log. */
    ghost predicate Open(was: Disk, now: Disk, k: nat)
      reads this`disk, this`cache, this`n, this`block
    {
      Valid() && k <= n && OpenAt(l, disk, cache, Lh(), was, now, k)
    }

    /** One turn of write_log's loop. */
    method CopyBlock(tail: nat, ghost was: Disk, ghost now: Disk)
      requires Open(was, now, tail) && tail < n
      modifies this`cache, this`disk, this`history
      ensures Open(was, now, tail + 1) && Recoverable(l, disk, was)
      ensures history == old(history) + [disk]
    {
      hide Decodes, Stands, Recoverable, OpenHome, OpenLog;
      assert block[tail] == Lh()[tail] && l.Home(Lh()[tail]);
      ghost var d, c := disk, cache;
      var from := BRead(block[tail]);
      CopyKeepsOpen(l, d, c, Lh(), was, now, tail, tail + 1, from);
      BWrite(l.start + 1 + tail, from);
      RecoverableEmpty(l, disk, was);
    }

    /** Copies the logged blocks from the cache to the log: `n` block writes, after
        each of which a crash still restores `was`. */
    method WriteLog(ghost was: Disk, ghost now: Disk)
      requires Open(was, now, 0)
      modifies this`cache, this`disk, this`history
      ensures Open(was, now, n) && Grown(l, old(history), history, n, was, 0, was)
    {
      var tail := 0;
      while tail < n
        invariant 0 <= tail <= n && Open(was, now, tail)
        invariant Grown(l, old(history), history, tail, was, 0, was)
      {
        CopyBlock(tail, was, now);
        tail := tail + 1;
      }
    }

    /** The sealed group: the header names it and the first `k` of its blocks are
        in their home locations. */
    ghost predicate Sealed(now: Disk, k: nat)
      reads this`disk, this`cache, this`n, this`block
    {
      && Valid() && k <= n
      && Decodes(disk[l.start], Lh()) && Stands(l, disk, Lh(), now)
      && (forall j: nat :: j < k ==> disk[block[j]] == now[block[j]])
      && SealedViews(l, disk, cache, now)
    }

    /** One turn of install_trans's loop. */
    method InstallBlock(tail: nat, ghost now: Disk)
      requires Sealed(now, tail) && tail < n
      modifies this`cache, this`disk, this`history
      ensures Sealed(now, tail + 1) && Recoverable(l, disk, now)
      ensures history == old(history) + [disk]
    {
      hide Decodes, Stands, Recoverable, SealedViews;
      assert block[tail] == Lh()[tail] && l.Home(Lh()[tail]);
      LogHolds(l, disk, Lh(), now, tail);
      InstallKeepsViews(l, disk, cache, now, l.start + 1 + tail, block[tail]);
      var data := BRead(l.start + 1 + tail);
      var dst := BRead(block[tail]);
      InstallStands(l, disk, Lh(), tail, now);
      BWrite(block[tail], data);
      RecoverableIs(l, disk, Lh(), now);
    }

    /** Copies the committed blocks from the log to their home locations. */
    method InstallTrans(ghost now: Disk)
      requires Sealed(now, 0)
      modifies this`cache, this`disk, this`history
      ensures Sealed(now, n) && Grown(l, old(history), history, n, now, 0, now)
    {
      var tail := 0;
      while tail < n
        invariant 0 <= tail <= n && Sealed(now, tail)
        invariant Grown(l, old(history), history, tail, now, 0, now)
      {
        InstallBlock(tail, now);
        tail := tail + 1;
      }
    }

    /** The commit point: write_head with the group's header. */
    method SealGroup(ghost was: Disk, ghost now: Disk)
      requires Open(was, now, n)
      modifies this`cache, this`disk, this`history
      ensures Sealed(now, 0) && Recoverable(l, disk, now) && history == old(history) + [disk]
    {
      ghost var d, c := disk, cache;
      WriteHead();
      SealStands(l, d, c, Lh(), was, now, disk);
      forall b: nat ensures SealedView(l, disk, cache, now, b) {
        assert OpenHome(l, d, c, Lh(), now, b) && (b < l.nblocks && b != l.start ==> View(b) == ViewOf(d, c, b));
        assert l.start < b < l.start + l.size ==> OpenLog(l, d, c, Lh(), now, n, b - l.start - 1);
      }
    }

    /** Erases the installed group from the log. */
    method ClearGroup(ghost now: Disk)
      requires Sealed(now, n)
      modifies this`cache, this`disk, this`history, this`n
      ensures Open(now, now, 0) && n == 0
      ensures Recoverable(l, disk, now) && history == old(history) + [disk]
    {
      assert HomeIs(l, disk, now);
      ghost var d, c := disk, cache;
      n := 0;
      WriteHead();
      forall b: nat ensures OpenHome(l, disk, cache, [], now, b) {
        assert SealedView(l, d, c, now, b) && (b < l.nblocks && b != l.start ==> View(b) == ViewOf(d, c, b));
      }
      forall j: nat ensures OpenLog(l, disk, cache, [], now, 0, j) {
        assert SealedView(l, d, c, now, l.start + 1 + j);
        assert j + 1 < l.size ==> View(l.start + 1 + j) == ViewOf(d, c, l.start + 1 + j);
      }
      RecoverableEmpty(l, disk, now);
    }

    /** Commits the open group.  A crash before the header write restores `was`, a
        crash at any later point restores `now`. */
    method Commit(ghost was: Disk, ghost now: Disk)
      requires Open(was, now, 0)
      modifies this`cache, this`disk, this`history, this`n
      ensures Open(now, now, 0) && n == 0
      ensures Grown(l, old(history), history, if old(n) == 0 then 0 else 2 * old(n) + 2, was, old(n), now)
    {
      if n > 0 {
        WriteLog(was, now);
        SealGroup(was, now);
        InstallTrans(now);
        ClearGroup(now);
      } else {
        EmptyIsClosed(l, disk, cache, was, now);
      }
    }

    /** Recovery, run at boot with an empty cache.  A crash at any point restores
        the same contents again. */
    method RecoverFromLog(ghost lh: seq<nat>, ghost e: Disk)
      requires Valid() && cache == map[]
      requires Decodes(disk[l.start], lh) && l.ValidHeader(lh) && Stands(l, disk, lh, e)
      modifies this`cache, this`disk, this`history, this`n, this`block
      ensures Open(e, e, 0) && n == 0
      ensures Grown(l, old(history), history, |lh| + 1, e, 0, e)
    {
      ReadHead(lh);
      InstallTrans(e);
      ClearGroup(e);
    }

    /** One pass of begin_op's loop: false means the caller sleeps. */
    method BeginOp() returns (admitted: bool)
      requires Valid()
      modifies this`outstanding
      ensures admitted <==> !committing && n + (old(outstanding) + 1) * MAXOPBLOCKS <= LOGSIZE
      ensures outstanding == old(outstanding) + if admitted then 1 else 0
    {
      if committing {
        admitted := false;
      } else if n + (outstanding + 1) * MAXOPBLOCKS > LOGSIZE {
        admitted := false;
      } else {
        outstanding := outstanding + 1;
        admitted := true;
      }
    }

    /** end_op: the last operation out commits the group. */
    method EndOp(ghost was: Disk, ghost now: Disk)
      requires Open(was, now, 0) && 1 <= outstanding && !committing
      modifies this`cache, this`disk, this`history, this`n, this`outstanding, this`committing
      ensures !committing && outstanding == old(outstanding) - 1
      ensures outstanding == 0 ==> Open(now, now, 0) && n == 0
      ensures outstanding > 0 ==> Open(was, now, 0) && n == old(n) && history == old(history)
      ensures outstanding == 0 ==>
        Grown(l, old(history), history, if old(n) == 0 then 0 else 2 * old(n) + 2, was, old(n), now)
    {
      outstanding := outstanding - 1;
      if outstanding == 0 {
        committing := true;
        Commit(was, now);
        committing := false;
      }
    }

    /** log_write for a buffer whose new contents are `data`: the block is
        absorbed or appended, and pinned in the cache until the commit. */
    method LogWrite(b: nat, data: Block, ghost was: Disk, ghost now: Disk)
      requires Open(was, now, 0) && l.Home(b) && b in cache
      requires n < l.Capacity() && 1 <= outstanding
      modifies this`cache, this`n, this`block
      ensures Open(was, now[b := data], 0) && Lh() == Absorb(old(Lh()), b)
    {
      hide Decodes, OpenHome, OpenLog;
      WriteKeepsOpen(l, disk, cache, Lh(), was, now, b, data);
      cache := cache[b := data];
      AddEntry(b);
      assert forall i | 0 <= i < n :: l.Home(Lh()[i]);
    }

    /** log_write's search for the block and its header update. */
    method AddEntry(b: nat)
      requires |block| == LOGSIZE && n < LOGSIZE
      modifies this`n, this`block
      ensures |block| == LOGSIZE && n <= LOGSIZE && n <= old(n) + 1 && Lh() == Absorb(old(Lh()), b)
      ensures n == old(n) + (if b in old(Lh()) then 0 else 1) && forall x :: x in Lh() <==> x in old(Lh()) || x == b
    {
      var i := 0;
      while i < n && block[i] != b
        invariant 0 <= i <= n && b !in block[..i]
      {
        i := i + 1;
      }
      ghost var lh := Lh();
      block := block[i := b];
      if i == n {
        n := n + 1;
        assert Lh() == lh + [b];
      } else {
        assert Lh() == lh && lh[i] == b;
      }
    }
  }
}
