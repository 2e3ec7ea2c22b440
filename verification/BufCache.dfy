/** The buffer cache (kernel/bio.c): NBUF buffers on a doubly linked list in order
    of use, with reference counts, and the disk behind them.  Each method is one
    critical section of bcache.lock, or of the buffer's sleep lock. */
module BufCache {

  const NBUF: nat := 30
  const HEAD: nat := NBUF   // the list head, after buffers 0..NBUF-1

  /** Device and block number. */
  type Key = (nat, nat)

  /** The neighbours of position `i` in the list; HEAD is before the first buffer
      and after the last. */
  function Succ(order: seq<nat>, i: nat): nat {
    if i + 1 < |order| then order[i + 1] else HEAD
  }

  function Pred(order: seq<nat>, i: nat): nat {
    if 0 < i <= |order| then order[i - 1] else HEAD
  }

  /** `pos` is the inverse of `order`, so `order` is a permutation of the buffers. */
  ghost predicate Permutation(order: seq<nat>, pos: seq<nat>) {
    && |order| == |pos| == NBUF
    && (forall i | 0 <= i < NBUF :: order[i] < NBUF && pos[order[i]] == i)
    && (forall b | 0 <= b < NBUF :: pos[b] < NBUF && order[pos[b]] == b)
  }

  /** `next` and `prev` link HEAD and all buffers in one circle; going forward from
      HEAD it visits `order`. */
  ghost predicate Ring(next: seq<nat>, prev: seq<nat>, order: seq<nat>, pos: seq<nat>) {
    && Permutation(order, pos)
    && |next| == |prev| == NBUF + 1
    && next[HEAD] == order[0]
    && prev[HEAD] == order[NBUF - 1]
    && (forall b {:trigger next[b]} | 0 <= b < NBUF :: next[b] == Succ(order, pos[b]))
    && (forall b {:trigger prev[b]} | 0 <= b < NBUF :: prev[b] == Pred(order, pos[b]))
  }

  /** `order` with the buffer at position `p` moved to the front. */
  function ToFront(order: seq<nat>, p: nat): (r: seq<nat>)
    requires p < |order|
    ensures |r| == |order| && r[0] == order[p]
    ensures forall i | 0 < i <= p :: r[i] == order[i - 1]
    ensures forall i | p < i < |order| :: r[i] == order[i]
  {
    [order[p]] + order[..p] + order[p + 1..]
  }

  ghost function PosToFront(pos: seq<nat>, p: nat): (r: seq<nat>)
    ensures |r| == |pos|
    ensures forall b | 0 <= b < |pos| :: r[b] == if pos[b] == p then 0 else if pos[b] < p then pos[b] + 1 else pos[b]
  {
    seq(|pos|, b requires 0 <= b < |pos| => if pos[b] == p then 0 else if pos[b] < p then pos[b] + 1 else pos[b])
  }

  lemma ToFrontPermutes(order: seq<nat>, pos: seq<nat>, p: nat)
    requires Permutation(order, pos) && p < NBUF
    ensures Permutation(ToFront(order, p), PosToFront(pos, p))
  {
    var order1, pos1 := ToFront(order, p), PosToFront(pos, p);
    forall i | 0 <= i < NBUF ensures order1[i] < NBUF && pos1[order1[i]] == i {
      assert order1[i] == if i == 0 then order[p] else if i <= p then order[i - 1] else order[i];
    }
    forall b | 0 <= b < NBUF ensures order1[pos1[b]] == b {
      assert order[pos[b]] == b;
    }
  }

  /** brelse's relinking: unlink `b`, then insert it after HEAD. */
  function Relink(next: seq<nat>, prev: seq<nat>, b: nat): (r: (seq<nat>, seq<nat>))
    requires |next| == |prev| == NBUF + 1 && b < NBUF
    requires next[b] <= NBUF && prev[b] <= NBUF && next[HEAD] <= NBUF && next[b] != b && prev[b] != b
  {
    var prev1 := prev[next[b] := prev[b]];
    var next1 := next[prev[b] := next[b]];
    var next2 := next1[b := next1[HEAD]];
    var prev2 := prev1[b := HEAD];
    (next2[HEAD := b], prev2[next2[HEAD] := b])
  }

  lemma Neighbours(next: seq<nat>, prev: seq<nat>, order: seq<nat>, pos: seq<nat>, b: nat)
    requires Ring(next, prev, order, pos) && b < NBUF
    ensures next[b] <= NBUF && prev[b] <= NBUF && next[HEAD] <= NBUF && next[b] != b && prev[b] != b
    ensures prev[b] == HEAD <==> pos[b] == 0
    ensures next[HEAD] == b <==> pos[b] == 0
    ensures prev[b] < NBUF ==> pos[prev[b]] == pos[b] - 1
    ensures next[b] < NBUF ==> pos[next[b]] == pos[b] + 1
    ensures next[b] == HEAD ==> pos[b] == NBUF - 1
  {
    var p := pos[b];
    assert order[p] == b;
  }

  lemma RelinkNext(next: seq<nat>, prev: seq<nat>, order: seq<nat>, pos: seq<nat>, b: nat, c: nat)
    requires Ring(next, prev, order, pos) && b < NBUF && c < NBUF
    requires next[b] <= NBUF && prev[b] <= NBUF && next[HEAD] <= NBUF && next[b] != b && prev[b] != b
    ensures Relink(next, prev, b).0[c] == Succ(ToFront(order, pos[b]), PosToFront(pos, pos[b])[c])
  {
    Neighbours(next, prev, order, pos, b);
    var p, q := pos[b], pos[c];
    var order1 := ToFront(order, p);
    assert order[q] == c && next[c] == Succ(order, q);
    if q == p {
      assert c == b;
    } else if q + 1 == p {
      assert c == prev[b] && Succ(order1, p) == Succ(order, p);
    } else if q < p {
      assert Succ(order1, q + 1) == order[q + 1];
    } else {
      assert Succ(order1, q) == Succ(order, q);
    }
  }

  /** The new prev pointers, one by one. */
  lemma RelinkPrevIs(next: seq<nat>, prev: seq<nat>, b: nat, c: nat)
    requires |next| == |prev| == NBUF + 1 && b < NBUF && c < NBUF
    requires next[b] <= NBUF && prev[b] <= NBUF && next[HEAD] <= NBUF && next[b] != b && prev[b] != b
    ensures Relink(next, prev, b).1[c] ==
            if c == (if prev[b] == HEAD then next[b] else next[HEAD]) then b
            else if c == b then HEAD else if c == next[b] then prev[b] else prev[c]
  {
  }

  lemma RelinkPrev(next: seq<nat>, prev: seq<nat>, order: seq<nat>, pos: seq<nat>, b: nat, c: nat)
    requires Ring(next, prev, order, pos) && b < NBUF && c < NBUF
    requires next[b] <= NBUF && prev[b] <= NBUF && next[HEAD] <= NBUF && next[b] != b && prev[b] != b
    ensures Relink(next, prev, b).1[c] == Pred(ToFront(order, pos[b]), PosToFront(pos, pos[b])[c])
  {
    hide Relink, ToFront, PosToFront;
    var p, q := pos[b], pos[c];
    var order1 := ToFront(order, p);
    RelinkPrevIs(next, prev, b, c);
    assert order[p] == b && order[q] == c && prev[c] == Pred(order, q) && prev[b] == Pred(order, p);
    assert next[b] == Succ(order, p) && next[HEAD] == order[0];
    if q == p {
      assert c == b;
    } else if q < p {
      assert Pred(order1, q + 1) == if q == 0 then b else order[q - 1];
    } else {
      assert Pred(order1, q) == if q == p + 1 then (if p == 0 then b else order[p - 1]) else order[q - 1];
    }
  }

  lemma RelinkHead(next: seq<nat>, prev: seq<nat>, order: seq<nat>, pos: seq<nat>, b: nat)
    requires Ring(next, prev, order, pos) && b < NBUF
    requires next[b] <= NBUF && prev[b] <= NBUF && next[HEAD] <= NBUF && next[b] != b && prev[b] != b
    ensures Relink(next, prev, b).0[HEAD] == ToFront(order, pos[b])[0]
    ensures Relink(next, prev, b).1[HEAD] == ToFront(order, pos[b])[NBUF - 1]
  {
    Neighbours(next, prev, order, pos, b);
  }

  /** After brelse's pointer updates the list is again one circle through every
      buffer, with `b` first and the rest in their old order. */
  lemma RelinkMovesToFront(next: seq<nat>, prev: seq<nat>, order: seq<nat>, pos: seq<nat>, b: nat)
    requires Ring(next, prev, order, pos) && b < NBUF
    ensures next[b] <= NBUF && prev[b] <= NBUF && next[HEAD] <= NBUF && next[b] != b && prev[b] != b
    ensures var (next1, prev1) := Relink(next, prev, b);
            Ring(next1, prev1, ToFront(order, pos[b]), PosToFront(pos, pos[b]))
  {
    Neighbours(next, prev, order, pos, b);
    var next1, prev1 := Relink(next, prev, b).0, Relink(next, prev, b).1;
    var order1, pos1 := ToFront(order, pos[b]), PosToFront(pos, pos[b]);
    assert Permutation(order1, pos1) by { ToFrontPermutes(order, pos, pos[b]); }
    RelinkHead(next, prev, order, pos, b);
    forall c | 0 <= c < NBUF ensures next1[c] == Succ(order1, pos1[c]) {
      RelinkNext(next, prev, order, pos, b, c);
    }
    forall c | 0 <= c < NBUF ensures prev1[c] == Pred(order1, pos1[c]) {
      RelinkPrev(next, prev, order, pos, b, c);
    }
  }

  // ---------- Buffers ----------

  datatype Buf<T> = Buf(dev: nat, blockno: nat, valid: bool, refcnt: nat, data: T) {
    function Key(): Key { (dev, blockno) }

    predicate Caches(k: Key) { valid && Key() == k }
  }

  /** At most one buffer per block.  (Before first use all buffers say block 0 of
      device 0, which is no disk.) */
  ghost predicate Unique<T>(buf: seq<Buf<T>>) {
    forall b, c | 0 <= b < |buf| && 0 <= c < |buf| && buf[b].Key() == buf[c].Key() && buf[b].dev != 0 :: b == c
  }

  /** refcnt counts the holders, and one more for a block in the log header. */
  ghost predicate Counted<T>(buf: seq<Buf<T>>, hold: seq<nat>, logged: set<Key>) {
    && |hold| == |buf|
    && forall b | 0 <= b < |buf| :: buf[b].refcnt == hold[b] + if buf[b].Key() in logged then 1 else 0
  }

  /** A logged block stays cached. */
  ghost predicate Pinned<T>(buf: seq<Buf<T>>, logged: set<Key>) {
    forall k | k in logged :: k.0 != 0 && exists b | 0 <= b < |buf| :: buf[b].Caches(k)
  }

  /** Buffers name blocks of the disk. */
  ghost predicate OnDisk<T>(buf: seq<Buf<T>>, disk: map<Key, T>) {
    forall b | 0 <= b < |buf| :: buf[b].dev != 0 ==> buf[b].Key() in disk
  }

  /** The latest contents of block `k` are only in a buffer that may be recycled. */
  ghost predicate Loose<T>(buf: seq<Buf<T>>, disk: map<Key, T>, k: Key) {
    k in disk && k.0 != 0 && exists b | 0 <= b < |buf| :: LooseIn(buf, disk, k, b)
  }

  ghost predicate LooseIn<T>(buf: seq<Buf<T>>, disk: map<Key, T>, k: Key, b: nat)
    requires b < |buf| && k in disk
  {
    buf[b].Caches(k) && buf[b].refcnt == 0 && buf[b].data != disk[k]
  }

  /** What the block last written to `k` holds. */
  ghost function Latest<T>(buf: seq<Buf<T>>, disk: map<Key, T>, k: Key): T
    requires k in disk
  {
    if exists b :: 0 <= b < |buf| && buf[b].Caches(k)
    then var b :| 0 <= b < |buf| && buf[b].Caches(k); buf[b].data
    else disk[k]
  }

  lemma LatestCached<T>(buf: seq<Buf<T>>, disk: map<Key, T>, b: nat)
    requires Unique(buf) && b < |buf| && buf[b].dev != 0 && buf[b].valid && buf[b].Key() in disk
    ensures Latest(buf, disk, buf[b].Key()) == buf[b].data
  {
    assert buf[b].Caches(buf[b].Key());
  }

  /** Buffers that differ only in counts give the same latest contents. */
  ghost predicate SameContents<T>(buf: seq<Buf<T>>, buf1: seq<Buf<T>>, disk: map<Key, T>) {
    forall k | k in disk && k.0 != 0 :: Latest(buf1, disk, k) == Latest(buf, disk, k)
  }

  lemma CountKeepsContents<T>(buf: seq<Buf<T>>, disk: map<Key, T>, b: nat, n: nat)
    requires Unique(buf) && b < |buf|
    ensures SameContents(buf, buf[b := buf[b].(refcnt := n)], disk)
  {
    var buf1 := buf[b := buf[b].(refcnt := n)];
    forall k | k in disk && k.0 != 0
      ensures Latest(buf1, disk, k) == Latest(buf, disk, k)
    {
      if c :| 0 <= c < |buf| && buf[c].Caches(k) {
        assert buf1[c].Caches(k);
        LatestCached(buf, disk, c);
        LatestCached(buf1, disk, c);
      } else {
        assert forall c | 0 <= c < |buf1| :: buf1[c].Caches(k) ==> buf[c].Caches(k);
      }
    }
  }

  /** `buf` with buffer `b` given to block `k`. */
  ghost function Recycled<T>(buf: seq<Buf<T>>, b: nat, k: Key): seq<Buf<T>>
    requires b < |buf|
  {
    buf[b := buf[b].(dev := k.0, blockno := k.1, valid := false, refcnt := 1)]
  }

  /** Recycling a buffer makes the block that it held what the disk has. */
  lemma RecycleContents<T>(buf: seq<Buf<T>>, disk: map<Key, T>, b: nat, k0: Key, k: Key)
    requires Unique(buf) && b < |buf| && k in disk && k.0 != 0
    requires forall c | 0 <= c < |buf| :: buf[c].Key() != k0
    ensures Latest(Recycled(buf, b, k0), disk, k) == if buf[b].Caches(k) then disk[k] else Latest(buf, disk, k)
  {
    var buf1 := Recycled(buf, b, k0);
    if c :| 0 <= c < |buf| && buf[c].Caches(k) {
      LatestCached(buf, disk, c);
      if c != b {
        assert buf1[c].Caches(k);
        LatestCached(buf1, disk, c);
      } else {
        assert forall c | 0 <= c < |buf1| :: !buf1[c].Caches(k);
      }
    } else {
      assert forall c | 0 <= c < |buf1| :: buf1[c].Caches(k) ==> buf[c].Caches(k);
    }
  }

  /** So a block loses its latest contents exactly if it was loose in that buffer. */
  lemma RecycleLoses<T>(buf: seq<Buf<T>>, disk: map<Key, T>, b: nat, k0: Key, k: Key)
    requires Unique(buf) && b < |buf| && buf[b].refcnt == 0 && k in disk && k.0 != 0
    requires forall c | 0 <= c < |buf| :: buf[c].Key() != k0
    ensures Latest(Recycled(buf, b, k0), disk, k) != Latest(buf, disk, k) <==> buf[b].Key() == k && Loose(buf, disk, k)
    ensures Loose(Recycled(buf, b, k0), disk, k) <==> Loose(buf, disk, k) && buf[b].Key() != k
  {
    var buf1 := Recycled(buf, b, k0);
    RecycleContents(buf, disk, b, k0, k);
    if buf[b].Caches(k) {
      LatestCached(buf, disk, b);
      assert LooseIn(buf, disk, k, b) <==> Latest(buf, disk, k) != disk[k];
    }
    forall c: nat | c < |buf| && c != b ensures LooseIn(buf1, disk, k, c) <==> LooseIn(buf, disk, k, c) {}
  }

  lemma RecycleAll<T>(buf: seq<Buf<T>>, disk: map<Key, T>, b: nat, k0: Key)
    requires Unique(buf) && b < |buf| && buf[b].refcnt == 0
    requires forall c | 0 <= c < |buf| :: buf[c].Key() != k0
    ensures var buf1 := Recycled(buf, b, k0);
            && (forall k | k in disk && k.0 != 0 ::
                  (Latest(buf1, disk, k) != Latest(buf, disk, k) <==> buf[b].Key() == k && Loose(buf, disk, k))
                  && (Latest(buf1, disk, k) == Latest(buf, disk, k) || Latest(buf1, disk, k) == disk[k]))
            && forall k :: Loose(buf1, disk, k) <==> Loose(buf, disk, k) && buf[b].Key() != k
  {
    var buf1 := Recycled(buf, b, k0);
    forall k
      ensures Loose(buf1, disk, k) <==> Loose(buf, disk, k) && buf[b].Key() != k
      ensures k in disk && k.0 != 0 ==>
        (Latest(buf1, disk, k) != Latest(buf, disk, k) <==> buf[b].Key() == k && Loose(buf, disk, k))
        && (Latest(buf1, disk, k) == Latest(buf, disk, k) || Latest(buf1, disk, k) == disk[k])
    {
      if k in disk && k.0 != 0 {
        RecycleLoses(buf, disk, b, k0, k);
        RecycleContents(buf, disk, b, k0, k);
      }
    }
  }

  /** The same blocks are loose. */
  ghost predicate SameLoose<T>(buf: seq<Buf<T>>, disk: map<Key, T>, buf1: seq<Buf<T>>, disk1: map<Key, T>) {
    forall k :: Loose(buf1, disk1, k) <==> Loose(buf, disk, k)
  }

  /** A referenced buffer holds nothing loose, whatever is done to it while it stays
      referenced. */
  lemma HeldNotLoose<T>(buf: seq<Buf<T>>, disk: map<Key, T>, b: nat, x: Buf<T>)
    requires b < |buf| && 0 < buf[b].refcnt && 0 < x.refcnt
    ensures SameLoose(buf, disk, buf[b := x], disk)
  {
    var buf1 := buf[b := x];
    forall k ensures Loose(buf1, disk, k) <==> Loose(buf, disk, k) {
      if k in disk {
        forall c: nat | c < |buf| ensures LooseIn(buf1, disk, k, c) <==> LooseIn(buf, disk, k, c) {}
      }
    }
  }

  ghost predicate BuffersOk<T>(buf: seq<Buf<T>>, disk: map<Key, T>, hold: seq<nat>, logged: set<Key>) {
    |buf| == NBUF && Unique(buf) && Counted(buf, hold, logged) && Pinned(buf, logged) && OnDisk(buf, disk)
  }

  /** Updating one buffer keeps logged blocks cached if it keeps caching its own. */
  lemma UpdateKeepsPinned<T>(buf: seq<Buf<T>>, logged: set<Key>, b: nat, x: Buf<T>)
    requires Pinned(buf, logged) && b < |buf|
    requires buf[b].Key() in logged && buf[b].valid ==> x.Caches(buf[b].Key())
    ensures Pinned(buf[b := x], logged)
  {
    var buf1 := buf[b := x];
    forall k | k in logged
      ensures exists c | 0 <= c < |buf1| :: buf1[c].Caches(k)
    {
      var c :| 0 <= c < |buf| && buf[c].Caches(k);
      assert buf1[c].Caches(k);
    }
  }

  lemma TakeKeepsOk<T>(buf: seq<Buf<T>>, disk: map<Key, T>, hold: seq<nat>, logged: set<Key>, b: nat)
    requires BuffersOk(buf, disk, hold, logged) && b < NBUF
    ensures var buf1 := buf[b := buf[b].(refcnt := buf[b].refcnt + 1)];
            BuffersOk(buf1, disk, hold[b := hold[b] + 1], logged) && SameContents(buf, buf1, disk)
  {
    CountKeepsContents(buf, disk, b, buf[b].refcnt + 1);
    UpdateKeepsPinned(buf, logged, b, buf[b].(refcnt := buf[b].refcnt + 1));
  }

  /** A reference keeps a block from being recycled. */
  lemma TakeTies<T>(buf: seq<Buf<T>>, disk: map<Key, T>, b: nat, k: Key)
    requires Unique(buf) && b < |buf|
    ensures var buf1 := buf[b := buf[b].(refcnt := buf[b].refcnt + 1)];
            Loose(buf1, disk, k) <==> Loose(buf, disk, k) && buf[b].Key() != k
  {
    var buf1 := buf[b := buf[b].(refcnt := buf[b].refcnt + 1)];
    if k in disk {
      forall c: nat | c < |buf| && c != b ensures LooseIn(buf1, disk, k, c) <==> LooseIn(buf, disk, k, c) {}
    }
  }

  lemma RecycleKeepsOk<T>(buf: seq<Buf<T>>, disk: map<Key, T>, hold: seq<nat>, logged: set<Key>, b: nat, k: Key)
    requires BuffersOk(buf, disk, hold, logged) && b < NBUF && buf[b].refcnt == 0
    requires forall c | 0 <= c < NBUF :: buf[c].Key() != k
    requires k in disk
    ensures buf[b].Key() !in logged
    ensures BuffersOk(Recycled(buf, b, k), disk, hold[b := hold[b] + 1], logged)
  {
    assert k !in logged;
    UpdateKeepsPinned(buf, logged, b, Recycled(buf, b, k)[b]);
  }

  /** The holder of a buffer loads or changes its data. */
  lemma StoreKeepsOk<T>(buf: seq<Buf<T>>, disk: map<Key, T>, hold: seq<nat>, logged: set<Key>, b: nat, v: T)
    requires BuffersOk(buf, disk, hold, logged) && b < NBUF && 0 < hold[b] && buf[b].dev != 0 && buf[b].Key() in disk
    ensures var buf1 := buf[b := buf[b].(valid := true, data := v)];
            BuffersOk(buf1, disk, hold, logged) && SameLoose(buf, disk, buf1, disk)
            && forall k | k in disk && k.0 != 0 ::
                 Latest(buf1, disk, k) == if k == buf[b].Key() then v else Latest(buf, disk, k)
  {
    var buf1 := buf[b := buf[b].(valid := true, data := v)];
    UpdateKeepsPinned(buf, logged, b, buf1[b]);
    HeldNotLoose(buf, disk, b, buf1[b]);
    forall k | k in disk && k.0 != 0
      ensures Latest(buf1, disk, k) == if k == buf[b].Key() then v else Latest(buf, disk, k)
    {
      if k == buf[b].Key() {
        LatestCached(buf1, disk, b);
      } else if c :| 0 <= c < |buf| && buf[c].Caches(k) {
        assert buf1[c].Caches(k);
        LatestCached(buf, disk, c);
        LatestCached(buf1, disk, c);
      } else {
        assert forall c | 0 <= c < |buf1| :: buf1[c].Caches(k) ==> buf[c].Caches(k);
      }
    }
  }

  /** Writing a buffer back changes the disk and no contents. */
  lemma FlushKeepsOk<T>(buf: seq<Buf<T>>, disk: map<Key, T>, hold: seq<nat>, logged: set<Key>, b: nat)
    requires BuffersOk(buf, disk, hold, logged) && b < NBUF && buf[b].valid && buf[b].dev != 0 && buf[b].Key() in disk
    requires 0 < hold[b]
    ensures var disk1 := disk[buf[b].Key() := buf[b].data];
            BuffersOk(buf, disk1, hold, logged) && SameLoose(buf, disk, buf, disk1)
            && forall k | k in disk && k.0 != 0 :: Latest(buf, disk1, k) == Latest(buf, disk, k)
  {
    var disk1 := disk[buf[b].Key() := buf[b].data];
    forall k ensures Loose(buf, disk1, k) <==> Loose(buf, disk, k) {
      if k in disk {
        forall c: nat | c < |buf| ensures LooseIn(buf, disk1, k, c) && k.0 != 0 <==>
          LooseIn(buf, disk, k, c) && k.0 != 0 {}
      }
    }
    forall k | k in disk && k.0 != 0
      ensures Latest(buf, disk1, k) == Latest(buf, disk, k)
    {
      if c :| 0 <= c < |buf| && buf[c].Caches(k) {
        LatestCached(buf, disk, c);
        LatestCached(buf, disk1, c);
      } else {
        assert buf[b].Caches(buf[b].Key());
      }
    }
  }

  lemma BufferFacts<T>(buf: seq<Buf<T>>, disk: map<Key, T>, hold: seq<nat>, logged: set<Key>, b: nat)
    requires BuffersOk(buf, disk, hold, logged) && b < NBUF
    ensures |buf| == |hold| == NBUF && hold[b] <= buf[b].refcnt && SameContents(buf, buf, disk) && Unique(buf)
    ensures buf[b].dev != 0 ==> buf[b].Key() in disk
  {
  }

  lemma DropKeepsOk<T>(buf: seq<Buf<T>>, disk: map<Key, T>, hold: seq<nat>, logged: set<Key>, b: nat)
    requires BuffersOk(buf, disk, hold, logged) && b < NBUF && 0 < hold[b]
    ensures var buf1 := buf[b := buf[b].(refcnt := buf[b].refcnt - 1)];
            BuffersOk(buf1, disk, hold[b := hold[b] - 1], logged) && SameContents(buf, buf1, disk)
  {
    CountKeepsContents(buf, disk, b, buf[b].refcnt - 1);
    UpdateKeepsPinned(buf, logged, b, buf[b].(refcnt := buf[b].refcnt - 1));
  }

  /** Dropping the last reference to a buffer that the disk does not agree with makes
      its block loose. */
  lemma DropLoosens<T>(buf: seq<Buf<T>>, disk: map<Key, T>, b: nat, k: Key)
    requires b < |buf| && 0 < buf[b].refcnt && (k.0 != 0 && buf[b].Key() == k ==> k in disk)
    ensures var buf1 := buf[b := buf[b].(refcnt := buf[b].refcnt - 1)];
            Loose(buf1, disk, k) <==>
              Loose(buf, disk, k) || (k.0 != 0 && buf[b].refcnt == 1 && buf[b].Caches(k) && buf[b].data != disk[k])
  {
    var buf1 := buf[b := buf[b].(refcnt := buf[b].refcnt - 1)];
    if k in disk {
      forall c: nat | c < |buf| && c != b ensures LooseIn(buf1, disk, k, c) <==> LooseIn(buf, disk, k, c) {}
      assert LooseIn(buf1, disk, k, b) <==> buf[b].refcnt == 1 && buf[b].Caches(k) && buf[b].data != disk[k];
    }
  }

  lemma PinKeepsOk<T>(buf: seq<Buf<T>>, disk: map<Key, T>, hold: seq<nat>, logged: set<Key>, b: nat)
    requires BuffersOk(buf, disk, hold, logged) && b < NBUF
    requires buf[b].valid && buf[b].dev != 0 && buf[b].Key() !in logged && 0 < hold[b]
    ensures var buf1 := buf[b := buf[b].(refcnt := buf[b].refcnt + 1)];
            BuffersOk(buf1, disk, hold, logged + {buf[b].Key()}) && SameContents(buf, buf1, disk)
            && SameLoose(buf, disk, buf1, disk)
  {
    var buf1 := buf[b := buf[b].(refcnt := buf[b].refcnt + 1)];
    CountKeepsContents(buf, disk, b, buf[b].refcnt + 1);
    UpdateKeepsPinned(buf, logged, b, buf1[b]);
    HeldNotLoose(buf, disk, b, buf1[b]);
    assert buf1[b].Caches(buf[b].Key());
  }

  lemma UnpinKeepsOk<T>(buf: seq<Buf<T>>, disk: map<Key, T>, hold: seq<nat>, logged: set<Key>, b: nat)
    requires BuffersOk(buf, disk, hold, logged) && b < NBUF && 0 < hold[b] && buf[b].Key() in logged
    ensures var buf1 := buf[b := buf[b].(refcnt := buf[b].refcnt - 1)];
            BuffersOk(buf1, disk, hold, logged - {buf[b].Key()}) && SameContents(buf, buf1, disk)
            && SameLoose(buf, disk, buf1, disk)
  {
    CountKeepsContents(buf, disk, b, buf[b].refcnt - 1);
    HeldNotLoose(buf, disk, b, buf[b].(refcnt := buf[b].refcnt - 1));
    UpdateKeepsPinned(buf, logged, b, buf[b].(refcnt := buf[b].refcnt - 1));
  }

  /** A write that is forgotten: the holder of a block that is not in the log stores new
      data in its buffer, releases it, and the buffer is recycled for another block.
      Then the block reads as if it had never been written. */
  lemma ForgottenWrite<T>(buf: seq<Buf<T>>, disk: map<Key, T>, b: nat, v: T, k1: Key)
    requires Unique(buf) && b < |buf| && buf[b].valid && buf[b].dev != 0 && buf[b].refcnt == 1
    requires buf[b].Key() in disk && v != disk[buf[b].Key()] && forall c | 0 <= c < |buf| :: buf[c].Key() != k1
    ensures var k := buf[b].Key();
            var stored := buf[b := buf[b].(data := v)];
            var released := stored[b := stored[b].(refcnt := 0)];
            Latest(stored, disk, k) == v && Loose(released, disk, k)
              && Latest(Recycled(released, b, k1), disk, k) == disk[k]
  {
    var k := buf[b].Key();
    var stored := buf[b := buf[b].(data := v)];
    var released := stored[b := stored[b].(refcnt := 0)];
    LatestCached(stored, disk, b);
    assert LooseIn(released, disk, k, b);
    RecycleContents(released, disk, b, k1, k);
  }

  class Cache<T(0)> {
    var next: seq<nat>
    var prev: seq<nat>
    var buf: seq<Buf<T>>
    var disk: map<Key, T>
    ghost var order: seq<nat>    // most to least recently used
    ghost var pos: seq<nat>      // its inverse
    ghost var hold: seq<nat>     // bget calls without their brelse, per buffer
    ghost var logged: set<Key>   // blocks in the log header

    ghost predicate Valid()
      reads this
    {
      Ring(next, prev, order, pos) && BuffersOk(buf, disk, hold, logged)
    }

    ghost function Contents(k: Key): T
      requires k in disk
      reads this
    {
      Latest(buf, disk, k)
    }

    /** binit: link the buffers one after the other, each in front of the last. */
    constructor (disk: map<Key, T>, blank: T)
      ensures Valid() && this.disk == disk && logged == {}
      ensures forall k :: !Loose(buf, disk, k)
      ensures forall b | 0 <= b < NBUF :: buf[b] == Buf(0, 0, false, 0, blank) && hold[b] == 0
    {
      var nx, pv := seq(NBUF + 1, i => HEAD), seq(NBUF + 1, i => HEAD);
      var b := 0;
      while b < NBUF
        invariant 0 <= b <= NBUF && |nx| == |pv| == NBUF + 1
        invariant nx[HEAD] == (if b == 0 then HEAD else b - 1)
        invariant pv[HEAD] == (if b == 0 then HEAD else 0)
        invariant forall i | 0 <= i < b :: nx[i] == if i == 0 then HEAD else i - 1
        invariant forall i | 0 <= i < b :: pv[i] == if i == b - 1 then HEAD else i + 1
      {
        nx := nx[b := nx[HEAD]];
        pv := pv[b := HEAD];
        pv := pv[nx[HEAD] := b];
        nx := nx[HEAD := b];
        b := b + 1;
      }
      next, prev := nx, pv;
      this.disk := disk;
      buf := seq(NBUF, i => Buf(0, 0, false, 0, blank));
      order := seq(NBUF, i requires 0 <= i < NBUF => NBUF - 1 - i);
      pos := seq(NBUF, i requires 0 <= i < NBUF => NBUF - 1 - i);
      hold := seq(NBUF, i => 0);
      logged := {};
    }

    /** bget's first scan, from most to least recently used. */
    method FindCached(k: Key) returns (b: nat)
      requires Valid()
      ensures b <= NBUF
      ensures b < NBUF ==> buf[b].Key() == k
      ensures b == HEAD ==> forall c | 0 <= c < NBUF :: buf[c].Key() != k
    {
      b := next[HEAD];
      ghost var i := 0;
      while b != HEAD
        invariant 0 <= i <= NBUF && b == (if i < NBUF then order[i] else HEAD)
        invariant forall j | 0 <= j < i :: buf[order[j]].Key() != k
        decreases NBUF - i
      {
        if buf[b].Key() == k {
          return;
        }
        b := next[b];
        i := i + 1;
      }
      forall c | 0 <= c < NBUF ensures buf[c].Key() != k {
        assert order[pos[c]] == c;
      }
    }

    /** bget's second scan, from least to most recently used. */
    method FindUnused() returns (b: nat)
      requires Valid()
      ensures b <= NBUF
      ensures b < NBUF ==> buf[b].refcnt == 0
      ensures b < NBUF ==> forall c | 0 <= c < NBUF && pos[b] < pos[c] :: 0 < buf[c].refcnt
      ensures b == HEAD ==> forall c | 0 <= c < NBUF :: 0 < buf[c].refcnt
    {
      b := prev[HEAD];
      ghost var i := NBUF;
      while b != HEAD
        invariant 0 <= i <= NBUF && b == (if 0 < i then order[i - 1] else HEAD)
        invariant forall j | i <= j < NBUF :: 0 < buf[order[j]].refcnt
        decreases i
      {
        if buf[b].refcnt == 0 {
          forall c | 0 <= c < NBUF && pos[b] < pos[c] ensures 0 < buf[c].refcnt {
            assert order[pos[c]] == c;
          }
          return;
        }
        b := prev[b];
        i := i - 1;
      }
      forall c | 0 <= c < NBUF ensures 0 < buf[c].refcnt {
        assert order[pos[c]] == c;
      }
    }

    /** bget up to the sleep lock; no buffer left is the source's panic.  A cached
        block keeps its buffer; otherwise the least recently used buffer without
        references, hence no logged block, is recycled.  A block changes exactly if
        it was loose in that buffer, and then becomes what the disk has. */
    method BGet(k: Key) returns (b: nat)
      requires Valid() && k.0 != 0 && k in disk
      modifies this`buf, this`hold
      ensures Valid()
      ensures b < NBUF ==> buf[b].Key() == k && hold == old(hold)[b := old(hold)[b] + 1]
      ensures b < NBUF ==> old(buf[b]).Key() == k || (old(buf[b]).refcnt == 0 && old(buf[b]).Key() !in logged)
      ensures b < NBUF ==> forall c | 0 <= c < NBUF && c != b :: buf[c] == old(buf[c])
      ensures b < NBUF && old(buf[b]).Key() != k ==>
        forall c | 0 <= c < NBUF && pos[b] < pos[c] :: 0 < buf[c].refcnt
      ensures b >= NBUF ==> b == HEAD && buf == old(buf) && hold == old(hold)
                            && forall c | 0 <= c < NBUF :: 0 < buf[c].refcnt && buf[c].Key() != k
      ensures forall x | x in disk && x.0 != 0 ::
        (Contents(x) != old(Contents(x)) <==> b < NBUF && old(buf[b]).Key() == x != k && Loose(old(buf), disk, x))
        && (Contents(x) == old(Contents(x)) || Contents(x) == disk[x])
      ensures forall x :: Loose(buf, disk, x) <==> Loose(old(buf), disk, x) && !(b < NBUF && old(buf[b]).Key() == x)
    {
      hide Ring, BuffersOk, Loose, Latest;
      BufferFacts(buf, disk, hold, logged, 0);
      b := FindCached(k);
      if b != HEAD {
        TakeKeepsOk(buf, disk, hold, logged, b);
        forall x ensures var buf1 := buf[b := buf[b].(refcnt := buf[b].refcnt + 1)];
          Loose(buf1, disk, x) <==> Loose(buf, disk, x) && buf[b].Key() != x
        {
          TakeTies(buf, disk, b, x);
        }
        buf := buf[b := buf[b].(refcnt := buf[b].refcnt + 1)];
        hold := hold[b := hold[b] + 1];
        return;
      }
      b := FindUnused();
      if b != HEAD {
        RecycleKeepsOk(buf, disk, hold, logged, b, k);
        RecycleAll(buf, disk, b, k);
        buf := buf[b := buf[b].(dev := k.0, blockno := k.1, valid := false, refcnt := 1)];
        hold := hold[b := hold[b] + 1];
      }
    }

    /** The rest of bread, with the buffer's sleep lock held: the caller gets the
        latest contents of the block. */
    method Fill(b: nat)
      requires Valid() && b < NBUF && 0 < hold[b] && buf[b].dev != 0
      modifies this`buf
      ensures Valid() && buf == old(buf)[b := buf[b]] && SameContents(old(buf), buf, disk)
      ensures SameLoose(old(buf), disk, buf, disk)
      ensures buf[b].Caches(old(buf[b]).Key()) && buf[b].refcnt == old(buf[b]).refcnt
      ensures buf[b].data == old(Contents(buf[b].Key()))
    {
      if !buf[b].valid {
        assert forall c | 0 <= c < NBUF :: !buf[c].Caches(buf[b].Key());
        StoreKeepsOk(buf, disk, hold, logged, b, disk[buf[b].Key()]);
        buf := buf[b := buf[b].(data := disk[buf[b].Key()], valid := true)];
      } else {
        LatestCached(buf, disk, b);
      }
    }

    /** bread: get a buffer for the block, holding its latest contents. */
    method BRead(k: Key) returns (b: nat)
      requires Valid() && k.0 != 0 && k in disk
      modifies this`buf, this`hold
      ensures Valid()
      ensures b < NBUF ==> buf[b].Caches(k) && buf[b].data == old(Contents(k)) == Contents(k)
      ensures forall x | x in disk && x.0 != 0 ::
        Contents(x) != old(Contents(x)) <==> b < NBUF && old(buf[b]).Key() == x != k && Loose(old(buf), disk, x)
      ensures forall x :: Loose(buf, disk, x) <==> Loose(old(buf), disk, x) && !(b < NBUF && old(buf[b]).Key() == x)
      ensures b < NBUF ==> hold == old(hold)[b := old(hold)[b] + 1]
      ensures b >= NBUF ==> b == HEAD && buf == old(buf) && hold == old(hold)
    {
      b := BGet(k);
      if b < NBUF {
        Fill(b);
      }
    }

    /** The holder stores new data in its buffer; the block, and only it, changes. */
    method SetData(b: nat, v: T)
      requires Valid() && b < NBUF && 0 < hold[b] && buf[b].valid && buf[b].dev != 0
      modifies this`buf
      ensures Valid() && buf == old(buf)[b := old(buf[b]).(data := v)]
      ensures forall k | k in disk && k.0 != 0 :: Contents(k) == if k == buf[b].Key() then v else old(Contents(k))
      ensures SameLoose(old(buf), disk, buf, disk)
    {
      StoreKeepsOk(buf, disk, hold, logged, b, v);
      buf := buf[b := buf[b].(data := v, valid := true)];
    }

    /** bwrite. */
    method BWrite(b: nat)
      requires Valid() && b < NBUF && 0 < hold[b] && buf[b].valid && buf[b].dev != 0
      modifies this`disk
      ensures Valid() && disk == old(disk)[buf[b].Key() := buf[b].data]
      ensures forall k | k in disk && k.0 != 0 :: Contents(k) == old(Contents(k))
      ensures SameLoose(buf, old(disk), buf, disk)
    {
      FlushKeepsOk(buf, disk, hold, logged, b);
      disk := disk[buf[b].Key() := buf[b].data];
    }

    /** brelse.  No block changes, but if the last reference goes and the disk does
        not have the buffer's data, the block becomes loose.  A buffer without
        references becomes the most recently used. */
    method BRelse(b: nat)
      requires Valid() && b < NBUF && 0 < hold[b]
      modifies this`buf, this`hold, this`next, this`prev, this`order, this`pos
      ensures Valid() && SameContents(old(buf), buf, disk)
      ensures buf == old(buf)[b := old(buf[b]).(refcnt := old(buf[b]).refcnt - 1)]
      ensures hold == old(hold)[b := old(hold)[b] - 1]
      ensures buf[b].dev != 0 ==> buf[b].Key() in disk
      ensures forall k :: Loose(buf, disk, k) <==>
        Loose(old(buf), disk, k)
        || (k.0 != 0 && buf[b].refcnt == 0 && buf[b].Caches(k) && buf[b].data != disk[k])
      ensures order == if buf[b].refcnt == 0 then ToFront(old(order), old(pos)[b]) else old(order)
    {
      hide Ring, BuffersOk, SameContents, ToFront, Loose;
      BufferFacts(buf, disk, hold, logged, b);
      DropKeepsOk(buf, disk, hold, logged, b);
      forall k ensures var buf1 := buf[b := buf[b].(refcnt := buf[b].refcnt - 1)];
        Loose(buf1, disk, k) <==>
          Loose(buf, disk, k) || (k.0 != 0 && buf[b].refcnt == 1 && buf[b].Caches(k) && buf[b].data != disk[k])
      {
        DropLoosens(buf, disk, b, k);
      }
      buf := buf[b := buf[b].(refcnt := buf[b].refcnt - 1)];
      hold := hold[b := hold[b] - 1];
      if buf[b].refcnt == 0 {
        MoveToFront(b);
      }
    }

    /** brelse's pointer updates. */
    method MoveToFront(b: nat)
      requires Ring(next, prev, order, pos) && b < NBUF
      modifies this`next, this`prev, this`order, this`pos
      ensures Ring(next, prev, order, pos) && order == ToFront(old(order), old(pos)[b])
    {
      RelinkMovesToFront(next, prev, order, pos, b);
      order, pos := ToFront(order, pos[b]), PosToFront(pos, pos[b]);
      prev := prev[next[b] := prev[b]];
      next := next[prev[b] := next[b]];
      next := next[b := next[HEAD]];
      prev := prev[b := HEAD];
      prev := prev[next[HEAD] := b];
      next := next[HEAD := b];
      assert (next, prev) == Relink(old(next), old(prev), b);
    }

    /** bpin, when log_write adds the block to the header. */
    method BPin(b: nat)
      requires Valid() && b < NBUF && 0 < hold[b] && buf[b].valid && buf[b].dev != 0 && buf[b].Key() !in logged
      modifies this`buf, this`logged
      ensures Valid() && logged == old(logged) + {buf[b].Key()} && SameContents(old(buf), buf, disk)
      ensures SameLoose(old(buf), disk, buf, disk)
      ensures buf == old(buf)[b := old(buf[b]).(refcnt := old(buf[b]).refcnt + 1)]
    {
      PinKeepsOk(buf, disk, hold, logged, b);
      logged := logged + {buf[b].Key()};
      buf := buf[b := buf[b].(refcnt := buf[b].refcnt + 1)];
    }

    /** bunpin, when install_trans has written the block home. */
    method BUnpin(b: nat)
      requires Valid() && b < NBUF && 0 < hold[b] && buf[b].Key() in logged
      modifies this`buf, this`logged
      ensures Valid() && logged == old(logged) - {buf[b].Key()} && SameContents(old(buf), buf, disk)
      ensures SameLoose(old(buf), disk, buf, disk)
      ensures buf == old(buf)[b := old(buf[b]).(refcnt := old(buf[b]).refcnt - 1)]
    {
      UnpinKeepsOk(buf, disk, hold, logged, b);
      logged := logged - {buf[b].Key()};
      buf := buf[b := buf[b].(refcnt := buf[b].refcnt - 1)];
    }
  }
}
