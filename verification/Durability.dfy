/** Crashes during a file's write: the inode layer's transactions (FileIO) run through
    the log (LogProtocol), beside other operations that share the commit group.
    Whatever the crash, the next boot finds the file as it was when the group was
    opened or as the transaction left it; and as the transaction left it once the
    group is committed. */
module Durability {
  import opened Blocks
  import opened Records
  import opened Fs
  import opened Inodes
  import opened FileIO
  import opened LogFormat
  import P = LogProtocol

  type Write = P.LWrite<Block>
  type State = P.State<Block>
  type Ops = P.Ops<Block>
  type Step = P.Step<Block>

  /** The log lies between the superblock and the inode blocks. */
  ghost predicate Placed(l: Layout, sb: Super) {
    l.Ok() && sb.Ok() && l.nblocks == sb.size && l.start + l.size <= sb.inodestart
  }

  // ---------- What a boot finds on a disk ----------

  /** The block pointers of an inode, as bmap reads them. */
  ghost function SlotsOn(disk: map<nat, Block>, ip: Inode): (s: Slots)
    requires |ip.addrs| == NDIRECT + 1
  {
    var ind := ip.addrs[NDIRECT];
    ip.addrs + if ind == 0 || ind !in disk then seq(NINDIRECT, j => 0) else Words(disk[ind], 0, NINDIRECT)
  }

  /** The contents of file `inum`, from its inode record on. */
  ghost function ContentOn(sb: Super, disk: map<nat, Block>, inum: nat): (c: seq<byte>) {
    if sb.IBlock(inum) !in disk then []
    else
      var ip := ReadInode(disk[sb.IBlock(inum)], inum % IPB);
      Content(disk, SlotsOn(disk, ip), ip.size)
  }

  /** The store is well formed and has the inode of file `inum` in its record. */
  ghost predicate Recorded(sb: Super, t: Store, recs: map<nat, Inode>, inum: nat) {
    && TreeOk(sb, t) && RecordsAre(sb, t.disk, recs) && (forall b | b in t.used :: b < sb.size)
    && (forall b: nat | b < sb.size :: b in t.disk)
    && inum in t.inodes && inum in recs && recs[inum] == t.inodes[inum]
  }

  lemma SavedRecorded(fs: FileSystem, inum: nat)
    requires fs.Valid() && inum in fs.inodes && inum in fs.dinodes && fs.dinodes[inum] == fs.inodes[inum]
    ensures Recorded(fs.sb, fs.Saved(), fs.dinodes, inum)
  {
    DurableTree(fs.sb, fs.S(), fs.loose);
    var disk1 := fs.Saved().disk;
    forall i: nat ensures RecordIs(fs.sb, disk1, fs.dinodes, i) {
      assert RecordIs(fs.sb, fs.disk, fs.dinodes, i);
      if i in fs.dinodes {
        IBlockBounds(fs.sb, i);
      }
    }
  }

  /** Block `b` is one of the file's. */
  ghost predicate Mine(t: Store, inum: nat, b: nat) {
    b in t.owner && t.owner[b].inum == inum
  }

  ghost function RecordOn(sb: Super, d: map<nat, Block>, inum: nat): Inode
    requires sb.IBlock(inum) in d
  {
    ReadInode(d[sb.IBlock(inum)], inum % IPB)
  }

  ghost predicate BlockAgrees(t: Store, inum: nat, d: map<nat, Block>, e: map<nat, Block>, b: nat) {
    Mine(t, inum, b) ==> b in d && b in e && d[b] == e[b]
  }

  /** Two disks have the same record of the file, and the same in all its blocks. */
  ghost predicate Agree(sb: Super, t: Store, inum: nat, d: map<nat, Block>, e: map<nat, Block>) {
    && sb.IBlock(inum) in d && sb.IBlock(inum) in e && RecordOn(sb, d, inum) == RecordOn(sb, e, inum)
    && forall b {:trigger BlockAgrees(t, inum, d, e, b)} :: BlockAgrees(t, inum, d, e, b)
  }

  lemma AgreeTwice(sb: Super, t: Store, inum: nat, d: map<nat, Block>, e: map<nat, Block>, f: map<nat, Block>)
    requires Agree(sb, t, inum, d, e) && Agree(sb, t, inum, e, f)
    ensures Agree(sb, t, inum, d, f)
  {
    forall b: nat ensures BlockAgrees(t, inum, d, f, b) {
      assert BlockAgrees(t, inum, d, e, b) && BlockAgrees(t, inum, e, f, b);
    }
  }

  lemma MineBounds(sb: Super, t: Store, inum: nat, b: nat)
    requires TreeOk(sb, t) && (forall c | c in t.used :: c < sb.size) && Mine(t, inum, b)
    ensures sb.datastart <= b < sb.size
  {
    assert OwnerOk(t, b);
    OwnedSlot(sb, t, inum, t.owner[b].slot);
  }

  lemma HomeAgrees(l: Layout, sb: Super, t: Store, recs: map<nat, Inode>, inum: nat, d: map<nat, Block>,
                   e: map<nat, Block>)
    requires Placed(l, sb) && Recorded(sb, t, recs, inum) && HomeIs(l, d, e)
    ensures Agree(sb, t, inum, d, e)
  {
    assert RecordIs(sb, t.disk, recs, inum);
    IBlockBounds(sb, inum);
    assert l.Home(sb.IBlock(inum));
    forall b: nat ensures BlockAgrees(t, inum, d, e, b) {
      if Mine(t, inum, b) {
        MineBounds(sb, t, inum, b);
        assert l.Home(b);
      }
    }
  }

  lemma SlotAgrees(sb: Super, t: Store, inum: nat, e: map<nat, Block>, k: nat)
    requires TreeOk(sb, t) && inum in t.slots && k < NSLOTS && t.slots[inum][k] != 0 && Agree(sb, t, inum, e, t.disk)
    ensures var b := t.slots[inum][k]; b in e && b in t.disk && e[b] == t.disk[b]
  {
    OwnedSlot(sb, t, inum, k);
    assert SlotOk(t, inum, k) && BlockAgrees(t, inum, e, t.disk, t.slots[inum][k]);
  }

  /** A boot reads the file's slots from a disk that agrees with the store's. */
  lemma SlotsFound(sb: Super, t: Store, inum: nat, e: map<nat, Block>)
    requires TreeOk(sb, t) && inum in t.inodes && Agree(sb, t, inum, e, t.disk)
    ensures |t.inodes[inum].addrs| == NDIRECT + 1 && inum in t.slots
    ensures SlotsOn(e, t.inodes[inum]) == t.slots[inum]
  {
    AddrsOf(sb, t, inum);
    var s, s1 := t.slots[inum], SlotsOn(e, t.inodes[inum]);
    forall k: nat | k < NSLOTS ensures s1[k] == s[k] {
      if NDIRECT < k {
        if s[NDIRECT] == 0 {
          NoEntries(sb, t, inum, k);
        } else {
          SlotAgrees(sb, t, inum, e, NDIRECT);
          IndirectEntry(sb, t, inum, k - NDIRECT - 1);
        }
      }
    }
  }

  /** And so its contents. */
  lemma ContentFound(sb: Super, t: Store, recs: map<nat, Inode>, inum: nat, e: map<nat, Block>)
    requires sb.Ok() && Recorded(sb, t, recs, inum) && Agree(sb, t, inum, e, t.disk)
    ensures ContentOn(sb, e, inum) == ContentOf(t, inum)
  {
    assert RecordIs(sb, t.disk, recs, inum);
    SlotsFound(sb, t, inum, e);
    var s, size := t.slots[inum], t.inodes[inum].size;
    assert FileOk(t, inum);
    forall p: nat | p < size ensures Cell(e, s, p) == Cell(t.disk, s, p) {
      assert HasBlock(s, p / BSIZE);
      SlotAgrees(sb, t, inum, e, DataSlot(p / BSIZE));
    }
  }

  // ---------- The log_writes of a transaction ----------

  ghost predicate LastAt(ws: seq<Write>, b: nat, v: Block, i: nat) {
    i < |ws| && ws[i].blockno == b && ws[i].data == v && forall j | i < j < |ws| :: ws[j].blockno != b
  }

  /** The writes `ws` log_write exactly the blocks in `logged`, at last with what is in
      `disk`. */
  ghost predicate Logging(ws: seq<Write>, logged: set<nat>, disk: map<nat, Block>) {
    && (forall i | 0 <= i < |ws| :: ws[i].blockno in logged)
    && (forall b | b in logged :: b in disk && exists i: nat :: LastAt(ws, b, disk[b], i))
  }

  lemma {:induction false} Untouched(d: map<nat, Block>, ws: seq<Write>, b: nat)
    requires b in d && forall i | 0 <= i < |ws| :: ws[i].blockno != b
    ensures P.ApplyWrites(d, ws)[b] == d[b]
  {
    if ws != [] {
      Untouched(d, ws[..|ws| - 1], b);
    }
  }

  lemma {:induction false} LastCounts(d: map<nat, Block>, ws: seq<Write>, b: nat, v: Block, i: nat)
    requires b in d && LastAt(ws, b, v, i)
    ensures P.ApplyWrites(d, ws)[b] == v
  {
    var n := |ws| - 1;
    if i < n {
      assert ws[n].blockno != b;
      assert LastAt(ws[..n], b, v, i);
      LastCounts(d, ws[..n], b, v, i);
    }
  }

  /** A transaction's log_writes make the disk before it the disk after it. */
  lemma WritesAmount(d: map<nat, Block>, d1: map<nat, Block>, logged: set<nat>, ws: seq<Write>, b: nat)
    requires Journaled(d, {}, d1, logged) && Logging(ws, logged, d1) && b in d
    ensures b in d1 && P.ApplyWrites(d, ws)[b] == d1[b]
  {
    assert ChangeLogged(d, {}, d1, logged, b);
    if b in logged {
      var i: nat :| LastAt(ws, b, d1[b], i);
      LastCounts(d, ws, b, d1[b], i);
    } else {
      Untouched(d, ws, b);
    }
  }

  /** There are such log_writes, as many as there are blocks. */
  lemma {:induction false} SomeWrites(op: nat, logged: set<nat>, disk: map<nat, Block>) returns (ws: seq<Write>)
    requires forall b | b in logged :: b in disk
    ensures Logging(ws, logged, disk) && |ws| == |logged| && forall i | 0 <= i < |ws| :: ws[i].op == op
  {
    if logged == {} {
      ws := [];
    } else {
      var b :| b in logged;
      var rest := SomeWrites(op, logged - {b}, disk);
      var w: Write := P.LWrite(op, b, disk[b]);
      ws := rest + [w];
      assert LastAt(ws, b, disk[b], |rest|);
      forall c | c in logged && c != b ensures exists i: nat :: LastAt(ws, c, disk[c], i) {
        var i: nat :| LastAt(rest, c, disk[c], i);
        assert LastAt(ws, c, disk[c], i);
      }
    }
  }

  // ---------- The transaction among other operations ----------

  /** What a transaction does to file `inum`: the last commit left the store `was`, the
      open group has made it `t`, and the transaction makes it `u`. */
  datatype Change = Change(sb: Super, inum: nat, was: Store, t: Store, u: Store) {
    ghost predicate Mentions(b: nat) {
      Mine(was, inum, b) || Mine(t, inum, b) || Mine(u, inum, b)
    }

    /** Two disks agree on all that the file is made of, before or after. */
    ghost predicate Same(d: map<nat, Block>, e: map<nat, Block>) {
      Agree(sb, was, inum, d, e) && Agree(sb, t, inum, d, e) && Agree(sb, u, inum, d, e)
    }
  }

  lemma SameTwice(f: Change, d: map<nat, Block>, e: map<nat, Block>, e1: map<nat, Block>)
    requires f.Same(d, e) && f.Same(e, e1)
    ensures f.Same(d, e1)
  {
    AgreeTwice(f.sb, f.was, f.inum, d, e, e1);
    AgreeTwice(f.sb, f.t, f.inum, d, e, e1);
    AgreeTwice(f.sb, f.u, f.inum, d, e, e1);
  }

  /** One block is written, on both disks or in a way that leaves the file alone. */
  lemma AgreeWrite(sb: Super, t: Store, inum: nat, d: map<nat, Block>, e: map<nat, Block>, b: nat, blk: Block)
    requires Agree(sb, t, inum, d, e)
    ensures Agree(sb, t, inum, d[b := blk], e[b := blk])
    ensures !Mine(t, inum, b) && (b == sb.IBlock(inum) ==> ReadInode(blk, inum % IPB) == RecordOn(sb, d, inum)) ==>
      Agree(sb, t, inum, d[b := blk], e)
  {
    var d1, e1 := d[b := blk], e[b := blk];
    forall c: nat ensures BlockAgrees(t, inum, d1, e1, c) && (!Mine(t, inum, b) ==> BlockAgrees(t, inum, d1, e, c)) {
      assert BlockAgrees(t, inum, d, e, c);
    }
  }

  lemma SameWrite(f: Change, d: map<nat, Block>, e: map<nat, Block>, b: nat, blk: Block)
    requires f.Same(d, e)
    ensures f.Same(d[b := blk], e[b := blk])
    ensures f.sb.IBlock(f.inum) in d
    ensures !f.Mentions(b) && (b == f.sb.IBlock(f.inum) ==> ReadInode(blk, f.inum % IPB) == RecordOn(f.sb, d, f.inum))
      ==> f.Same(d[b := blk], e)
  {
    hide Agree;
    assert f.sb.IBlock(f.inum) in d by { AgreeRecord(f.sb, f.t, f.inum, d, e); }
    AgreeWrite(f.sb, f.was, f.inum, d, e, b, blk);
    AgreeWrite(f.sb, f.t, f.inum, d, e, b, blk);
    AgreeWrite(f.sb, f.u, f.inum, d, e, b, blk);
  }

  lemma AgreeRecord(sb: Super, t: Store, inum: nat, d: map<nat, Block>, e: map<nat, Block>)
    requires Agree(sb, t, inum, d, e)
    ensures sb.IBlock(inum) in d
  {
  }

  /** The operation makes the log_writes `ws` and then ends.  (A store into a block that
      is in the group already counts as one.)  Others leave the file's blocks alone;
      if they log_write the block of its inode record, they keep the record. */
  ghost predicate StepOf(l: Layout, f: Change, s: State, step: Step, op: nat, ws: seq<Write>)
    requires l.Ok()
  {
    match step
    case LogWrite(o, b, blk) =>
      o != op && P.Enabled(l, s, step) ==>
        !f.Mentions(b) && (b == f.sb.IBlock(f.inum) ==>
          ReadInode(blk, f.inum % IPB) == ReadInode(P.View(s, b), f.inum % IPB))
    case EndOp(o) => o == op && op in s.ops.active ==> P.By(s.ops.all, op) == ws
    case _ => true
  }

  ghost predicate RunOf(l: Layout, f: Change, s: State, steps: seq<Step>, op: nat, ws: seq<Write>)
    requires l.Ok()
    decreases |steps|
  {
    steps == [] || !P.Shape(l, s)
    || (StepOf(l, f, s, steps[0], op, ws) && RunOf(l, f, P.Next(l, s, steps[0]), steps[1..], op, ws))
  }

  /** A committed group has writes of the operation. */
  ghost predicate Committed(o: Ops, op: nat) {
    exists g :: 0 <= g < |o.groups| && P.Wrote(o.groups[g], op)
  }

  /** What the committed groups amount to, without and with the open one. */
  ghost function Kept(base: map<nat, Block>, o: Ops): map<nat, Block> {
    P.Effect(base, o.groups)
  }

  ghost function Current(base: map<nat, Block>, o: Ops): map<nat, Block> {
    P.ApplyWrites(P.Effect(base, o.groups), o.cur)
  }

  /** How far the operation is: at work; committed; ended, in the open group; or undone
      by a crash.  What the groups amount to agrees with the file's stores accordingly. */
  ghost predicate Stage(f: Change, base: map<nat, Block>, o: Ops, op: nat, crashed: bool) {
    && op in o.started && f.Same(Kept(base, o), KeptIs(f, o, op)) && f.Same(Current(base, o), CurrentIs(f, o, op))
    && (op in o.active || Committed(o, op) || P.Wrote(o.cur, op) || crashed)
  }

  ghost function KeptIs(f: Change, o: Ops, op: nat): map<nat, Block> {
    if op !in o.active && Committed(o, op) then f.u.disk else f.was.disk
  }

  ghost function CurrentIs(f: Change, o: Ops, op: nat): map<nat, Block> {
    if op in o.active then P.ApplyWrites(f.t.disk, P.By(o.cur, op))
    else if Committed(o, op) || P.Wrote(o.cur, op) then f.u.disk else f.was.disk
  }

  lemma WroteMore(ws: seq<Write>, w: Write, op: nat)
    ensures P.Wrote(ws + [w], op) <==> P.Wrote(ws, op) || w.op == op
  {
    if P.Wrote(ws, op) {
      var i :| 0 <= i < |ws| && ws[i].op == op;
      assert (ws + [w])[i].op == op;
    }
    assert (ws + [w])[|ws|] == w;
  }

  /** A log_write of the transaction. */
  lemma OwnWriteKeepsStage(f: Change, base: map<nat, Block>, o: Ops, w: Write, op: nat, crashed: bool)
    requires Stage(f, base, o, op, crashed) && w.op == op && op in o.active
    ensures Stage(f, base, P.Record(o, w), op, crashed)
  {
    hide Change.Same;
    var done := P.By(o.cur, op);
    P.ApplySnoc(Kept(base, o), o.cur, w);
    P.ByStep(o.cur, w, op);
    P.ApplySnoc(f.t.disk, done, w);
    SameWrite(f, Current(base, o), P.ApplyWrites(f.t.disk, done), w.blockno, w.data);
  }

  /** The write leaves the file alone. */
  ghost predicate Foreign(f: Change, n: map<nat, Block>, w: Write) {
    var ib := f.sb.IBlock(f.inum);
    !f.Mentions(w.blockno)
    && (w.blockno == ib && ib in n ==> ReadInode(w.data, f.inum % IPB) == ReadInode(n[ib], f.inum % IPB))
  }

  /** A log_write of another operation. */
  lemma OtherWriteKeepsStage(f: Change, base: map<nat, Block>, o: Ops, w: Write, op: nat, crashed: bool)
    requires Stage(f, base, o, op, crashed) && w.op != op && Foreign(f, Current(base, o), w)
    ensures Stage(f, base, P.Record(o, w), op, crashed)
  {
    hide Change.Same, P.By, P.ApplyWrites, P.Effect;
    var n, o1 := Current(base, o), P.Record(o, w);
    P.ApplySnoc(Kept(base, o), o.cur, w);
    P.ByStep(o.cur, w, op);
    WroteMore(o.cur, w, op);
    assert P.By(o1.cur, op) == P.By(o.cur, op);
    assert CurrentIs(f, o1, op) == CurrentIs(f, o, op) && KeptIs(f, o1, op) == KeptIs(f, o, op);
    SameWrite(f, n, CurrentIs(f, o, op), w.blockno, w.data);
  }

  lemma NotCommitted(o: Ops, op: nat)
    requires P.OpsOk(o) && op in o.active
    ensures !Committed(o, op) && P.By(o.cur, op) == P.By(o.all, op)
  {
    forall g | 0 <= g < |o.groups| ensures !P.Wrote(o.groups[g], op) {
      assert P.Wrote(o.groups[g], op) ==> P.WholeIn(o, g, op);
    }
  }

  /** The transaction's log_writes amount to what it does to the file. */
  ghost predicate Amounts(f: Change, ws: seq<Write>) {
    ws != [] && f.Same(P.ApplyWrites(f.t.disk, ws), f.u.disk)
  }

  lemma EndKeepsStage(f: Change, base: map<nat, Block>, o: Ops, op: nat, ws: seq<Write>, crashed: bool)
    requires P.OpsOk(o) && Stage(f, base, o, op, crashed) && op in o.active && P.By(o.all, op) == ws && Amounts(f, ws)
    ensures Stage(f, base, o.(active := o.active - {op}), op, crashed)
  {
    hide Change.Same;
    NotCommitted(o, op);
    if !P.Wrote(o.cur, op) {
      P.ByNone(o.cur, op);
    }
    SameTwice(f, Current(base, o), P.ApplyWrites(f.t.disk, ws), f.u.disk);
  }

  lemma SealKeepsStage(f: Change, base: map<nat, Block>, o: Ops, op: nat, crashed: bool)
    requires o.active == {} && Stage(f, base, o, op, crashed)
    ensures Stage(f, base, P.Seal(o), op, crashed)
  {
    hide Change.Same;
    var o1 := P.Seal(o);
    P.EffectSnoc(base, o.groups, o.cur);
    assert Kept(base, o1) == Current(base, o1) == Current(base, o);
    assert forall g | 0 <= g < |o.groups| :: o1.groups[g] == o.groups[g];
    if P.Wrote(o.cur, op) {
      assert o1.groups[|o.groups|] == o.cur;
    }
  }

  lemma LoseKeepsStage(f: Change, base: map<nat, Block>, o: Ops, op: nat, crashed: bool)
    requires P.OpsOk(o) && Stage(f, base, o, op, crashed)
    ensures Stage(f, base, P.Lose(o), op, true)
  {
    hide Change.Same;
    if op in o.active {
      NotCommitted(o, op);
    }
    assert Current(base, P.Lose(o)) == Kept(base, o);
  }

  /** Other operations begin and end. */
  lemma OthersKeepStage(f: Change, base: map<nat, Block>, o: Ops, o1: Ops, op: nat, crashed: bool)
    requires Stage(f, base, o, op, crashed) && o1 == o.(active := o1.active, started := o1.started)
    requires (op in o1.active <==> op in o.active) && op in o1.started
    ensures Stage(f, base, o1, op, crashed)
  {
  }

  lemma LogWriteKeepsStage(l: Layout, f: Change, base: map<nat, Block>, s: State, step: Step, op: nat, ws: seq<Write>,
                           crashed: bool)
    requires l.Ok() && P.Inv(l, base, s) && Stage(f, base, s.ops, op, crashed) && StepOf(l, f, s, step, op, ws)
    requires step.LogWrite? && P.Enabled(l, s, step)
    ensures Stage(f, base, P.Next(l, s, step).ops, op, crashed)
  {
    P.ViewIsNow(l, base, s, step.b);
    hide P.Inv, P.Shape, P.Pinned, Stage;
    var w: Write := P.LWrite(step.op, step.b, step.data);
    if step.op == op {
      OwnWriteKeepsStage(f, base, s.ops, w, op, crashed);
    } else {
      OtherWriteKeepsStage(f, base, s.ops, w, op, crashed);
    }
  }

  lemma StepKeepsStage(l: Layout, f: Change, base: map<nat, Block>, s: State, step: Step, op: nat, ws: seq<Write>,
                       crashed: bool)
    requires l.Ok() && P.Inv(l, base, s) && Stage(f, base, s.ops, op, crashed) && StepOf(l, f, s, step, op, ws)
    requires Amounts(f, ws)
    ensures Stage(f, base, P.Next(l, s, step).ops, op, crashed || step.Crash?)
  {
    P.InvFacts(l, base, s);
    assert op in s.ops.started;
    hide P.Inv, P.Shape, P.Pinned, P.OpsOk, Stage, Amounts;
    var o, o1 := s.ops, P.Next(l, s, step).ops;
    if P.Enabled(l, s, step) {
      match step {
        case LogWrite(_, _, _) => LogWriteKeepsStage(l, f, base, s, step, op, ws, crashed);
        case EndOp(p) =>
          if p == op {
            EndKeepsStage(f, base, o, op, ws, crashed);
          } else {
            OthersKeepStage(f, base, o, o1, op, crashed);
          }
        case BeginOp(_) => OthersKeepStage(f, base, o, o1, op, crashed);
        case Crash => LoseKeepsStage(f, base, o, op, crashed);
        case DiskWrite =>
          if s.phase.WriteHead? {
            SealKeepsStage(f, base, o, op, crashed);
          }
        case Fetch(_) =>
        case Evict(_) =>
      }
    }
  }

  lemma {:induction false} RunKeepsStage(l: Layout, f: Change, base: map<nat, Block>, s: State, steps: seq<Step>,
                                         v: State, op: nat, ws: seq<Write>, crashed: bool)
    requires l.Ok() && P.Inv(l, base, s) && Stage(f, base, s.ops, op, crashed) && RunOf(l, f, s, steps, op, ws)
    requires v == P.Run(l, s, steps) && Amounts(f, ws)
    ensures P.Inv(l, base, v) && Stage(f, base, v.ops, op, crashed || P.Crash in steps)
    decreases |steps|
  {
    hide Stage, Amounts, StepOf;
    if steps != [] {
      StepKeepsStage(l, f, base, s, steps[0], op, ws, crashed);
      P.StepKeepsInv(l, base, s, steps[0]);
      assert steps == [steps[0]] + steps[1..];
      RunKeepsStage(l, f, base, P.Next(l, s, steps[0]), steps[1..], v, op, ws, crashed || steps[0].Crash?);
    }
  }

  /** The operation has begun and not log_written yet; others may have. */
  ghost predicate Begun(l: Layout, base: map<nat, Block>, s: State, op: nat)
    requires l.Ok()
  {
    P.Inv(l, base, s) && op in s.ops.active && P.By(s.ops.cur, op) == []
  }

  // ---------- Atomicity ----------

  /** After a run with the transaction's log_writes, crashes and interrupted recoveries
      included, the disk stands for the file's contents at the last commit before the
      transaction or, from its commit on, for those after it; and these are on the
      home blocks whenever operations can run.  Without a crash the transaction is
      committed once it has ended and no operation is outstanding. */
  ghost predicate RunAtomic(l: Layout, f: Change, recs: map<nat, Inode>, logged: set<nat>, base: map<nat, Block>,
                            s: State, steps: seq<Step>, op: nat, ws: seq<Write>)
    requires l.Ok()
  {
    && Recorded(f.sb, f.was, recs, f.inum) && Begun(l, base, s, op)
    && f.Same(Kept(base, s.ops), f.was.disk) && f.Same(Current(base, s.ops), f.t.disk)
    && ws != [] && Logging(ws, logged, f.u.disk) && RunOf(l, f, s, steps, op, ws) ==>
      var v := P.Run(l, s, steps);
      && Stands(l, v.disk, v.head, Kept(base, v.ops))
      && ContentOn(f.sb, Kept(base, v.ops), f.inum) == ContentOf(if Committed(v.ops, op) then f.u else f.was, f.inum)
      && (v.phase.Running? ==> ContentOn(f.sb, v.disk, f.inum) == ContentOn(f.sb, Kept(base, v.ops), f.inum))
      && (v.phase.Running? && v.ops.active == {} && P.Crash !in steps ==> Committed(v.ops, op))
  }

  lemma WritesSame(f: Change, t: Store, recs: map<nat, Inode>, logged: set<nat>, ws: seq<Write>)
    requires f.sb.Ok() && Recorded(f.sb, t, recs, f.inum) && Journaled(f.t.disk, {}, f.u.disk, logged)
    requires Logging(ws, logged, f.u.disk) && forall b: nat | b < f.sb.size :: b in f.t.disk
    ensures Agree(f.sb, t, f.inum, P.ApplyWrites(f.t.disk, ws), f.u.disk)
  {
    hide Journaled, Logging;
    var d := P.ApplyWrites(f.t.disk, ws);
    assert RecordIs(f.sb, t.disk, recs, f.inum);
    IBlockBounds(f.sb, f.inum);
    WritesAmount(f.t.disk, f.u.disk, logged, ws, f.sb.IBlock(f.inum));
    forall b: nat ensures BlockAgrees(t, f.inum, d, f.u.disk, b) {
      if Mine(t, f.inum, b) {
        MineBounds(f.sb, t, f.inum, b);
        WritesAmount(f.t.disk, f.u.disk, logged, ws, b);
      }
    }
  }

  lemma StageContent(l: Layout, f: Change, recs: map<nat, Inode>, recs1: map<nat, Inode>, base: map<nat, Block>,
                     v: State, op: nat, ws: seq<Write>, crashed: bool)
    requires Placed(l, f.sb) && Recorded(f.sb, f.was, recs, f.inum) && Recorded(f.sb, f.u, recs1, f.inum)
    requires P.Inv(l, base, v) && Stage(f, base, v.ops, op, crashed)
    ensures ContentOn(f.sb, Kept(base, v.ops), f.inum) == ContentOf(if Committed(v.ops, op) then f.u else f.was, f.inum)
    ensures v.phase.Running? ==> ContentOn(f.sb, v.disk, f.inum) == ContentOn(f.sb, Kept(base, v.ops), f.inum)
    ensures v.phase.Running? && v.ops.active == {} && !crashed ==> Committed(v.ops, op)
  {
    P.InvFacts(l, base, v);
    if op in v.ops.active {
      NotCommitted(v.ops, op);
    }
    hide P.Inv, P.Shape, P.OpsOk, Recorded, Agree;
    var t, rs := if Committed(v.ops, op) then f.u else f.was, if Committed(v.ops, op) then recs1 else recs;
    ContentFound(f.sb, t, rs, f.inum, Kept(base, v.ops));
    if v.phase.Running? {
      HomeAgrees(l, f.sb, t, rs, f.inum, v.disk, Kept(base, v.ops));
      AgreeTwice(f.sb, t, f.inum, v.disk, Kept(base, v.ops), t.disk);
      ContentFound(f.sb, t, rs, f.inum, v.disk);
    }
  }

  lemma TransactionAtomic(l: Layout, f: Change, recs: map<nat, Inode>, recs1: map<nat, Inode>, recs2: map<nat, Inode>,
                          logged: set<nat>, base: map<nat, Block>, s: State, steps: seq<Step>, op: nat, ws: seq<Write>)
    requires Placed(l, f.sb) && Recorded(f.sb, f.t, recs1, f.inum) && Recorded(f.sb, f.u, recs2, f.inum)
    requires Journaled(f.t.disk, {}, f.u.disk, logged)
    ensures RunAtomic(l, f, recs, logged, base, s, steps, op, ws)
  {
    hide P.Shape, P.StoreAt;
    if && Recorded(f.sb, f.was, recs, f.inum) && Begun(l, base, s, op)
       && f.Same(Kept(base, s.ops), f.was.disk) && f.Same(Current(base, s.ops), f.t.disk)
       && ws != [] && Logging(ws, logged, f.u.disk) && RunOf(l, f, s, steps, op, ws) {
      var v := P.Run(l, s, steps);
      WritesSame(f, f.was, recs, logged, ws);
      WritesSame(f, f.t, recs1, logged, ws);
      WritesSame(f, f.u, recs2, logged, ws);
      P.InvFacts(l, base, s);
      hide Recorded, Journaled, Logging, RunOf, Agree, P.Shape, P.Inv;
      assert P.ApplyWrites(f.t.disk, []) == f.t.disk;
      RunKeepsStage(l, f, base, s, steps, v, op, ws, false);
      P.InvStands(l, base, v);
      StageContent(l, f, recs, recs2, base, v, op, ws, P.Crash in steps);
    }
  }

  lemma LoggedExist(d: map<nat, Block>, d1: map<nat, Block>, logged: set<nat>)
    requires Journaled(d, {}, d1, logged)
    ensures forall b | b in logged :: b in d1
  {
    forall b | b in logged ensures b in d1 { assert ChangeLogged(d, {}, d1, logged, b); }
  }

  /** All runs are atomic. */
  ghost predicate AllAtomic(l: Layout, sb: Super, inum: nat, t: Store, u: Store, logged: set<nat>)
    requires l.Ok()
  {
    forall was, recs, base, s, steps, op, ws
      {:trigger RunAtomic(l, Change(sb, inum, was, t, u), recs, logged, base, s, steps, op, ws)} ::
      RunAtomic(l, Change(sb, inum, was, t, u), recs, logged, base, s, steps, op, ws)
  }

  /** A transaction of filewrite, with all that its run through the log can end in. */
  method WriteDurably(fs: FileSystem, ghost l: Layout, inum: nat, off: word, n: nat, src: seq<byte>)
    returns (r: int, ghost q: nat)
    requires fs.Valid() && Placed(l, fs.sb) && inum in fs.inodes && inum in fs.slots && n <= MAXCHUNK
    requires inum in fs.dinodes && fs.dinodes[inum] == fs.inodes[inum] && off <= |FileContent(fs, inum)|
    modifies fs
    ensures fs.Valid() && inum in fs.inodes && inum in fs.dinodes && fs.dinodes[inum] == fs.inodes[inum]
    ensures AllAtomic(l, fs.sb, inum, old(fs.Saved()), fs.Saved(), fs.logged)
    ensures exists ws :: Logging(ws, fs.logged, fs.Saved().disk)
    ensures 0 <= r && old(Settled(fs.S(), fs.loose, inum)) ==>
      Written(SavedContent(fs, inum), old(SavedContent(fs, inum)), off, src, r,
        Left(old(fs.slots[inum]), old(fs.held + fs.logged), off + r, q))
  {
    hide MapOk, TreeOk, LooseOk, Settled, Journaled, Recorded, FileSystem.Exhausted, RunAtomic, ContentOf, Logging,
      Stopped, Passed, Left, Overwrite, OthersSame;
    ghost var t, recs := fs.Saved(), fs.dinodes;
    SavedRecorded(fs, inum);
    if Settled(fs.S(), fs.loose, inum) {
      SettledContent(fs.sb, fs.S(), fs.loose, inum);
    }
    NoProgress(fs, inum, off, src);
    r, q := WriteTransaction(fs, inum, off, 0, n, src, FileContent(fs, inum));
    SavedRecorded(fs, inum);
    LoggedExist(t.disk, fs.Saved().disk, fs.logged);
    ghost var ws := SomeWrites(0, fs.logged, fs.Saved().disk);
    forall was, recs0, base, s, steps, op, ws
      ensures RunAtomic(l, Change(fs.sb, inum, was, t, fs.Saved()), recs0, fs.logged, base, s, steps, op, ws)
    {
      TransactionAtomic(l, Change(fs.sb, inum, was, t, fs.Saved()), recs0, recs, fs.dinodes, fs.logged, base, s, steps,
        op, ws);
    }
  }
}
