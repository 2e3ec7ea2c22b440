/** Group commit and crash recovery as a step machine (kernel/log.c).

    One step is one critical section of log.lock, one block write to the disk,
    one movement of the buffer cache, or a crash.  A crash may come between any
    two steps, also inside recovery.  A step whose guard fails (a sleeping
    begin_op, a panic) leaves the state as it is.  Block contents are any type
    `T`; the header block is kept decoded (module Log has its encoding). */
module LogProtocol {
  import opened LogFormat

  /** A log_write made by operation `op`. */
  datatype LWrite<T> = LWrite(op: nat, blockno: nat, data: T)

  datatype Phase =
    | Running
    | WriteLog(i: nat)     // commit: cache blocks to log blocks
    | WriteHead            // commit: the header write
    | Install(i: nat)      // commit: log blocks to home blocks
    | Clear                // commit: erase the header
    | RecInstall(i: nat)   // recovery: log blocks to home blocks
    | RecClear             // recovery: erase the header

  /** Operations: those outstanding, those ever started, all log writes ever
      made, those of the open group, and the groups whose header was written. */
  datatype Ops<T> = Ops(
    active: set<nat>, started: set<nat>, all: seq<LWrite<T>>, cur: seq<LWrite<T>>, groups: seq<seq<LWrite<T>>>)

  /** `disk` and its header block `head` survive a crash; `cache`, `lh`, the open
      group and `phase` do not. */
  datatype State<T> = State(
    disk: map<nat, T>, head: seq<nat>, cache: map<nat, T>, lh: seq<nat>, phase: Phase, ops: Ops<T>)

  datatype Step<T> =
    | BeginOp(op: nat)
    | LogWrite(op: nat, b: nat, data: T)
    | EndOp(op: nat)
    | DiskWrite
    | Fetch(b: nat)
    | Evict(b: nat)
    | Crash

  /** What bread returns for block `b`. */
  function View<T>(s: State<T>, b: nat): T
    requires b in s.cache || b in s.disk
  {
    if b in s.cache then s.cache[b] else s.disk[b]
  }

  predicate Pinned<T>(s: State<T>, b: nat) {
    match s.phase
    case Install(i) => exists j | i <= j < |s.lh| :: s.lh[j] == b
    case Running => b in s.lh
    case WriteLog(_) => b in s.lh
    case WriteHead => b in s.lh
    case _ => false
  }

  function Start<T>(o: Ops<T>, op: nat): Ops<T> {
    o.(active := o.active + {op}, started := o.started + {op})
  }

  function Record<T>(o: Ops<T>, w: LWrite<T>): Ops<T> {
    o.(cur := o.cur + [w], all := o.all + [w])
  }

  /** The open group becomes a committed one. */
  function Seal<T>(o: Ops<T>): Ops<T> {
    o.(groups := o.groups + [o.cur], cur := [])
  }

  function Lose<T>(o: Ops<T>): Ops<T> {
    o.(active := {}, cur := [])
  }

  predicate Enabled<T>(l: Layout, s: State<T>, step: Step<T>)
    requires 1 <= l.size
  {
    match step
    case BeginOp(op) =>
      s.phase.Running? && op !in s.ops.started && |s.lh| + (|s.ops.active| + 1) * MAXOPBLOCKS <= LOGSIZE
    case LogWrite(op, b, _) =>
      s.phase.Running? && op in s.ops.active && b in s.cache && l.Home(b) && |s.lh| < l.Capacity()
    case EndOp(op) => s.phase.Running? && op in s.ops.active
    case DiskWrite => !s.phase.Running?
    case Fetch(b) => b < l.nblocks && b in s.disk && b !in s.cache
    case Evict(b) => b in s.cache && !Pinned(s, b)
    case Crash => true
  }

  /** Write `data` to block `b` through the cache: memmove into the buffer, then bwrite. */
  function WriteThrough<T>(s: State<T>, b: nat, data: T): State<T> {
    s.(disk := s.disk[b := data], cache := s.cache[b := data])
  }

  /** write_log: cache block to log block `i`. */
  function CopyStep<T>(l: Layout, s: State<T>, i: nat): State<T>
    requires l.Ok() && Shape(l, s) && i < |s.lh|
  {
    WriteThrough(s, l.start + 1 + i, View(s, s.lh[i]))
      .(phase := if i + 1 < |s.lh| then WriteLog(i + 1) else WriteHead)
  }

  /** write_head with a non-empty header: the commit point. */
  function SealStep<T>(s: State<T>): State<T> {
    s.(head := s.lh, phase := Install(0), ops := Seal(s.ops))
  }

  /** install_trans: log block `i` to its home block. */
  function InstallStep<T>(l: Layout, s: State<T>, i: nat): State<T>
    requires l.Ok() && Shape(l, s) && i < |s.lh|
  {
    WriteThrough(s, s.lh[i], View(s, l.start + 1 + i))
  }

  /** write_head with an empty header. */
  function EraseStep<T>(s: State<T>): State<T> {
    s.(head := [], phase := Running, lh := [])
  }

  /** The next disk write of the running commit or recovery. */
  function DoDiskWrite<T>(l: Layout, s: State<T>): State<T>
    requires l.Ok() && Shape(l, s) && !s.phase.Running?
  {
    match s.phase
    case WriteLog(i) => CopyStep(l, s, i)
    case WriteHead => SealStep(s)
    case Install(i) => InstallStep(l, s, i).(phase := if i + 1 < |s.lh| then Install(i + 1) else Clear)
    case Clear => EraseStep(s)
    case RecInstall(i) => InstallStep(l, s, i).(phase := if i + 1 < |s.lh| then RecInstall(i + 1) else RecClear)
    case RecClear => EraseStep(s)
  }

  /** A reboot: memory is lost and read_head loads the header from the disk. */
  function DoCrash<T>(l: Layout, s: State<T>): State<T>
    requires l.Ok()
  {
    s.(cache := map[], lh := s.head, ops := Lose(s.ops), phase := if s.head == [] then RecClear else RecInstall(0))
  }

  function Next<T>(l: Layout, s: State<T>, step: Step<T>): State<T>
    requires l.Ok() && Shape(l, s)
  {
    if !Enabled(l, s, step) then s else
    match step
    case BeginOp(op) => s.(ops := Start(s.ops, op))
    case LogWrite(op, b, data) =>
      s.(cache := s.cache[b := data], lh := Absorb(s.lh, b), ops := Record(s.ops, LWrite(op, b, data)))
    case EndOp(op) =>
      var active := s.ops.active - {op};
      s.(ops := s.ops.(active := active), phase := if active == {} && s.lh != [] then WriteLog(0) else Running)
    case DiskWrite => DoDiskWrite(l, s)
    case Fetch(b) => s.(cache := s.cache[b := s.disk[b]])
    case Evict(b) => s.(cache := s.cache - {b})
    case Crash => DoCrash(l, s)
  }

  /** Well-formedness that makes every step computable. */
  ghost predicate Shape<T>(l: Layout, s: State<T>)
    requires l.Ok()
  {
    && l.Full(s.disk)
    && l.ValidHeader(s.head)
    && l.ValidHeader(s.lh)
    && (forall b: nat :: b in s.cache ==> b < l.nblocks)
    && match s.phase
       case WriteLog(i) => i < |s.lh|
       case Install(i) => i < |s.lh|
       case RecInstall(i) => i < |s.lh|
       case WriteHead => 0 < |s.lh|
       case _ => true
  }

  // ---------- What the runs should compute ----------

  /** Latest write wins. */
  ghost function ApplyWrites<T>(d: map<nat, T>, ws: seq<LWrite<T>>): (r: map<nat, T>)
    ensures ws == [] ==> r == d
    ensures forall b :: b in d ==> b in r
  {
    if ws == [] then d
    else var w := ws[|ws| - 1]; ApplyWrites(d, ws[..|ws| - 1])[w.blockno := w.data]
  }

  /** The effect of whole groups, in commit order. */
  ghost function Effect<T>(d: map<nat, T>, groups: seq<seq<LWrite<T>>>): (r: map<nat, T>)
    ensures forall b :: b in d ==> b in r
  {
    if groups == [] then d
    else ApplyWrites(Effect(d, groups[..|groups| - 1]), groups[|groups| - 1])
  }

  ghost function By<T>(ws: seq<LWrite<T>>, op: nat): seq<LWrite<T>> {
    if ws == [] then []
    else By(ws[..|ws| - 1], op) + (if ws[|ws| - 1].op == op then [ws[|ws| - 1]] else [])
  }

  ghost predicate Wrote<T>(ws: seq<LWrite<T>>, op: nat) {
    exists i :: 0 <= i < |ws| && ws[i].op == op
  }

  /** No operation is split: one that has a write in a committed group has ended,
      has no write in the open group or in another group, and that group holds
      every log_write it ever made. */
  ghost predicate WholeOperations<T>(o: Ops<T>) {
    forall g, op | 0 <= g < |o.groups| && Wrote(o.groups[g], op) :: WholeIn(o, g, op)
  }

  ghost predicate WholeIn<T>(o: Ops<T>, g: nat, op: nat)
    requires g < |o.groups|
  {
    && op in o.started && op !in o.active && !Wrote(o.cur, op)
    && By(o.groups[g], op) == By(o.all, op)
    && forall h | 0 <= h < |o.groups| && h != g :: !Wrote(o.groups[h], op)
  }

  // ---------- The invariant ----------

  /** The first `k` log blocks hold the new contents of the blocks they are for. */
  ghost predicate LogCopied<T>(l: Layout, s: State<T>, now: map<nat, T>, k: nat)
    requires l.Ok() && Shape(l, s) && k <= |s.lh|
  {
    forall j: nat :: j < k ==> s.lh[j] in now && s.disk[l.start + 1 + j] == now[s.lh[j]]
  }

  ghost predicate Installed<T>(l: Layout, s: State<T>, now: map<nat, T>, k: nat)
    requires l.Ok() && Shape(l, s) && k <= |s.lh|
  {
    forall j: nat :: j < k ==> s.lh[j] in now && s.disk[s.lh[j]] == now[s.lh[j]]
  }

  /** The open group is in memory only. */
  ghost predicate Open<T>(l: Layout, s: State<T>, was: map<nat, T>, now: map<nat, T>)
    requires l.Ok() && Shape(l, s)
  {
    && s.head == []
    && HomeIs(l, s.disk, was)
    && (forall b: nat :: l.Home(b) ==> b in now && View(s, b) == now[b])
    && (forall i | 0 <= i < |s.lh| :: s.lh[i] in s.cache)
    && (forall i | 0 <= i < |s.ops.cur| :: s.ops.cur[i].blockno in s.lh)
  }

  /** The group is on disk and the header names it. */
  ghost predicate Sealed<T>(l: Layout, s: State<T>, now: map<nat, T>)
    requires l.Ok() && Shape(l, s)
  {
    s.ops.cur == [] && s.ops.active == {} && s.head == s.lh && Stands(l, s.disk, s.lh, now)
  }

  /** Cache, log region and home blocks, phase by phase, when the committed
      groups amount to `was` and the open group makes it `now`. */
  ghost predicate StoreAt<T>(l: Layout, s: State<T>, was: map<nat, T>, now: map<nat, T>)
    requires l.Ok()
  {
    && Shape(l, s)
    && (forall b: nat :: b in s.cache && !Pinned(s, b) ==> s.cache[b] == s.disk[b])
    && match s.phase
       case Running => Open(l, s, was, now) && (s.ops.active == {} ==> s.ops.cur == [] && s.lh == [])
       case WriteLog(i) => Open(l, s, was, now) && s.ops.active == {} && LogCopied(l, s, now, i)
       case WriteHead => Open(l, s, was, now) && s.ops.active == {} && LogCopied(l, s, now, |s.lh|)
       case Install(i) => Sealed(l, s, now) && Installed(l, s, now, i)
                          && forall j | i <= j < |s.lh| :: s.lh[j] in s.cache && s.cache[s.lh[j]] == now[s.lh[j]]
       case Clear => Sealed(l, s, now) && Installed(l, s, now, |s.lh|)
       case RecInstall(i) => Sealed(l, s, now) && Installed(l, s, now, i)
       case RecClear => Sealed(l, s, now) && Installed(l, s, now, |s.lh|)
  }

  ghost predicate OpsOk<T>(o: Ops<T>) {
    && o.active <= o.started
    && (forall i | 0 <= i < |o.all| :: o.all[i].op in o.started)
    && (forall i | 0 <= i < |o.cur| :: o.cur[i].op in o.started)
    && (forall op :: op in o.active || Wrote(o.cur, op) ==> By(o.cur, op) == By(o.all, op))
    && WholeOperations(o)
  }

  ghost predicate Inv<T>(l: Layout, base: map<nat, T>, s: State<T>)
    requires l.Ok()
  {
    var was := Effect(base, s.ops.groups);
    OpsOk(s.ops) && StoreAt(l, s, was, ApplyWrites(was, s.ops.cur))
  }

  // ---------- Preservation ----------

  lemma ByStep<T>(ws: seq<LWrite<T>>, w: LWrite<T>, op: nat)
    ensures By(ws + [w], op) == By(ws, op) + (if w.op == op then [w] else [])
  {
    assert (ws + [w])[..|ws|] == ws;
  }

  lemma {:induction false} ByNone<T>(ws: seq<LWrite<T>>, op: nat)
    requires !Wrote(ws, op)
    ensures By(ws, op) == []
  {
    if ws != [] {
      var n := |ws| - 1;
      assert ws[n].op != op;
      ByNone(ws[..n], op);
    }
  }

  lemma ApplySnoc<T>(d: map<nat, T>, ws: seq<LWrite<T>>, w: LWrite<T>)
    ensures ApplyWrites(d, ws + [w]) == ApplyWrites(d, ws)[w.blockno := w.data]
  {
    assert (ws + [w])[..|ws|] == ws;
  }

  lemma EffectSnoc<T>(d: map<nat, T>, groups: seq<seq<LWrite<T>>>, g: seq<LWrite<T>>)
    ensures Effect(d, groups + [g]) == ApplyWrites(Effect(d, groups), g)
  {
    assert (groups + [g])[..|groups|] == groups;
  }

  /** Starting an operation: it has written nothing yet. */
  lemma StartKeepsOps<T>(o: Ops<T>, op: nat)
    requires OpsOk(o) && op !in o.started
    ensures OpsOk(Start(o, op))
  {
    assert !Wrote(o.cur, op) && !Wrote(o.all, op);
    ByNone(o.cur, op);
    ByNone(o.all, op);
    forall g, p | 0 <= g < |o.groups| && Wrote(o.groups[g], p)
      ensures p in o.started
    {
    }
  }

  lemma RecordKeepsOps<T>(o: Ops<T>, w: LWrite<T>)
    requires OpsOk(o) && w.op in o.active
    ensures OpsOk(Record(o, w))
  {
    var t := Record(o, w);
    forall p | p in t.active || Wrote(t.cur, p)
      ensures By(t.cur, p) == By(t.all, p)
    {
      ByStep(o.cur, w, p);
      ByStep(o.all, w, p);
    }
    forall g, p | 0 <= g < |t.groups| && Wrote(t.groups[g], p)
      ensures !Wrote(t.cur, p) && By(t.groups[g], p) == By(t.all, p)
    {
      ByStep(o.all, w, p);
    }
  }

  lemma SealKeepsOps<T>(o: Ops<T>)
    requires OpsOk(o) && o.active == {}
    ensures OpsOk(Seal(o))
  {
  }

  lemma EndKeepsOps<T>(o: Ops<T>, op: nat)
    requires OpsOk(o)
    ensures OpsOk(o.(active := o.active - {op}))
    ensures OpsOk(Lose(o))
  {
    var t, u := o.(active := o.active - {op}), Lose(o);
    forall g, p | 0 <= g < |o.groups| && Wrote(o.groups[g], p) ensures WholeIn(t, g, p) && WholeIn(u, g, p) {
      assert WholeIn(o, g, p);
    }
  }

  lemma LogWriteKeepsStore<T>(l: Layout, s: State<T>, step: Step<T>, was: map<nat, T>, now: map<nat, T>)
    requires l.Ok() && StoreAt(l, s, was, now) && step.LogWrite? && Enabled(l, s, step)
    ensures StoreAt(l, Next(l, s, step), was, now[step.b := step.data])
  {
  }

  lemma CopyKeepsOpen<T>(l: Layout, s: State<T>, was: map<nat, T>, now: map<nat, T>, i: nat)
    requires l.Ok() && Shape(l, s) && i < |s.lh| && Open(l, s, was, now) && LogCopied(l, s, now, i)
    ensures var t := CopyStep(l, s, i);
            Shape(l, t) && Open(l, t, was, now) && LogCopied(l, t, now, i + 1)
  {
    var t := CopyStep(l, s, i);
    assert l.Home(s.lh[i]);
    assert t.disk == s.disk[l.start + 1 + i := now[s.lh[i]]];
    assert Shape(l, t);
  }

  lemma CopyKeepsStore<T>(l: Layout, s: State<T>, was: map<nat, T>, now: map<nat, T>, i: nat)
    requires l.Ok() && StoreAt(l, s, was, now) && s.phase == WriteLog(i)
    ensures StoreAt(l, CopyStep(l, s, i), was, now)
  {
    CopyKeepsOpen(l, s, was, now, i);
  }

  /** The commit point: the disk now stands for the group's effect as well. */
  lemma SealKeepsStore<T>(l: Layout, s: State<T>, was: map<nat, T>, now: map<nat, T>)
    requires l.Ok() && StoreAt(l, s, was, now) && s.phase.WriteHead?
    ensures StoreAt(l, SealStep(s), now, now)
  {
    assert forall b: nat :: l.Home(b) && b !in s.lh ==> s.disk[b] == View(s, b);
    forall i: nat | i < |s.lh| ensures InLog(l, s.disk, s.lh, now, i) {
      assert s.lh[i] in now;
    }
  }

  lemma InstallWrites<T>(l: Layout, s: State<T>, now: map<nat, T>, i: nat)
    requires l.Ok() && StoreAt(l, s, now, now) && (s.phase == Install(i) || s.phase == RecInstall(i))
    ensures InstallStep(l, s, i) == WriteThrough(s, s.lh[i], now[s.lh[i]])
  {
    assert !l.Home(l.start + 1 + i);
    assert !Pinned(s, l.start + 1 + i);
  }

  lemma InstallKeepsSealed<T>(l: Layout, s: State<T>, now: map<nat, T>, i: nat, phase: Phase)
    requires l.Ok() && Shape(l, s) && i < |s.lh| && Sealed(l, s, now) && Installed(l, s, now, i)
    requires phase == (if i + 1 < |s.lh| then Install(i + 1) else Clear)
             || phase == (if i + 1 < |s.lh| then RecInstall(i + 1) else RecClear)
    ensures var t := WriteThrough(s, s.lh[i], now[s.lh[i]]).(phase := phase);
            Shape(l, t) && Sealed(l, t, now) && Installed(l, t, now, i + 1)
  {
    InstallStands(l, s.disk, s.lh, i, now);
    var t := WriteThrough(s, s.lh[i], now[s.lh[i]]).(phase := phase);
    assert l.Home(s.lh[i]);
    assert Shape(l, t);
  }

  lemma InstallKeepsStore<T>(l: Layout, s: State<T>, now: map<nat, T>, i: nat)
    requires l.Ok() && StoreAt(l, s, now, now) && s.phase == Install(i)
    ensures StoreAt(l, DoDiskWrite(l, s), now, now)
  {
    InstallWrites(l, s, now, i);
    InstallKeepsSealed(l, s, now, i, if i + 1 < |s.lh| then Install(i + 1) else Clear);
  }

  lemma RecInstallKeepsStore<T>(l: Layout, s: State<T>, now: map<nat, T>, i: nat)
    requires l.Ok() && StoreAt(l, s, now, now) && s.phase == RecInstall(i)
    ensures StoreAt(l, DoDiskWrite(l, s), now, now)
  {
    InstallWrites(l, s, now, i);
    InstallKeepsSealed(l, s, now, i, if i + 1 < |s.lh| then RecInstall(i + 1) else RecClear);
  }

  lemma EraseKeepsStore<T>(l: Layout, s: State<T>, now: map<nat, T>)
    requires l.Ok() && StoreAt(l, s, now, now) && (s.phase.Clear? || s.phase.RecClear?)
    ensures StoreAt(l, EraseStep(s), now, now)
  {
  }

  lemma CrashKeepsStore<T>(l: Layout, s: State<T>, was: map<nat, T>, now: map<nat, T>)
    requires l.Ok() && StoreAt(l, s, was, now) && (s.ops.cur == [] ==> was == now)
    ensures StoreAt(l, DoCrash(l, s), was, was)
  {
  }

  lemma FetchKeepsStore<T>(l: Layout, s: State<T>, was: map<nat, T>, now: map<nat, T>, b: nat)
    requires l.Ok() && StoreAt(l, s, was, now)
    ensures StoreAt(l, Next(l, s, Fetch(b)), was, now)
  {
    var t := Next(l, s, Fetch(b));
    assert forall b: nat :: b < l.nblocks ==> View(t, b) == View(s, b);
  }

  lemma EvictKeepsStore<T>(l: Layout, s: State<T>, was: map<nat, T>, now: map<nat, T>, b: nat)
    requires l.Ok() && StoreAt(l, s, was, now)
    ensures StoreAt(l, Next(l, s, Evict(b)), was, now)
  {
    var t := Next(l, s, Evict(b));
    assert forall b: nat :: b < l.nblocks ==> View(t, b) == View(s, b);
  }

  // ---------- Whole runs ----------

  lemma OpStepKeepsInv<T>(l: Layout, base: map<nat, T>, s: State<T>, step: Step<T>)
    requires l.Ok() && Inv(l, base, s) && (step.BeginOp? || step.EndOp?)
    ensures Inv(l, base, Next(l, s, step))
  {
    if Enabled(l, s, step) {
      if step.BeginOp? { StartKeepsOps(s.ops, step.op); } else { EndKeepsOps(s.ops, step.op); }
    }
  }

  lemma LogWriteKeepsInv<T>(l: Layout, base: map<nat, T>, s: State<T>, step: Step<T>)
    requires l.Ok() && Inv(l, base, s) && step.LogWrite?
    ensures Inv(l, base, Next(l, s, step))
  {
    if Enabled(l, s, step) {
      var was := Effect(base, s.ops.groups);
      var w := LWrite(step.op, step.b, step.data);
      RecordKeepsOps(s.ops, w);
      LogWriteKeepsStore(l, s, step, was, ApplyWrites(was, s.ops.cur));
      ApplySnoc(was, s.ops.cur, w);
    }
  }

  lemma CacheStepKeepsInv<T>(l: Layout, base: map<nat, T>, s: State<T>, step: Step<T>)
    requires l.Ok() && Inv(l, base, s) && (step.Fetch? || step.Evict?)
    ensures Inv(l, base, Next(l, s, step))
  {
    var was := Effect(base, s.ops.groups);
    FetchKeepsStore(l, s, was, ApplyWrites(was, s.ops.cur), step.b);
    EvictKeepsStore(l, s, was, ApplyWrites(was, s.ops.cur), step.b);
  }

  lemma SealKeepsInv<T>(l: Layout, base: map<nat, T>, s: State<T>)
    requires l.Ok() && Inv(l, base, s) && s.phase.WriteHead?
    ensures Inv(l, base, DoDiskWrite(l, s))
  {
    var was := Effect(base, s.ops.groups);
    SealKeepsOps(s.ops);
    SealKeepsStore(l, s, was, ApplyWrites(was, s.ops.cur));
    EffectSnoc(base, s.ops.groups, s.ops.cur);
  }

  lemma DiskWriteKeepsInv<T>(l: Layout, base: map<nat, T>, s: State<T>)
    requires l.Ok() && Inv(l, base, s) && !s.phase.Running?
    ensures Inv(l, base, DoDiskWrite(l, s))
  {
    var was := Effect(base, s.ops.groups);
    match s.phase
    case WriteLog(i) => CopyKeepsStore(l, s, was, ApplyWrites(was, s.ops.cur), i);
    case WriteHead => SealKeepsInv(l, base, s);
    case Install(i) => InstallKeepsStore(l, s, was, i);
    case RecInstall(i) => RecInstallKeepsStore(l, s, was, i);
    case Clear => EraseKeepsStore(l, s, was);
    case RecClear => EraseKeepsStore(l, s, was);
  }

  lemma CrashKeepsInv<T>(l: Layout, base: map<nat, T>, s: State<T>)
    requires l.Ok() && Inv(l, base, s)
    ensures Inv(l, base, DoCrash(l, s))
  {
    var was := Effect(base, s.ops.groups);
    EndKeepsOps(s.ops, 0);
    CrashKeepsStore(l, s, was, ApplyWrites(was, s.ops.cur));
  }

  lemma StepKeepsInv<T>(l: Layout, base: map<nat, T>, s: State<T>, step: Step<T>)
    requires l.Ok() && Inv(l, base, s)
    ensures Inv(l, base, Next(l, s, step))
  {
    match step
    case BeginOp(_) => OpStepKeepsInv(l, base, s, step);
    case LogWrite(_, _, _) => LogWriteKeepsInv(l, base, s, step);
    case EndOp(_) => OpStepKeepsInv(l, base, s, step);
    case DiskWrite => if !s.phase.Running? { DiskWriteKeepsInv(l, base, s); }
    case Fetch(_) => CacheStepKeepsInv(l, base, s, step);
    case Evict(_) => CacheStepKeepsInv(l, base, s, step);
    case Crash => CrashKeepsInv(l, base, s);
  }

  /** Power-on with disk `d` and header `head`: recovery is about to run. */
  function Boot<T>(d: map<nat, T>, head: seq<nat>): State<T> {
    State(d, head, map[], head, if head == [] then RecClear else RecInstall(0), Ops({}, {}, [], [], []))
  }

  /** The state a run ends in.  (A state that is not well formed would be a dead
      end; RunKeepsInv shows that no run meets one.) */
  ghost function Run<T>(l: Layout, s: State<T>, steps: seq<Step<T>>): State<T>
    requires l.Ok()
    decreases |steps|
  {
    if steps == [] || !Shape(l, s) then s else Run(l, Next(l, s, steps[0]), steps[1..])
  }

  lemma {:induction false} RunKeepsInv<T>(l: Layout, base: map<nat, T>, s: State<T>, steps: seq<Step<T>>, t: State<T>)
    requires l.Ok() && Inv(l, base, s) && t == Run(l, s, steps)
    ensures Inv(l, base, t)
    decreases |steps|
  {
    if steps != [] {
      StepKeepsInv(l, base, s, steps[0]);
      RunKeepsInv(l, base, Next(l, s, steps[0]), steps[1..], t);
    }
  }

  lemma InvStands<T>(l: Layout, base: map<nat, T>, s: State<T>)
    requires l.Ok() && Inv(l, base, s)
    ensures Stands(l, s.disk, s.head, Effect(base, s.ops.groups))
  {
  }

  /** Crash safety over whole runs.  Start from any disk that stands for `base`,
      take any steps, crashes and interrupted recoveries included: what is on disk
      then stands for the effect of the committed groups, all of them and nothing
      else, and each of these consists of whole operations. */
  lemma CrashSafety<T>(l: Layout, d: map<nat, T>, head: seq<nat>, base: map<nat, T>, steps: seq<Step<T>>, t: State<T>)
    requires l.Ok() && l.Full(d) && l.ValidHeader(head) && Stands(l, d, head, base)
    requires t == Run(l, Boot(d, head), steps)
    ensures Stands(l, t.disk, t.head, Effect(base, t.ops.groups))
    ensures WholeOperations(t.ops)
    ensures t.phase.Running? ==> HomeIs(l, t.disk, Effect(base, t.ops.groups))
  {
    assert Inv(l, base, Boot(d, head));
    RunKeepsInv(l, base, Boot(d, head), steps, t);
    InvStands(l, base, t);
  }

  lemma ViewIsNow<T>(l: Layout, base: map<nat, T>, s: State<T>, b: nat)
    requires l.Ok() && Inv(l, base, s) && l.Home(b) && !s.phase.RecInstall?
    ensures var now := ApplyWrites(Effect(base, s.ops.groups), s.ops.cur);
            b in now && b in s.disk && View(s, b) == now[b]
  {
    if b in s.lh && !s.phase.Running? && !s.phase.WriteLog? && !s.phase.WriteHead? {
      var j: nat :| j < |s.lh| && s.lh[j] == b;
      assert InLog(l, s.disk, s.lh, Effect(base, s.ops.groups), j);
    }
  }

  /** Except while recovery installs blocks, before any file is read, bread returns the
      latest log_write to a block, also during a commit; a commit has no outstanding
      operation; and once none is outstanding and the commit is over, no write is left
      that a crash could lose. */
  lemma GroupCommit<T>(l: Layout, d: map<nat, T>, head: seq<nat>, base: map<nat, T>, steps: seq<Step<T>>, t: State<T>,
                       b: nat)
    requires l.Ok() && l.Full(d) && l.ValidHeader(head) && Stands(l, d, head, base)
    requires t == Run(l, Boot(d, head), steps) && l.Home(b)
    ensures b in t.disk
    ensures !t.phase.Running? ==> t.ops.active == {}
    ensures !t.phase.RecInstall? ==>
      var now := ApplyWrites(Effect(base, t.ops.groups), t.ops.cur);
      b in now && View(t, b) == now[b]
    ensures t.phase.Running? && t.ops.active == {} ==> t.ops.cur == []
  {
    assert Inv(l, base, Boot(d, head));
    RunKeepsInv(l, base, Boot(d, head), steps, t);
    if !t.phase.RecInstall? {
      ViewIsNow(l, base, t, b);
    }
  }

  /** Home blocks change only while a committed group is being installed. */
  lemma HomeChangesOnlyInInstall<T>(l: Layout, s: State<T>, step: Step<T>, b: nat)
    requires l.Ok() && Shape(l, s) && l.Home(b)
    requires b in Next(l, s, step).disk && Next(l, s, step).disk[b] != s.disk[b]
    ensures step.DiskWrite? && (s.phase.Install? || s.phase.RecInstall?) && b == s.lh[s.phase.i]
    ensures s.phase.i < |s.lh|
  {
  }

  function DiskWrites<T>(n: nat): (steps: seq<Step<T>>)
    ensures |steps| == n
  {
    if n == 0 then [] else [DiskWrite] + DiskWrites(n - 1)
  }

  /** How many block writes the running commit or recovery still makes. */
  ghost function WritesLeft<T>(s: State<T>): nat {
    match s.phase
    case WriteLog(i) => if i <= |s.lh| then 2 * |s.lh| - i + 2 else 0
    case WriteHead => |s.lh| + 2
    case Install(i) => if i <= |s.lh| then |s.lh| - i + 1 else 0
    case Clear => 1
    case RecInstall(i) => if i <= |s.lh| then |s.lh| - i + 1 else 0
    case RecClear => 1
    case Running => 0
  }

  /** The committed groups, once the running commit or recovery is over. */
  ghost function GroupsAfter<T>(s: State<T>): seq<seq<LWrite<T>>> {
    if s.phase.WriteLog? || s.phase.WriteHead? then s.ops.groups + [s.ops.cur] else s.ops.groups
  }

  lemma InvFacts<T>(l: Layout, base: map<nat, T>, s: State<T>)
    requires l.Ok() && Inv(l, base, s)
    ensures Shape(l, s) && OpsOk(s.ops) && (!s.phase.Running? ==> s.ops.active == {})
    ensures s.phase.Running? ==> HomeIs(l, s.disk, Effect(base, s.ops.groups))
    ensures s.phase.Running? && s.ops.active == {} ==> s.ops.cur == [] && s.lh == []
  {
  }

  lemma WriteProceeds<T>(l: Layout, base: map<nat, T>, s: State<T>, u: State<T>)
    requires l.Ok() && Inv(l, base, s) && !s.phase.Running? && u == Next(l, s, DiskWrite)
    ensures Inv(l, base, u) && GroupsAfter(u) == GroupsAfter(s) && u.ops.active == {}
    ensures WritesLeft(u) == WritesLeft(s) - 1 && (u.phase.Running? <==> WritesLeft(u) == 0)
  {
    hide Inv, StoreAt, OpsOk, View;
    InvFacts(l, base, s);
    StepKeepsInv(l, base, s, DiskWrite);
    InvFacts(l, base, u);
  }

  lemma FirstStep<T>(l: Layout, base: map<nat, T>, s: State<T>, n: nat)
    requires l.Ok() && Inv(l, base, s) && 0 < n
    ensures Run(l, s, DiskWrites(n)) == Run(l, Next(l, s, DiskWrite), DiskWrites(n - 1))
  {
    assert DiskWrites<T>(n)[1..] == DiskWrites<T>(n - 1);
  }

  /** A commit or recovery that is left alone finishes, after so many writes. */
  lemma {:induction false} WritesFinish<T>(l: Layout, base: map<nat, T>, s: State<T>, t: State<T>)
    requires l.Ok() && Inv(l, base, s) && !s.phase.Running? && t == Run(l, s, DiskWrites(WritesLeft(s)))
    ensures Inv(l, base, t) && t.phase.Running? && t.ops.active == {} && t.ops.groups == GroupsAfter(s)
    ensures HomeIs(l, t.disk, Effect(base, t.ops.groups))
    decreases WritesLeft(s)
  {
    hide Inv, StoreAt, OpsOk;
    InvFacts(l, base, s);
    var u := Next(l, s, DiskWrite);
    assert 0 < WritesLeft(s);
    FirstStep(l, base, s, WritesLeft(s));
    WriteProceeds(l, base, s, u);
    InvFacts(l, base, u);
    if !u.phase.Running? {
      WritesFinish(l, base, u, t);
    }
  }

  /** A recovery that is left alone finishes, after one write per header entry
      and one to clear the header, without adding or dropping a group. */
  lemma RecoveryFinishes<T>(l: Layout, base: map<nat, T>, s: State<T>, t: State<T>)
    requires l.Ok() && Inv(l, base, s) && (s.phase.RecInstall? || s.phase.RecClear?)
    requires t == Run(l, s, DiskWrites(WritesLeft(s)))
    ensures s.phase == RecInstall(0) ==> WritesLeft(s) == |s.lh| + 1
    ensures t.phase.Running? && t.ops.groups == s.ops.groups && HomeIs(l, t.disk, Effect(base, s.ops.groups))
  {
    WritesFinish(l, base, s, t);
  }

  /** The end_op of the last operation commits the group: after the two writes per
      header entry and the two of the header, the group is on the home blocks, and
      operations can run again. */
  lemma CommitFinishes<T>(l: Layout, base: map<nat, T>, s: State<T>, op: nat, t: State<T>)
    requires l.Ok() && Inv(l, base, s) && s.phase.Running? && s.ops.active == {op} && s.lh != []
    requires t == Run(l, s, [EndOp(op)] + DiskWrites(2 * |s.lh| + 2))
    ensures Inv(l, base, t) && t.phase.Running? && t.ops.active == {} && t.ops.cur == [] && t.lh == []
    ensures t.ops.groups == s.ops.groups + [s.ops.cur] && HomeIs(l, t.disk, Effect(base, t.ops.groups))
  {
    hide Inv, StoreAt, OpsOk, Run;
    var n := 2 * |s.lh| + 2;
    var steps: seq<Step<T>> := [EndOp(op)] + DiskWrites(n);
    InvFacts(l, base, s);
    ConsRun(l, s, EndOp(op), DiskWrites(n));
    StepKeepsInv(l, base, s, EndOp(op));
    assert s.ops.active - {op} == {};
    WritesFinish(l, base, Next(l, s, EndOp(op)), t);
    InvFacts(l, base, t);
  }

  /** What the steps of an operation do: it is outstanding from begin_op to end_op;
      log_write changes what bread returns for its block, of no other, and puts the
      block in the header; an end_op that does not commit changes no block. */
  lemma OperationSteps<T>(l: Layout, base: map<nat, T>, s: State<T>, step: Step<T>, t: State<T>, b: nat)
    requires l.Ok() && Inv(l, base, s) && Enabled(l, s, step) && t == Next(l, s, step) && l.Home(b)
    requires step.BeginOp? || step.LogWrite? || step.EndOp?
    ensures b in s.disk && b in t.disk && t.disk == s.disk && t.ops.groups == s.ops.groups
    ensures step.BeginOp? ==> t.ops.active == s.ops.active + {step.op} && step.op !in s.ops.active
    ensures step.LogWrite? ==> t.ops.active == s.ops.active && step.b in t.lh && s.lh <= t.lh && t.phase.Running?
    ensures step.LogWrite? ==> |t.lh| == |s.lh| + if step.b in s.lh then 0 else 1
    ensures step.EndOp? ==> t.ops.active == s.ops.active - {step.op} && t.lh == s.lh
    ensures step.EndOp? ==> (t.phase.Running? <==> t.ops.active != {} || t.lh == [])
    ensures View(t, b) == if step.LogWrite? && b == step.b then step.data else View(s, b)
  {
  }

  /** With mkfs's LOGSIZE an empty log takes up to three operations at once, and no more. */
  lemma ThreeAtOnce<T>(l: Layout, base: map<nat, T>, s: State<T>, op: nat)
    requires l.Ok() && Inv(l, base, s) && s.phase.Running? && op !in s.ops.started
    ensures Enabled(l, s, BeginOp(op)) ==> |s.ops.active| < 3
    ensures s.lh == [] && |s.ops.active| < 3 ==> Enabled(l, s, BeginOp(op))
  {
  }

  /** Nothing keeps a one-block operation from reaching the disk: from an idle log, it
      begins, reads its block, log_writes it and ends, and after four block writes the
      block has the new contents, and the other home blocks theirs. */
  lemma WriteReaches<T>(l: Layout, base: map<nat, T>, s: State<T>, op: nat, b: nat, data: T, t: State<T>)
    requires l.Ok() && Inv(l, base, s) && s.phase.Running? && s.ops.active == {} && op !in s.ops.started
    requires l.Home(b) && 0 < l.Capacity() && t == Run(l, s,
      [BeginOp(op)] + ([Fetch(b)] + ([LogWrite(op, b, data)] + ([EndOp(op)] + DiskWrites(4)))))
    ensures Inv(l, base, t) && t.phase.Running? && t.ops.active == {} && b in t.disk && t.disk[b] == data
    ensures forall c: nat | l.Home(c) && c != b :: c in s.disk && c in t.disk && t.disk[c] == s.disk[c]
  {
    hide Inv, Shape, Run;
    IdleStart(l, base, s, op, b, data);
    var was := Effect(base, s.ops.groups);
    var s1 := Next(l, s, BeginOp(op));
    var s2 := Next(l, s1, Fetch(b));
    var s3 := Next(l, s2, LogWrite(op, b, data));
    var w := LWrite(op, b, data);
    ConsRun(l, s, BeginOp(op), [Fetch(b)] + ([LogWrite(op, b, data)] + ([EndOp(op)] + DiskWrites(4))));
    ConsRun(l, s1, Fetch(b), [LogWrite(op, b, data)] + ([EndOp(op)] + DiskWrites(4)));
    ConsRun(l, s2, LogWrite(op, b, data), [EndOp(op)] + DiskWrites(4));
    CommitFinishes(l, base, s3, op, t);
    EffectSnoc(base, s.ops.groups, [w]);
    ApplySnoc(was, [], w);
    assert [] + [w] == [w];
  }

  lemma ConsRun<T>(l: Layout, s: State<T>, step: Step<T>, rest: seq<Step<T>>)
    requires l.Ok() && Shape(l, s)
    ensures Run(l, s, [step] + rest) == Run(l, Next(l, s, step), rest)
  {
    assert ([step] + rest)[1..] == rest;
  }

  lemma IdleStart<T>(l: Layout, base: map<nat, T>, s: State<T>, op: nat, b: nat, data: T)
    requires l.Ok() && Inv(l, base, s) && s.phase.Running? && s.ops.active == {} && op !in s.ops.started
    requires l.Home(b) && 0 < l.Capacity()
    ensures Shape(l, s) && HomeIs(l, s.disk, Effect(base, s.ops.groups))
    ensures var s1 := Next(l, s, BeginOp(op));
            Inv(l, base, s1) && Shape(l, s1) &&
            var s2 := Next(l, s1, Fetch(b));
            Inv(l, base, s2) && Shape(l, s2) &&
            var s3 := Next(l, s2, LogWrite(op, b, data));
            && Inv(l, base, s3) && s3.phase.Running? && s3.ops.active == {op} && s3.lh == [b]
            && s3.ops.groups == s.ops.groups && s3.ops.cur == [LWrite(op, b, data)]
  {
    hide Inv, StoreAt, OpsOk;
    InvFacts(l, base, s);
    var s1 := Next(l, s, BeginOp(op));
    StepKeepsInv(l, base, s, BeginOp(op));
    InvFacts(l, base, s1);
    var s2 := Next(l, s1, Fetch(b));
    StepKeepsInv(l, base, s1, Fetch(b));
    InvFacts(l, base, s2);
    StepKeepsInv(l, base, s2, LogWrite(op, b, data));
  }
}
