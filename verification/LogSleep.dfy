/** begin_op, log_write and end_op (kernel/log.c) as users of sleep and wakeup: who waits
    for log space, and who wakes them.  commit runs without log.lock. */
module LogSleep {
  import opened LogFormat
  import opened SleepWakeup

  /** Where a process is. */
  datatype Ctl =
    | Idle
    | Test             // begin_op: holds log.lock, at the tests
    | Sleeping         // begin_op: inside sleep(&log, &log.lock)
    | Admitted         // begin_op: counted, to release log.lock
    | Op               // between begin_op and end_op
    | Writing          // log_write: holds log.lock
    | Written          // log_write: to release it
    | Ending           // end_op: holds log.lock
    | Waking(i: nat)   // end_op: in wakeup(&log), at process i
    | Starting         // end_op: has set committing, to release log.lock
    | Committing       // in commit
    | Flushed          // after it
    | Clearing         // end_op again: holds log.lock

  /** log.lh.n, log.committing, the processes that log.outstanding counts, and the one
      that commits.  The channel &log is 0. */
  datatype Log = Log(mon: State, n: nat, committing: bool, ops: set<nat>, committer: nat, ctl: seq<Ctl>)

  /** begin_op's tests would admit an operation. */
  predicate Admits(n: nat, committing: bool, outstanding: nat) {
    !committing && n + (outstanding + 1) * MAXOPBLOCKS <= LOGSIZE
  }

  datatype Action =
    | Enter(p: nat) | Check(p: nat) | Doze(p: nat) | SwitchAway(p: nat) | Retry(p: nat) | Leave(p: nat)
    | StartWrite(p: nat) | Append(p: nat, absorbed: bool) | FinishWrite(p: nat)
    | StartEnd(p: nat) | End(p: nat) | WakeNext(p: nat) | Finish(p: nat)
    | GoCommit(p: nat) | Flush(p: nat) | Return(p: nat) | Clear(p: nat)
    | KillOne(p: nat)

  predicate At(s: Log, a: Action) {
    var p := a.p;
    p < |s.ctl| &&
    match a
    case Enter(_) => s.ctl[p] == Idle
    case Check(_) => s.ctl[p] == Test
    case Doze(_) => s.ctl[p] == Sleeping
    case SwitchAway(_) => s.ctl[p] == Sleeping
    case Retry(_) => s.ctl[p] == Sleeping
    case Leave(_) => s.ctl[p] == Admitted
    case StartWrite(_) => s.ctl[p] == Op
    case Append(_, _) => s.ctl[p] == Writing
    case FinishWrite(_) => s.ctl[p] == Written
    case StartEnd(_) => s.ctl[p] == Op
    case End(_) => s.ctl[p] == Ending
    case WakeNext(_) => s.ctl[p].Waking? && s.ctl[p].i < |s.ctl|
    case Finish(_) => s.ctl[p] == Waking(|s.ctl|)
    case GoCommit(_) => s.ctl[p] == Starting
    case Flush(_) => s.ctl[p] == Committing
    case Return(_) => s.ctl[p] == Flushed
    case Clear(_) => s.ctl[p] == Clearing
    case KillOne(_) => true
  }

  /** What the action does to the log. */
  function Data(s: Log, a: Action): Log
    requires At(s, a)
  {
    var p := a.p;
    match a
    case Enter(_) => s.(ctl := s.ctl[p := Test])
    case Check(_) =>
      if Admits(s.n, s.committing, |s.ops|) then s.(ops := s.ops + {p}, ctl := s.ctl[p := Admitted])
      else s.(ctl := s.ctl[p := Sleeping])
    case Doze(_) => s
    case SwitchAway(_) => s
    case Retry(_) => s.(ctl := s.ctl[p := Test])
    case Leave(_) => s.(ctl := s.ctl[p := Op])
    case StartWrite(_) => s.(ctl := s.ctl[p := Writing])
    case Append(_, absorbed) => s.(n := if absorbed then s.n else s.n + 1, ctl := s.ctl[p := Written])
    case FinishWrite(_) => s.(ctl := s.ctl[p := Op])
    case StartEnd(_) => s.(ctl := s.ctl[p := Ending])
    case End(_) =>
      var ops := s.ops - {p};
      if ops == {} then s.(ops := ops, committing := true, committer := p, ctl := s.ctl[p := Starting])
      else s.(ops := ops, ctl := s.ctl[p := Waking(0)])
    case WakeNext(_) => s.(ctl := s.ctl[p := Waking(s.ctl[p].i + 1)])
    case Finish(_) => s.(ctl := s.ctl[p := Idle])
    case GoCommit(_) => s.(ctl := s.ctl[p := Committing])
    case Flush(_) => s.(n := 0, ctl := s.ctl[p := Flushed])
    case Return(_) => s.(ctl := s.ctl[p := Clearing])
    case Clear(_) => s.(committing := false, ctl := s.ctl[p := Waking(0)])
    case KillOne(_) => s
  }

  /** ... and to log.lock and sleepers: the condition is that begin_op would go on. */
  function MonStep(s: Log, a: Action): seq<Step>
    requires At(s, a)
  {
    var p := a.p;
    var t := Data(s, a);
    var now := Admits(t.n, t.committing, |t.ops|);
    match a
    case Enter(_) => [Acquire(p)]
    case Check(_) => if Admits(s.n, s.committing, |s.ops|) then [Set(p, 0, now)] else [Commit(p, 0)]
    case Doze(_) => [Yield(p)]
    case SwitchAway(_) => [Switch(p)]
    case Retry(_) => [Acquire(p)]
    case Leave(_) => [Release(p)]
    case StartWrite(_) => [Acquire(p)]
    case Append(_, _) => [Set(p, 0, now)]
    case FinishWrite(_) => [Release(p)]
    case StartEnd(_) => [Acquire(p)]
    case End(_) => [Set(p, 0, now)]
    case WakeNext(_) => if s.ctl[p].i != p then [Visit(p, 0, s.ctl[p].i)] else []
    case Finish(_) => [Release(p)]
    case GoCommit(_) => [Release(p)]
    case Flush(_) => []
    case Return(_) => [Acquire(p)]
    case Clear(_) => [Set(p, 0, now)]
    case KillOne(_) => [Kill(p)]
  }

  /** The process is there and the spin locks allow it. */
  predicate Can(s: Log, a: Action) {
    At(s, a) && forall i | 0 <= i < |MonStep(s, a)| :: Enabled(s.mon, MonStep(s, a)[i])
  }

  function Do(s: Log, a: Action): Log
    requires Can(s, a)
  {
    Data(s, a).(mon := if MonStep(s, a) == [] then s.mon else Next(s.mon, MonStep(s, a)[0]))
  }

  // ---------- The invariant ----------

  predicate InOp(c: Ctl) {
    c.Admitted? || c.Op? || c.Writing? || c.Written? || c.Ending?
  }

  predicate InCommit(c: Ctl) {
    c.Starting? || c.Committing? || c.Flushed? || c.Clearing?
  }

  /** The log counts process `q` as what it is. */
  ghost predicate CountOk(s: Log, q: nat)
    requires q < |s.ctl|
  {
    && (InOp(s.ctl[q]) <==> q in s.ops)
    && (InCommit(s.ctl[q]) <==> s.committing && s.committer == q)
    && (s.ctl[q].Flushed? || s.ctl[q].Clearing? ==> s.n == 0)
  }

  /** The program and the sleep machine agree about process `q`. */
  ghost predicate PlaceOk(mon: State, c: Ctl, q: nat)
    requires q < |mon.pc|
  {
    match c
    case Idle => mon.pc[q] == Out
    case Op => mon.pc[q] == Out
    case Committing => mon.pc[q] == Out
    case Flushed => mon.pc[q] == Out
    case Clearing => mon.pc[q] == In
    case Sleeping => Sleepy(mon.pc[q], 0) || mon.pc[q] == Woken
    case Waking(i) => mon.pc[q] == In && i <= |mon.pc| && forall r | 0 <= r < i && r != q :: (0, r) in mon.passed
    case _ => mon.pc[q] == In && mon.cond <= mon.clean
  }

  ghost predicate ProcOk(s: Log, q: nat)
    requires q < |s.ctl| == |s.mon.pc|
  {
    CountOk(s, q) && PlaceOk(s.mon, s.ctl[q], q)
  }

  ghost predicate CondIs(s: Log) {
    s.mon.cond == if Admits(s.n, s.committing, |s.ops|) then {0} else {}
  }

  /** What the log's counts say, and how the condition changes: only end_op can make it
      true. */
  ghost predicate DataOk(s: Log) {
    && CondIs(s) && (s.committing ==> s.ops == {}) && (s.ops == {} && !s.committing ==> s.n == 0)
    && (s.committing ==> s.committer < |s.ctl|) && (forall p | p in s.ops :: p < |s.ctl|)
  }

  ghost predicate LogInv(s: Log) {
    && |s.ctl| == |s.mon.pc| && Inv(s.mon)
    && DataOk(s)
    && forall q {:trigger ProcOk(s, q)} | 0 <= q < |s.ctl| :: ProcOk(s, q)
  }

  /** begin_op, log_write and end_op obey the rules of sleep and wakeup. */
  lemma ActionDisciplined(s: Log, a: Action)
    requires LogInv(s) && Can(s, a)
    ensures forall i | 0 <= i < |MonStep(s, a)| :: Disciplined(s.mon, MonStep(s, a)[i])
  {
    assert ProcOk(s, a.p);
  }

  /** Actions that change neither the log's counts nor the condition. */
  predicate Plain(a: Action) {
    !a.Check? && !a.Append? && !a.End? && !a.Clear? && !a.Flush?
  }

  lemma PlainKeeps(s: Log, a: Action)
    requires Can(s, a) && Plain(a)
    ensures var t := Do(s, a);
            && t.n == s.n && t.committing == s.committing && t.committer == s.committer && t.ops == s.ops
            && t.mon.cond == s.mon.cond && |t.ctl| == |s.ctl|
  {
    hide Admits;
  }

  lemma Counts(ops: set<nat>, p: nat)
    ensures p !in ops ==> |ops + {p}| == |ops| + 1 && ops + {p} != {}
    ensures p in ops ==> |ops - {p}| == |ops| - 1 && ops != {}
  {
    assert p in ops + {p};
  }

  lemma CheckKeeps(s: Log, a: Action)
    requires LogInv(s) && Can(s, a) && a.Check?
    ensures DataOk(Do(s, a)) && Do(s, a).mon.cond <= s.mon.cond
  {
    hide Inv, PlaceOk;
    assert ProcOk(s, a.p);
    Counts(s.ops, a.p);
  }

  lemma AppendKeeps(s: Log, a: Action)
    requires LogInv(s) && Can(s, a) && a.Append?
    ensures DataOk(Do(s, a)) && Do(s, a).mon.cond <= s.mon.cond
  {
    hide Inv, PlaceOk;
    assert ProcOk(s, a.p);
  }

  lemma EndKeeps(s: Log, a: Action)
    requires LogInv(s) && Can(s, a) && a.End?
    ensures DataOk(Do(s, a)) && (Do(s, a).committing ==> Do(s, a).mon.cond <= s.mon.cond)
  {
    hide Inv, PlaceOk;
    assert ProcOk(s, a.p);
    Counts(s.ops, a.p);
  }

  lemma CommitKeeps(s: Log, a: Action)
    requires LogInv(s) && Can(s, a) && (a.Clear? || a.Flush?)
    ensures DataOk(Do(s, a)) && (if a.Flush? then Do(s, a).mon.cond <= s.mon.cond else !Do(s, a).committing)
  {
    hide Inv, PlaceOk;
    assert ProcOk(s, a.p);
  }

  lemma DataKeeps(s: Log, a: Action)
    requires LogInv(s) && Can(s, a)
    ensures DataOk(Do(s, a))
    ensures (!a.End? && !a.Clear?) || Do(s, a).committing ==> Do(s, a).mon.cond <= s.mon.cond
  {
    hide Do, Can, Inv, Admits;
    if Plain(a) {
      PlainKeeps(s, a);
    } else if a.Check? {
      CheckKeeps(s, a);
    } else if a.Append? {
      AppendKeeps(s, a);
    } else if a.End? {
      EndKeeps(s, a);
    } else {
      CommitKeeps(s, a);
    }
  }

  lemma PlainCount(s: Log, a: Action, q: nat)
    requires LogInv(s) && Can(s, a) && q < |s.ctl| && Plain(a)
    ensures |Do(s, a).ctl| == |s.ctl| && CountOk(Do(s, a), q)
  {
    hide DataOk, Inv, MonStep, PlaceOk;
    assert ProcOk(s, a.p) && ProcOk(s, q);
    PlainKeeps(s, a);
  }

  lemma BusyCount(s: Log, a: Action, q: nat)
    requires LogInv(s) && Can(s, a) && q < |s.ctl| && !Plain(a)
    ensures |Do(s, a).ctl| == |s.ctl| && CountOk(Do(s, a), q)
  {
    hide CondIs, Inv, MonStep, PlaceOk;
    assert ProcOk(s, a.p) && ProcOk(s, q);
  }

  /** The acting process takes log.lock. */
  predicate Takes(a: Action) {
    a.Enter? || a.Retry? || a.StartWrite? || a.StartEnd? || a.Return?
  }

  /** The acting process gives it up. */
  predicate Gives(a: Action) {
    a.Leave? || a.FinishWrite? || a.Finish? || a.GoCommit?
  }

  ghost predicate PlaceAfter(s: Log, a: Action)
    requires Can(s, a)
  {
    var t := Do(s, a);
    |t.mon.pc| == |s.mon.pc| && |t.ctl| == |s.ctl| && a.p < |t.mon.pc| && PlaceOk(t.mon, t.ctl[a.p], a.p)
  }

  lemma LockKeeps(s: Log, a: Action)
    requires LogInv(s) && Can(s, a) && (Takes(a) || Gives(a))
    ensures PlaceAfter(s, a)
  {
    hide DataOk, Inv, CountOk;
  }

  lemma SleepKeeps(s: Log, a: Action)
    requires LogInv(s) && Can(s, a) && (a.Doze? || a.SwitchAway? || a.KillOne?)
    ensures PlaceAfter(s, a)
  {
    hide DataOk, Inv, CountOk;
    assert ProcOk(s, a.p);
  }

  lemma CheckPlace(s: Log, a: Action)
    requires LogInv(s) && Can(s, a) && a.Check?
    ensures PlaceAfter(s, a)
  {
    hide DataOk, Inv, CountOk, Admits;
    assert ProcOk(s, a.p);
    CheckKeeps(s, a);
  }

  lemma AppendPlace(s: Log, a: Action)
    requires LogInv(s) && Can(s, a) && a.Append?
    ensures PlaceAfter(s, a)
  {
    hide DataOk, Inv, CountOk, Admits;
    assert ProcOk(s, a.p);
    AppendKeeps(s, a);
  }

  lemma EndPlace(s: Log, a: Action)
    requires LogInv(s) && Can(s, a) && (a.End? || a.Clear? || a.Flush?)
    ensures PlaceAfter(s, a)
  {
    hide DataOk, Inv, CountOk, Admits;
    assert ProcOk(s, a.p);
    DataKeeps(s, a);
  }

  /** wakeup's next process. */
  lemma VisitKeeps(s: Log, a: Action)
    requires LogInv(s) && Can(s, a) && a.WakeNext?
    ensures PlaceAfter(s, a)
  {
    hide DataOk, Inv, CountOk;
    assert ProcOk(s, a.p);
    var t, i := Do(s, a), s.ctl[a.p].i;
    forall r | 0 <= r < i + 1 && r != a.p ensures (0, r) in t.mon.passed {
      assert r < i ==> (0, r) in s.mon.passed;
    }
  }

  lemma ActorKept(s: Log, a: Action)
    requires LogInv(s) && Can(s, a)
    ensures PlaceAfter(s, a)
  {
    hide Can, PlaceAfter, LogInv;
    if Takes(a) || Gives(a) {
      LockKeeps(s, a);
    } else if a.WakeNext? {
      VisitKeeps(s, a);
    } else if Plain(a) {
      SleepKeeps(s, a);
    } else if a.Check? {
      CheckPlace(s, a);
    } else if a.Append? {
      AppendPlace(s, a);
    } else {
      EndPlace(s, a);
    }
  }

  lemma OtherKept(s: Log, a: Action, q: nat)
    requires LogInv(s) && Can(s, a) && q < |s.ctl| && q != a.p
    ensures |Do(s, a).ctl| == |Do(s, a).mon.pc| == |s.ctl| && PlaceOk(Do(s, a).mon, Do(s, a).ctl[q], q)
  {
    hide Admits, Inv, MonStep, CountOk, DataOk;
    assert ProcOk(s, q) && Do(s, a).ctl[q] == s.ctl[q];
    OtherMon(s, a, q);
  }

  lemma OtherMon(s: Log, a: Action, q: nat)
    requires LogInv(s) && Can(s, a) && q < |s.ctl| && q != a.p
    ensures var t := Do(s, a).mon;
            && |t.pc| == |s.mon.pc| && (t.pc[q] == s.mon.pc[q] || (s.mon.pc[q].Asleep? && t.pc[q] == Woken))
            && (s.mon.pc[q] == In ==> t.cond == s.mon.cond && t.clean == s.mon.clean && t.passed == s.mon.passed)
  {
    hide Admits, Inv, Next;
    if MonStep(s, a) != [] {
      Bystander(s.mon, MonStep(s, a)[0], q);
    }
  }

  lemma ActionKeepsInv(s: Log, a: Action)
    requires LogInv(s) && Can(s, a)
    ensures LogInv(Do(s, a))
  {
    var t := Do(s, a);
    ActionDisciplined(s, a);
    if MonStep(s, a) != [] {
      StepKeepsInv(s.mon, MonStep(s, a)[0]);
    }
    DataKeeps(s, a);
    ActorKept(s, a);
    assert PlaceAfter(s, a);
    hide Do, CountOk, PlaceOk, Admits;
    forall q: nat | q < |t.ctl| ensures ProcOk(t, q) {
      if Plain(a) {
        PlainCount(s, a, q);
      } else {
        BusyCount(s, a, q);
      }
      if q != a.p {
        OtherKept(s, a, q);
      }
    }
  }

  // ---------- Whole runs ----------

  ghost predicate Runs(s: Log, actions: seq<Action>, t: Log)
    decreases |actions|
  {
    if actions == [] then s == t else Can(s, actions[0]) && Runs(Do(s, actions[0]), actions[1..], t)
  }

  lemma {:induction false} RunsKeepInv(s: Log, actions: seq<Action>, t: Log)
    requires LogInv(s) && Runs(s, actions, t)
    ensures LogInv(t)
    decreases |actions|
  {
    if actions != [] {
      ActionKeepsInv(s, actions[0]);
      RunsKeepInv(Do(s, actions[0]), actions[1..], t);
    }
  }

  /** After initlog. */
  ghost predicate Fresh(s: Log) {
    && Initial(s.mon) && s.mon.cond == {0} && |s.ctl| == |s.mon.pc|
    && s.n == 0 && !s.committing && s.ops == {}
    && forall q {:trigger s.ctl[q]} | 0 <= q < |s.ctl| :: s.ctl[q] == Idle
  }

  /** In every run of any number of processes: while log.lock is free and begin_op's tests
      would admit an operation, nobody is asleep, or bound to sleep, in begin_op; so
      nobody is when the log is idle.  A commit has no outstanding operation, only one
      process commits, and end_op's panic is not reached: log.committing is 0 there. */
  lemma NobodyLeftWaiting(s: Log, actions: seq<Action>, t: Log)
    requires Fresh(s) && Runs(s, actions, t)
    ensures |t.ctl| == |t.mon.pc|
    ensures t.mon.lock == Nobody && Admits(t.n, t.committing, |t.ops|) ==>
      forall q {:trigger t.mon.pc[q]} | 0 <= q < |t.ctl| :: !Sleepy(t.mon.pc[q], 0)
    ensures t.ops == {} && !t.committing ==> Admits(t.n, t.committing, |t.ops|)
    ensures t.committing ==> t.ops == {}
    ensures forall p, q | 0 <= p < |t.ctl| && 0 <= q < |t.ctl| && InCommit(t.ctl[p]) && InCommit(t.ctl[q]) :: p == q
    ensures forall p | 0 <= p < |t.ctl| && t.ctl[p] == Ending :: !t.committing && p in t.ops
  {
    InitialInv(s.mon);
    forall q: nat | q < |s.ctl| ensures ProcOk(s, q) {
      assert s.ctl[q] == Idle && s.mon.pc[q] == Out;
    }
    RunsKeepInv(s, actions, t);
    InvNoneMissed(t.mon);
    forall p: nat | p < |t.ctl|
      ensures InCommit(t.ctl[p]) ==> t.committing && t.committer == p
      ensures t.ctl[p] == Ending ==> p in t.ops
    {
      assert ProcOk(t, p);
    }
  }

  /** begin_op counts an operation exactly if the log admits it, and sleeps otherwise;
      end_op stops counting it, and the last one commits, which empties the header.
      Nothing else changes which operations are outstanding. */
  lemma OperationsCount(s: Log, a: Action)
    requires LogInv(s) && Can(s, a)
    ensures Do(s, a).ops == if a.Check? && Admits(s.n, s.committing, |s.ops|) then s.ops + {a.p}
      else if a.End? then s.ops - {a.p} else s.ops
    ensures a.Check? && !Admits(s.n, s.committing, |s.ops|) ==> Do(s, a).ctl[a.p] == Sleeping
    ensures Do(s, a).committing == if a.End? && s.ops == {a.p} then true else if a.Clear? then false else s.committing
    ensures Do(s, a).n == if a.Flush? then 0 else if a.Append? && !a.absorbed then s.n + 1 else s.n
  {
    hide Inv, PlaceOk, Admits;
    assert ProcOk(s, a.p);
    if a.End? {
      LastOne(s.ops, a.p);
    }
  }

  lemma LastOne(ops: set<nat>, p: nat)
    requires p in ops
    ensures ops - {p} == {} <==> ops == {p}
  {
    if ops - {p} == {} {
      assert ops == (ops - {p}) + {p};
    }
  }
}
