/** Sleep locks (kernel/sleeplock.c) as users of sleep and wakeup. */
module SleepLock {
  import opened SleepWakeup

  /** Where a process is in acquiresleep or releasesleep. */
  datatype Ctl =
    | Idle
    | Test          // acquiresleep: holds lk->lk, at the loop test
    | Sleeping      // acquiresleep: inside sleep(lk, &lk->lk)
    | Got           // acquiresleep: set locked, to release lk->lk
    | Holds         // has the sleep lock
    | Unlocking     // releasesleep: holds lk->lk
    | Waking(i: nat)   // releasesleep: in wakeup(lk), at process i

  /** `locked` and `pid` of the sleep lock; processes are named by their pid.  Its
      address as a channel is 0. */
  datatype Lock = Lock(mon: State, locked: bool, pid: nat, ctl: seq<Ctl>)

  datatype Action =
    | Enter(p: nat) | Check(p: nat) | Doze(p: nat) | SwitchAway(p: nat) | Retry(p: nat) | Leave(p: nat)
    | Reenter(p: nat) | Unlock(p: nat) | WakeNext(p: nat) | Finish(p: nat) | KillOne(p: nat)

  /** What the action does to the lock lk->lk and to sleepers. */
  function MonStep(s: Lock, a: Action): seq<Step> {
    match a
    case Enter(p) => [Acquire(p)]
    case Check(p) => if s.locked then [Commit(p, 0)] else [Set(p, 0, false)]
    case Doze(p) => [Yield(p)]
    case SwitchAway(p) => [Switch(p)]
    case Retry(p) => [Acquire(p)]
    case Leave(p) => [Release(p)]
    case Reenter(p) => [Acquire(p)]
    case Unlock(p) => [Set(p, 0, true)]
    case WakeNext(p) => if p < |s.ctl| && s.ctl[p].Waking? && s.ctl[p].i != p then [Visit(p, 0, s.ctl[p].i)] else []
    case Finish(p) => [Release(p)]
    case KillOne(p) => [Kill(p)]
  }

  predicate At(s: Lock, a: Action) {
    var p := a.p;
    p < |s.ctl| &&
    match a
    case Enter(_) => s.ctl[p] == Idle
    case Check(_) => s.ctl[p] == Test
    case Doze(_) => s.ctl[p] == Sleeping
    case SwitchAway(_) => s.ctl[p] == Sleeping
    case Retry(_) => s.ctl[p] == Sleeping
    case Leave(_) => s.ctl[p] == Got
    case Reenter(_) => s.ctl[p] == Holds
    case Unlock(_) => s.ctl[p] == Unlocking
    case WakeNext(_) => s.ctl[p].Waking? && s.ctl[p].i < |s.ctl|
    case Finish(_) => s.ctl[p] == Waking(|s.ctl|)
    case KillOne(_) => true
  }

  /** The process is there and the spin locks allow it. */
  predicate Can(s: Lock, a: Action) {
    At(s, a) && forall i | 0 <= i < |MonStep(s, a)| :: Enabled(s.mon, MonStep(s, a)[i])
  }

  function Do(s: Lock, a: Action): Lock
    requires Can(s, a)
  {
    var p := a.p;
    var t := s.(mon := if MonStep(s, a) == [] then s.mon else Next(s.mon, MonStep(s, a)[0]));
    match a
    case Enter(_) => t.(ctl := s.ctl[p := Test])
    case Check(_) => if s.locked then t.(ctl := s.ctl[p := Sleeping])
      else t.(locked := true, pid := p, ctl := s.ctl[p := Got])
    case Doze(_) => t
    case SwitchAway(_) => t
    case Retry(_) => t.(ctl := s.ctl[p := Test])
    case Leave(_) => t.(ctl := s.ctl[p := Holds])
    case Reenter(_) => t.(ctl := s.ctl[p := Unlocking])
    case Unlock(_) => t.(locked := false, ctl := s.ctl[p := Waking(0)])
    case WakeNext(_) => t.(ctl := s.ctl[p := Waking(s.ctl[p].i + 1)])
    case Finish(_) => t.(ctl := s.ctl[p := Idle])
    case KillOne(_) => t
  }

  /** The two programs and the sleep machine agree about process `q`. */
  ghost predicate ProcOk(s: Lock, q: nat)
    requires q < |s.ctl| == |s.mon.pc|
  {
    && ((s.ctl[q].Got? || s.ctl[q].Holds? || s.ctl[q].Unlocking?) <==> s.locked && s.pid == q)
    && match s.ctl[q]
       case Idle => s.mon.pc[q] == Out
       case Holds => s.mon.pc[q] == Out
       case Sleeping => Sleepy(s.mon.pc[q], 0) || s.mon.pc[q] == Woken
       case Test => s.mon.pc[q] == In
       case Got => s.mon.pc[q] == In
       case Unlocking => s.mon.pc[q] == In
       case Waking(i) => s.mon.pc[q] == In && !s.locked && i <= |s.ctl| && forall r | 0 <= r < i && r != q ::
         (0, r) in s.mon.passed
  }

  ghost predicate LockInv(s: Lock) {
    && |s.ctl| == |s.mon.pc| && Inv(s.mon)
    && s.mon.cond == (if s.locked then {} else {0})
    && forall q {:trigger s.ctl[q]} | 0 <= q < |s.ctl| :: ProcOk(s, q)
  }

  /** Both programs obey the rules of sleep and wakeup. */
  lemma ActionDisciplined(s: Lock, a: Action)
    requires LockInv(s) && Can(s, a)
    ensures forall i | 0 <= i < |MonStep(s, a)| :: Disciplined(s.mon, MonStep(s, a)[i])
  {
    assert ProcOk(s, a.p);
  }

  lemma ActionKeepsInv(s: Lock, a: Action)
    requires LockInv(s) && Can(s, a)
    ensures LockInv(Do(s, a))
  {
    var t := Do(s, a);
    ActionDisciplined(s, a);
    if MonStep(s, a) != [] {
      StepKeepsInv(s.mon, MonStep(s, a)[0]);
    }
    assert ProcOk(s, a.p) && SleeperOk(s.mon, a.p);
    forall q: nat | q < |t.ctl| ensures ProcOk(t, q) {
      assert ProcOk(s, q) && SleeperOk(s.mon, q) && SleeperOk(t.mon, q);
    }
  }

  ghost predicate Runs(s: Lock, actions: seq<Action>, t: Lock)
    decreases |actions|
  {
    if actions == [] then s == t else Can(s, actions[0]) && Runs(Do(s, actions[0]), actions[1..], t)
  }

  lemma {:induction false} RunsKeepInv(s: Lock, actions: seq<Action>, t: Lock)
    requires LockInv(s) && Runs(s, actions, t)
    ensures LockInv(t)
    decreases |actions|
  {
    if actions != [] {
      ActionKeepsInv(s, actions[0]);
      RunsKeepInv(Do(s, actions[0]), actions[1..], t);
    }
  }

  /** initsleeplock, before anybody uses the lock. */
  ghost predicate Fresh(s: Lock) {
    && Initial(s.mon) && !s.locked && s.mon.cond == {0} && |s.ctl| == |s.mon.pc|
    && forall q {:trigger s.ctl[q]} | 0 <= q < |s.ctl| :: s.ctl[q] == Idle
  }

  /** The process has the sleep lock, or is on its way in or out with it. */
  predicate Has(s: Lock, p: nat)
    requires p < |s.ctl|
  {
    s.ctl[p].Got? || s.ctl[p].Holds? || s.ctl[p].Unlocking?
  }

  /** In every run of any number of processes: at most one of them has the sleep lock,
      holdingsleep's test tells whether it is p, and when lk->lk and the sleep lock are
      free nobody is left asleep, or bound to sleep, on it. */
  lemma SleepLockSafe(s: Lock, actions: seq<Action>, t: Lock)
    requires Fresh(s) && Runs(s, actions, t)
    ensures |t.ctl| == |t.mon.pc| && forall p: nat {:trigger t.ctl[p]} | p < |t.ctl| :: Has(t, p) <==>
      t.locked && t.pid == p
    ensures t.mon.lock == Nobody && !t.locked ==>
      forall q {:trigger t.mon.pc[q]} | 0 <= q < |t.ctl| :: !Sleepy(t.mon.pc[q], 0)
  {
    InitialInv(s.mon);
    forall q: nat | q < |s.ctl| ensures ProcOk(s, q) {
      assert s.ctl[q] == Idle && s.mon.pc[q] == Out;
    }
    RunsKeepInv(s, actions, t);
    InvNoneMissed(t.mon);
    forall p: nat | p < |t.ctl| ensures Has(t, p) <==> t.locked && t.pid == p {
      assert ProcOk(t, p);
    }
  }

  /** acquiresleep takes the lock exactly if it finds it free, and sleeps otherwise;
      releasesleep gives it up.  Nothing else changes who has it. */
  lemma LockChanges(s: Lock, a: Action, q: nat)
    requires LockInv(s) && Can(s, a) && q < |s.ctl|
    ensures q < |Do(s, a).ctl|
    ensures Has(Do(s, a), q) <==>
      if a == Check(q) then !s.locked else if a == Unlock(q) then false else Has(s, q)
    ensures a == Check(q) && s.locked ==> Sleepy(Do(s, a).mon.pc[q], 0)
  {
    assert ProcOk(s, q) && ProcOk(s, a.p);
  }
}
