/** exit, wait, reparent and the part of fork that sets the parent (kernel/proc.c), as
    users of sleep and wakeup with wait_lock.  A process's address is its channel. */
module ExitWait {
  import opened SleepWakeup

  datatype Life = Unused | Live | Zombie

  /** Where a process is. */
  datatype Ctl =
    | User
    | Scan               // wait: holds wait_lock, looks for exited children
    | Waiting            // wait: inside sleep(p, &wait_lock)
    | Forking(child: nat)   // fork: holds wait_lock
    | Leaving            // wait or fork: to release wait_lock
    | Reparent(i: nat)   // exit: in reparent, at process i
    | WakeInit(i: nat, j: nat)   // exit: in reparent's wakeup(initproc), at process j
    | WakeParent(j: nat) // exit: in wakeup(p->parent), at process j
    | Dying              // exit: to become a zombie
    | Dead               // exit: zombie, to release wait_lock
    | Gone

  const INIT: nat := 0
  const NONE: nat := 0xFFFF_FFFF   // no parent

  datatype Procs = Procs(mon: State, parent: seq<nat>, life: seq<Life>, ctl: seq<Ctl>)

  ghost predicate Sized(s: Procs) {
    |s.parent| == |s.life| == |s.ctl| == |s.mon.pc| && 0 < |s.ctl| <= NONE
  }

  ghost predicate ZombieChild(s: Procs, c: nat, q: nat) {
    q < |s.parent| && q < |s.life| && s.parent[q] == c && s.life[q] == Zombie
  }

  /** wait has something to find. */
  ghost predicate HasZombie(s: Procs, c: nat) {
    exists q: nat :: ZombieChild(s, c, q)
  }

  /** Why wait returns -1. */
  datatype Reason = NoChildren | Killed | BadAddress

  datatype Action =
    | Wait(p: nat) | Reap(p: nat, child: nat) | GiveUp(p: nat, why: Reason)
    | Sleep(p: nat) | Doze(p: nat) | SwitchAway(p: nat) | Retry(p: nat) | Leave(p: nat)
    | Fork(p: nat, child: nat) | Adopt(p: nat)
    | Exit(p: nat) | ReparentNext(p: nat) | WakeInitNext(p: nat)
    | WakeParentNext(p: nat) | Die(p: nat) | Depart(p: nat) | KillOne(p: nat)

  /** An exited child is found before the tests for children and for kill. */
  ghost predicate GivesUp(s: Procs, p: nat, why: Reason) {
    match why
    case NoChildren => p !in s.parent
    case Killed => !HasZombie(s, p)
    case BadAddress => HasZombie(s, p)
  }

  ghost predicate At(s: Procs, a: Action)
    requires Sized(s)
  {
    var p := a.p;
    p < |s.ctl| &&
    match a
    case Wait(_) => s.ctl[p] == User && s.life[p] == Live
    case Reap(_, q) => s.ctl[p] == Scan && ZombieChild(s, p, q)
    case GiveUp(_, why) => s.ctl[p] == Scan && GivesUp(s, p, why)
    case Sleep(_) => s.ctl[p] == Scan && !HasZombie(s, p) && p in s.parent
    case Doze(_) => s.ctl[p] == Waiting
    case SwitchAway(_) => s.ctl[p] == Waiting
    case Retry(_) => s.ctl[p] == Waiting
    case Leave(_) => s.ctl[p] == Leaving
    case Fork(_, q) => s.ctl[p] == User && s.life[p] == Live && q < |s.ctl| && q != p && s.life[q] == Unused
      && (s.ctl[q] == User || s.ctl[q] == Gone)
    case Adopt(_) => s.ctl[p].Forking?
    case Exit(_) => s.ctl[p] == User && s.life[p] == Live && p != INIT
    case ReparentNext(_) => s.ctl[p].Reparent?
    case WakeInitNext(_) => s.ctl[p].WakeInit?
    case WakeParentNext(_) => s.ctl[p].WakeParent?
    case Die(_) => s.ctl[p] == Dying
    case Depart(_) => s.ctl[p] == Dead
    case KillOne(_) => true
  }

  /** The new parents, states and places. */
  ghost function Data(s: Procs, a: Action): Procs
    requires Sized(s) && At(s, a)
  {
    var p, n := a.p, |s.ctl|;
    match a
    case Wait(_) => s.(ctl := s.ctl[p := Scan])
    case Reap(_, q) => s.(life := s.life[q := Unused], parent := s.parent[q := NONE], ctl := s.ctl[p := Leaving])
    case GiveUp(_, _) => s.(ctl := s.ctl[p := Leaving])
    case Sleep(_) => s.(ctl := s.ctl[p := Waiting])
    case Doze(_) => s
    case SwitchAway(_) => s
    case Retry(_) => s.(ctl := s.ctl[p := Scan])
    case Leave(_) => s.(ctl := s.ctl[p := User])
    case Fork(_, q) => s.(life := s.life[q := Live], ctl := s.ctl[q := User][p := Forking(q)])
    case Adopt(_) => if s.ctl[p].child < n then s.(parent := s.parent[s.ctl[p].child := p], ctl := s.ctl[p := Leaving])
      else s
    case Exit(_) => s.(ctl := s.ctl[p := Reparent(0)])
    case ReparentNext(_) =>
      var i := s.ctl[p].i;
      if i >= n then s.(ctl := s.ctl[p := WakeParent(0)])
      else if s.parent[i] == p then s.(parent := s.parent[i := INIT], ctl := s.ctl[p := WakeInit(i, 0)])
      else s.(ctl := s.ctl[p := Reparent(i + 1)])
    case WakeInitNext(_) =>
      var i, j := s.ctl[p].i, s.ctl[p].j;
      if j >= n then s.(ctl := s.ctl[p := Reparent(i + 1)]) else s.(ctl := s.ctl[p := WakeInit(i, j + 1)])
    case WakeParentNext(_) =>
      var j := s.ctl[p].j;
      if j >= n then s.(ctl := s.ctl[p := Dying]) else s.(ctl := s.ctl[p := WakeParent(j + 1)])
    case Die(_) => s.(life := s.life[p := Zombie], ctl := s.ctl[p := Dead])
    case Depart(_) => s.(ctl := s.ctl[p := Gone])
    case KillOne(_) => s
  }

  /** What the action does to wait_lock, to sleepers and to conditions. */
  ghost function MonSteps(s: Procs, a: Action): seq<Step>
    requires Sized(s) && At(s, a)
  {
    var p, n, t := a.p, |s.ctl|, Data(s, a);
    match a
    case Wait(_) => [Acquire(p)]
    case Reap(_, q) => [Set(p, p, HasZombie(t, p))]
    case GiveUp(_, _) => []
    case Sleep(_) => [Commit(p, p)]
    case Doze(_) => [Yield(p)]
    case SwitchAway(_) => [Switch(p)]
    case Retry(_) => [Acquire(p)]
    case Leave(_) => [Release(p)]
    case Fork(_, _) => [Acquire(p)]
    case Adopt(_) => []
    case Exit(_) => [Acquire(p)]
    case ReparentNext(_) =>
      var i := s.ctl[p].i;
      if i < n && s.parent[i] == p then [Set(p, p, HasZombie(t, p)), Set(p, INIT, HasZombie(t, INIT))] else []
    case WakeInitNext(_) => if s.ctl[p].j < n && s.ctl[p].j != p then [Visit(p, INIT, s.ctl[p].j)] else []
    case WakeParentNext(_) => if s.ctl[p].j < n && s.ctl[p].j != p then [Visit(p, s.parent[p], s.ctl[p].j)] else []
    case Die(_) => [Set(p, s.parent[p], HasZombie(t, s.parent[p]))]
    case Depart(_) => [Release(p)]
    case KillOne(_) => [Kill(p)]
  }

  ghost predicate Can(s: Procs, a: Action) {
    Sized(s) && At(s, a) && forall i | 0 <= i < |MonSteps(s, a)| :: Enabled(s.mon, MonSteps(s, a)[i])
  }

  ghost function Do(s: Procs, a: Action): Procs
    requires Can(s, a)
  {
    var ms := MonSteps(s, a);
    Data(s, a).(mon := if ms == [] then s.mon else if |ms| == 1 then Next(s.mon, ms[0])
      else Next(Next(s.mon, ms[0]), ms[1]))
  }

  // ---------- The invariant ----------

  /** No condition has become true since the lock was taken. */
  ghost predicate Calm(m: State) {
    forall c | c in m.cond :: c in m.clean
  }

  ghost predicate Visited(m: State, p: nat, chan: nat, j: nat) {
    forall r {:trigger (chan, r) in m.passed} | 0 <= r < j && r != p :: (chan, r) in m.passed
  }

  ghost predicate ProcOk(s: Procs, q: nat)
    requires Sized(s) && q < |s.ctl|
  {
    match s.ctl[q]
    case User => s.mon.pc[q] == Out
    case Gone => s.mon.pc[q] == Out
    case Waiting => (Sleepy(s.mon.pc[q], q) || s.mon.pc[q] == Woken) && (s.mon.pc[q].Committed? ==> Calm(s.mon))
    case Scan => s.mon.pc[q] == In && Calm(s.mon)
    case Leaving => s.mon.pc[q] == In && Calm(s.mon)
    case Forking(child) => s.mon.pc[q] == In && Calm(s.mon) && child < |s.ctl| && s.life[child] == Live
    case Reparent(_) => s.mon.pc[q] == In && Settled(s.mon, q)
    case WakeInit(_, j) =>
      s.mon.pc[q] == In && j <= |s.ctl| && Visited(s.mon, q, INIT, j) && forall c | c in s.mon.cond ::
        c in s.mon.clean || c == INIT || Woke(s.mon, q, c)
    case WakeParent(j) => s.mon.pc[q] == In && Settled(s.mon, q) && j <= |s.ctl| && Visited(s.mon, q, s.parent[q], j)
    case Dying => s.mon.pc[q] == In && Settled(s.mon, q) && Woke(s.mon, q, s.parent[q])
    case Dead => s.mon.pc[q] == In && Settled(s.mon, q)
  }

  ghost predicate CondOk(s: Procs, c: nat) {
    c in s.mon.cond <==> HasZombie(s, c)
  }

  ghost predicate WaitInv(s: Procs) {
    && Sized(s) && Inv(s.mon)
    && (forall c {:trigger CondOk(s, c)} :: CondOk(s, c))
    && (forall q {:trigger s.ctl[q]} | 0 <= q < |s.ctl| :: ProcOk(s, q))
  }

  /** A step of exit. */
  predicate Exiting(a: Action) {
    a.Exit? || a.ReparentNext? || a.WakeInitNext? || a.WakeParentNext? || a.Die? || a.Depart?
  }

  /** exit, wait and fork obey the rules of sleep and wakeup. */
  lemma ActionDisciplined(s: Procs, a: Action)
    requires WaitInv(s) && Can(s, a)
    ensures forall i | 0 <= i < |MonSteps(s, a)| :: Disciplined(s.mon, MonSteps(s, a)[i])
  {
    assert ProcOk(s, a.p) && CondOk(s, a.p);
    if a.Doze? {
      assert SleeperOk(s.mon, a.p);
    }
  }

  lemma SameZombies(s: Procs, t: Procs, c: nat)
    requires forall q {:trigger ZombieChild(t, c, q)} {:trigger ZombieChild(s, c, q)} :: ZombieChild(t, c, q) <==>
      ZombieChild(s, c, q)
    ensures HasZombie(t, c) <==> HasZombie(s, c)
  {
    if HasZombie(t, c) {
      var q: nat :| ZombieChild(t, c, q);
      assert ZombieChild(s, c, q);
    }
    if HasZombie(s, c) {
      var q: nat :| ZombieChild(s, c, q);
      assert ZombieChild(t, c, q);
    }
  }

  lemma WaitKeepsCond(s: Procs, a: Action, c: nat)
    requires WaitInv(s) && Can(s, a) && !Exiting(a)
    ensures CondOk(Do(s, a), c)
  {
    hide HasZombie;
    var t := Do(s, a);
    assert CondOk(s, c) && ProcOk(s, a.p);
    if a.Reap? && c == a.p {
      SameZombies(Data(s, a), t, c);
    } else {
      SameZombies(s, t, c);
    }
  }

  lemma ExitKeepsCond(s: Procs, a: Action, c: nat)
    requires WaitInv(s) && Can(s, a) && Exiting(a)
    ensures CondOk(Do(s, a), c)
  {
    var t := Do(s, a);
    assert CondOk(s, c) && ProcOk(s, a.p);
    if a.Die? && c == s.parent[a.p] {
      assert ZombieChild(Data(s, a), c, a.p) && ZombieChild(t, c, a.p);
    } else if a.ReparentNext? && (c == a.p || c == INIT) {
      SameZombies(Data(s, a), t, c);
      if MonSteps(s, a) == [] {
        SameIfNot(s, a, c);
      }
    } else {
      SameZombies(s, t, c);
    }
  }

  lemma SameIfNot(s: Procs, a: Action, c: nat)
    requires Sized(s) && At(s, a) && a.ReparentNext? && MonSteps(s, a) == []
    ensures HasZombie(Data(s, a), c) <==> HasZombie(s, c)
  {
    SameZombies(s, Data(s, a), c);
  }

  lemma ActionKeepsMon(s: Procs, a: Action)
    requires WaitInv(s) && Can(s, a)
    ensures Inv(Do(s, a).mon)
  {
    ActionDisciplined(s, a);
    var ms := MonSteps(s, a);
    if ms != [] {
      StepKeepsInv(s.mon, ms[0]);
      if |ms| == 2 {
        StepKeepsInv(Next(s.mon, ms[0]), ms[1]);
      }
    }
  }

  /** wait and exit only take zombies away from the process that runs them. */
  lemma FewerZombies(s: Procs, a: Action)
    requires Sized(s) && At(s, a) && (a.Reap? || (a.ReparentNext? && MonSteps(s, a) != []))
    ensures HasZombie(Data(s, a), a.p) ==> HasZombie(s, a.p)
    ensures a.Reap? ==> HasZombie(s, a.p)
  {
    if a.Reap? {
      assert ZombieChild(s, a.p, a.child);
    } else if HasZombie(Data(s, a), a.p) {
      var q: nat :| ZombieChild(Data(s, a), a.p, q);
      assert ZombieChild(s, a.p, q);
    }
  }

  lemma WaiterKept(s: Procs, a: Action)
    requires WaitInv(s) && Can(s, a) && !Exiting(a)
    ensures Sized(Do(s, a)) && ProcOk(Do(s, a), a.p)
  {
    hide HasZombie;
    assert ProcOk(s, a.p) && SleeperOk(s.mon, a.p) && CondOk(s, a.p);
    if a.Reap? {
      FewerZombies(s, a);
    }
  }

  lemma ExiterKept(s: Procs, a: Action)
    requires WaitInv(s) && Can(s, a) && Exiting(a)
    ensures Sized(Do(s, a)) && ProcOk(Do(s, a), a.p)
  {
    hide HasZombie;
    assert ProcOk(s, a.p) && SleeperOk(s.mon, a.p) && CondOk(s, a.p);
    if a.ReparentNext? && MonSteps(s, a) != [] {
      FewerZombies(s, a);
    }
  }

  lemma OthersKept(s: Procs, a: Action, q: nat)
    requires WaitInv(s) && Can(s, a) && q < |s.ctl| && q != a.p && !Exiting(a)
    ensures Sized(Do(s, a)) && ProcOk(Do(s, a), q)
  {
    hide HasZombie;
    assert ProcOk(s, q) && ProcOk(s, a.p) && SleeperOk(s.mon, q) && SleeperOk(s.mon, a.p);
  }

  lemma OthersKeptByExit(s: Procs, a: Action, q: nat)
    requires WaitInv(s) && Can(s, a) && q < |s.ctl| && q != a.p && Exiting(a)
    ensures Sized(Do(s, a)) && ProcOk(Do(s, a), q)
  {
    hide HasZombie;
    assert ProcOk(s, q) && ProcOk(s, a.p) && SleeperOk(s.mon, q) && SleeperOk(s.mon, a.p);
  }

  lemma ActionKeepsInv(s: Procs, a: Action)
    requires WaitInv(s) && Can(s, a)
    ensures WaitInv(Do(s, a))
  {
    var t := Do(s, a);
    ActionKeepsMon(s, a);
    forall c: nat ensures CondOk(t, c) {
      if Exiting(a) {
        ExitKeepsCond(s, a, c);
      } else {
        WaitKeepsCond(s, a, c);
      }
    }
    forall q: nat | q < |t.ctl| ensures ProcOk(t, q) {
      if q == a.p {
        if Exiting(a) {
          ExiterKept(s, a);
        } else {
          WaiterKept(s, a);
        }
      } else if Exiting(a) {
        OthersKeptByExit(s, a, q);
      } else {
        OthersKept(s, a, q);
      }
    }
  }

  ghost predicate Runs(s: Procs, actions: seq<Action>, t: Procs)
    decreases |actions|
  {
    if actions == [] then s == t else Can(s, actions[0]) && Runs(Do(s, actions[0]), actions[1..], t)
  }

  lemma {:induction false} RunsKeepInv(s: Procs, actions: seq<Action>, t: Procs)
    requires WaitInv(s) && Runs(s, actions, t)
    ensures WaitInv(t)
    decreases |actions|
  {
    if actions != [] {
      ActionKeepsInv(s, actions[0]);
      RunsKeepInv(Do(s, actions[0]), actions[1..], t);
    }
  }

  /** Only init exists. */
  ghost predicate Booted(s: Procs) {
    && Sized(s) && Initial(s.mon) && s.mon.cond == {}
    && forall q {:trigger s.ctl[q]} | 0 <= q < |s.ctl| ::
         s.ctl[q] == User && s.life[q] == (if q == INIT then Live else Unused)
  }

  lemma BootedInv(s: Procs)
    requires Booted(s)
    ensures WaitInv(s)
  {
    InitialInv(s.mon);
    forall q: nat | q < |s.ctl| ensures ProcOk(s, q) {
      assert s.ctl[q] == User && s.mon.pc[q] == Out;
    }
    forall d: nat ensures CondOk(s, d) {
      forall q: nat ensures !ZombieChild(s, d, q) {
        if q < |s.ctl| {
          assert s.ctl[q] == User;
        }
      }
    }
  }

  /** In every run of exits, waits and forks: while wait_lock is free, a process that
      has an exited child is not asleep, nor bound to sleep, in wait. */
  lemma WaitSeesExits(s: Procs, actions: seq<Action>, t: Procs, p: nat, c: nat)
    requires Booted(s) && Runs(s, actions, t) && p < |t.mon.pc|
    ensures t.mon.lock == Nobody && HasZombie(t, p) ==> !Sleepy(t.mon.pc[p], c)
  {
    BootedInv(s);
    RunsKeepInv(s, actions, t);
    InvNoneMissed(t.mon);
    assert CondOk(t, p) && ProcOk(t, p);
  }

  // ---------- Who the parent is ----------

  /** A process at this place can still have process `q` as a child. */
  predicate MayHave(c: Ctl, q: nat) {
    match c
    case Reparent(i) => i <= q
    case WakeInit(i, _) => i < q
    case WakeParent(_) => false
    case Dying => false
    case Dead => false
    case Gone => false
    case _ => true
  }

  ghost predicate LifeOk(s: Procs, q: nat)
    requires Sized(s) && q < |s.ctl|
  {
    && (s.ctl[q].Dead? || s.ctl[q].Gone? ==> s.life[q] != Live)
    && (!s.ctl[q].User? && !s.ctl[q].Dead? && !s.ctl[q].Gone? ==> s.life[q] == Live)
    && (q == INIT ==> s.life[q] == Live && MayHave(s.ctl[q], 0) && !s.ctl[q].Reparent?)
  }

  /** Its parent is a live process that has not done with its children. */
  ghost predicate ParentOk(s: Procs, q: nat)
    requires Sized(s) && q < |s.ctl|
  {
    s.parent[q] == NONE
    || (s.parent[q] < |s.ctl| && s.life[s.parent[q]] == Live && MayHave(s.ctl[s.parent[q]], q))
  }

  ghost predicate IsForking(s: Procs, p: nat, q: nat) {
    p < |s.ctl| && s.ctl[p] == Forking(q)
  }

  /** It has a parent, or its forker is about to become that. */
  ghost predicate HasParent(s: Procs, q: nat)
    requires Sized(s) && q < |s.ctl|
  {
    s.life[q] != Unused && q != INIT && s.parent[q] == NONE ==> exists p: nat :: IsForking(s, p, q)
  }

  ghost predicate FamilyOk(s: Procs, q: nat)
    requires Sized(s) && q < |s.ctl|
  {
    LifeOk(s, q) && ParentOk(s, q) && HasParent(s, q)
  }

  ghost predicate FamilyInv(s: Procs) {
    Sized(s) && forall q {:trigger FamilyOk(s, q)} | 0 <= q < |s.ctl| :: FamilyOk(s, q)
  }

  lemma LifeKept(s: Procs, a: Action, q: nat)
    requires FamilyInv(s) && At(s, a) && q < |s.ctl|
    ensures Sized(Data(s, a)) && LifeOk(Data(s, a), q)
  {
    assert FamilyOk(s, q) && FamilyOk(s, a.p);
  }

  lemma ParentKept(s: Procs, a: Action, q: nat)
    requires FamilyInv(s) && At(s, a) && q < |s.ctl|
    ensures Sized(Data(s, a)) && ParentOk(Data(s, a), q)
  {
    assert FamilyOk(s, q) && FamilyOk(s, a.p) && FamilyOk(s, INIT);
    if s.parent[q] < |s.ctl| {
      assert FamilyOk(s, s.parent[q]);
    }
  }

  lemma HasParentKept(s: Procs, a: Action, q: nat)
    requires FamilyInv(s) && At(s, a) && q < |s.ctl|
    ensures Sized(Data(s, a)) && HasParent(Data(s, a), q)
  {
    assert FamilyOk(s, q) && FamilyOk(s, a.p);
    var t := Data(s, a);
    if t.life[q] != Unused && q != INIT && t.parent[q] == NONE {
      if a.Fork? && a.child == q {
        assert IsForking(t, a.p, q);
      } else {
        assert s.parent[q] == NONE && s.life[q] != Unused;
        var p: nat :| IsForking(s, p, q);
        assert FamilyOk(s, p);
        assert IsForking(t, p, q);
      }
    }
  }

  lemma SameFamily(s: Procs, t: Procs, q: nat)
    requires Sized(s) && Sized(t) && t.parent == s.parent && t.life == s.life && t.ctl == s.ctl && q < |s.ctl|
    ensures FamilyOk(s, q) ==> FamilyOk(t, q)
  {
    if p: nat :| IsForking(s, p, q) {
      assert IsForking(t, p, q);
    }
  }

  lemma ActionKeepsFamily(s: Procs, a: Action)
    requires FamilyInv(s) && Can(s, a)
    ensures FamilyInv(Do(s, a))
  {
    hide LifeOk, ParentOk, HasParent, Data, MonSteps;
    var t := Do(s, a);
    forall q: nat | q < |t.ctl| ensures Sized(t) && FamilyOk(t, q) {
      LifeKept(s, a, 0);
      DoSized(s, a);
      LifeKept(s, a, q);
      ParentKept(s, a, q);
      HasParentKept(s, a, q);
      SameFamily(Data(s, a), t, q);
    }
    DoSized(s, a);
  }

  lemma DoSized(s: Procs, a: Action)
    requires Can(s, a)
    ensures Sized(Do(s, a)) && |Do(s, a).ctl| == |s.ctl|
  {
  }

  lemma {:induction false} RunsKeepFamily(s: Procs, actions: seq<Action>, t: Procs)
    requires FamilyInv(s) && Runs(s, actions, t)
    ensures FamilyInv(t)
    decreases |actions|
  {
    if actions != [] {
      ActionKeepsFamily(s, actions[0]);
      RunsKeepFamily(Do(s, actions[0]), actions[1..], t);
    }
  }

  /** In every run: a process that has exited is nobody's parent, and while wait_lock is
      free every process but init, also one that has exited, has a live parent to wait
      for it. */
  lemma LiveParents(s: Procs, actions: seq<Action>, t: Procs, q: nat)
    requires Booted(s) && (forall p | 0 <= p < |s.parent| :: s.parent[p] == NONE) && Runs(s, actions, t) && q < |t.ctl|
    ensures Sized(t) && (t.life[q] != Live ==> q !in t.parent)
    ensures t.mon.lock == Nobody && t.life[q] != Unused && q != INIT ==>
      t.parent[q] < |t.ctl| && t.life[t.parent[q]] == Live
  {
    forall p: nat | p < |s.ctl| ensures FamilyOk(s, p) {
      assert s.ctl[p] == User && s.parent[p] == NONE;
    }
    RunsKeepFamily(s, actions, t);
    BootedInv(s);
    RunsKeepInv(s, actions, t);
    assert FamilyOk(t, q);
    if q in t.parent {
      var r: nat :| r < |t.parent| && t.parent[r] == q;
      assert FamilyOk(t, r);
    }
    if p: nat :| IsForking(t, p, q) {
      assert ProcOk(t, p) && SleeperOk(t.mon, p);
    }
  }

  /** How parents and states change: fork makes a live process and its forker the parent,
      exit makes a zombie after it has handed its children to init, and wait frees the
      child it has found; nothing else changes them. */
  lemma FamilySteps(s: Procs, a: Action, q: nat)
    requires WaitInv(s) && Can(s, a) && q < |s.ctl|
    ensures Sized(Do(s, a))
    ensures Do(s, a).parent[q] ==
      if a.Adopt? && s.ctl[a.p] == Forking(q) then a.p
      else if a.ReparentNext? && s.ctl[a.p] == Reparent(q) && s.parent[q] == a.p then INIT
      else if a.Reap? && a.child == q then NONE
      else s.parent[q]
    ensures Do(s, a).life[q] ==
      if a.Fork? && a.child == q then Live
      else if a.Die? && a.p == q then Zombie
      else if a.Reap? && a.child == q then Unused
      else s.life[q]
    ensures a.Reap? ==> s.parent[a.child] == a.p && s.life[a.child] == Zombie
    ensures a.Die? ==> s.ctl[a.p] == Dying
  {
    assert ProcOk(s, a.p);
  }
}
