/** sleep and wakeup (kernel/proc.c) as a step machine over one condition lock.

    Channels are numbers; `cond` holds the channels whose condition is true.  A
    process that finds its condition false calls sleep, which takes its own p->lock
    before it gives up the condition lock and keeps it until the scheduler has
    switched away; wakeup takes each p->lock in turn.  Spin locks are acquired and
    released in one step. */
module SleepWakeup {

  /** Where a process is, with respect to the condition lock. */
  datatype Pc =
    | Out                      // not using the lock
    | In                       // holds the lock
    | Committed(chan: nat)     // in sleep: holds the lock and its own p->lock
    | Dozing(chan: nat)        // released the lock, still holds its p->lock
    | Asleep(chan: nat)        // SLEEPING, its p->lock is free
    | Woken                    // RUNNABLE again, to take the lock

  datatype Holder = Nobody | Held(p: nat)

  /** `pc` gives each process's place.  Of the present critical section, `clean` are the
      channels whose condition was true when it began, and `passed` the pairs of a
      channel and a process that wakeup has visited. */
  datatype State = State(pc: seq<Pc>, lock: Holder, cond: set<nat>, clean: set<nat>, passed: set<(nat, nat)>)

  datatype Step =
    | Acquire(p: nat)
    | Set(p: nat, chan: nat, value: bool)    // the condition changes, under the lock
    | Visit(p: nat, chan: nat, q: nat)       // wakeup(chan) looks at process q
    | Commit(p: nat, chan: nat)              // sleep: acquire(&p->lock)
    | Yield(p: nat)                          // sleep: release(lk)
    | Switch(p: nat)                         // the scheduler releases p->lock
    | Release(p: nat)
    | Kill(q: nat)                           // kill wakes a sleeper for no condition

  /** What the locks allow. */
  predicate Enabled(s: State, step: Step) {
    match step
    case Acquire(p) => p < |s.pc| && s.lock == Nobody && (s.pc[p] == Out || s.pc[p] == Woken)
    case Set(p, _, _) => p < |s.pc| && s.pc[p] == In
    case Visit(p, _, q) => p < |s.pc| && s.pc[p] == In && q < |s.pc| && q != p && !s.pc[q].Committed?
      && !s.pc[q].Dozing?
    case Commit(p, _) => p < |s.pc| && s.pc[p] == In
    case Yield(p) => p < |s.pc| && s.pc[p].Committed?
    case Switch(p) => p < |s.pc| && s.pc[p].Dozing?
    case Release(p) => p < |s.pc| && s.pc[p] == In
    case Kill(q) => q < |s.pc| && s.pc[q].Asleep?
  }

  function Next(s: State, step: Step): State
    requires Enabled(s, step)
  {
    match step
    case Acquire(p) => s.(pc := s.pc[p := In], lock := Held(p), clean := s.cond, passed := {})
    case Set(p, chan, value) => s.(cond := if value then s.cond + {chan} else s.cond - {chan})
    case Visit(p, chan, q) =>
      s.(pc := if s.pc[q] == Asleep(chan) then s.pc[q := Woken] else s.pc, passed := s.passed + {(chan, q)})
    case Commit(p, chan) => s.(pc := s.pc[p := Committed(chan)])
    case Yield(p) => s.(pc := s.pc[p := Dozing(s.pc[p].chan)], lock := Nobody)
    case Switch(p) => s.(pc := s.pc[p := Asleep(s.pc[p].chan)])
    case Release(p) => s.(pc := s.pc[p := Out], lock := Nobody)
    case Kill(q) => s.(pc := s.pc[q := Woken])
  }

  /** Each true condition was true when the lock was taken, or wakeup has run over all
      the other processes since. */
  ghost predicate Settled(s: State, p: nat) {
    forall c | c in s.cond :: c in s.clean || Woke(s, p, c)
  }

  ghost predicate Woke(s: State, p: nat, chan: nat) {
    forall q {:trigger (chan, q) in s.passed} | 0 <= q < |s.pc| && q != p :: (chan, q) in s.passed
  }

  /** What the code has to see to: sleep only while the condition is false, and give
      up the lock only when settled. */
  ghost predicate Disciplined(s: State, step: Step) {
    match step
    case Commit(_, chan) => chan !in s.cond
    case Yield(p) => Settled(s, p)
    case Release(p) => Settled(s, p)
    case _ => true
  }

  predicate Sleepy(pc: Pc, chan: nat) {
    pc == Committed(chan) || pc == Dozing(chan) || pc == Asleep(chan)
  }

  /** Nobody sleeps, or is bound to sleep, although the condition is true. */
  ghost predicate NoneMissed(s: State) {
    forall q, c | 0 <= q < |s.pc| && Sleepy(s.pc[q], c) :: c !in s.cond
  }

  /** If process `q` sleeps on `c` while another holds the lock, that one has yet to
      visit it, or the condition was false at the start. */
  ghost predicate SleeperOk(s: State, q: nat)
    requires q < |s.pc|
  {
    match s.pc[q]
    case In => s.lock == Held(q)
    case Committed(c) => s.lock == Held(q) && c !in s.cond
    case Dozing(c) => if s.lock == Nobody then c !in s.cond else s.lock.p != q && c !in s.clean && (c, q) !in s.passed
    case Asleep(c) => if s.lock == Nobody then c !in s.cond else s.lock.p != q && c !in s.clean && (c, q) !in s.passed
    case _ => s.lock != Held(q)
  }

  ghost predicate Inv(s: State) {
    forall q {:trigger s.pc[q]} | 0 <= q < |s.pc| :: SleeperOk(s, q)
  }

  lemma StepKeepsInv(s: State, step: Step)
    requires Inv(s) && Enabled(s, step) && Disciplined(s, step)
    ensures Inv(Next(s, step))
  {
    var t := Next(s, step);
    forall q: nat | q < |t.pc| ensures SleeperOk(t, q) {
      assert SleeperOk(s, q);
      if step.Yield? || step.Release? {
        assert s.pc[step.p].In? || s.pc[step.p].Committed?;
      }
    }
  }

  function Actor(step: Step): nat {
    match step
    case Acquire(p) => p
    case Set(p, _, _) => p
    case Visit(p, _, _) => p
    case Commit(p, _) => p
    case Yield(p) => p
    case Switch(p) => p
    case Release(p) => p
    case Kill(q) => q
  }

  /** What a step of another process does to `q`: it may wake it, and while `q` holds the
      lock it changes nothing. */
  lemma Bystander(s: State, step: Step, q: nat)
    requires Inv(s) && Enabled(s, step) && q < |s.pc| && q != Actor(step)
    ensures var t := Next(s, step);
            && |t.pc| == |s.pc| && (t.pc[q] == s.pc[q] || (s.pc[q].Asleep? && t.pc[q] == Woken))
            && (s.pc[q] == In || s.pc[q].Committed? ==>
                 t.cond == s.cond && t.clean == s.clean && t.passed == s.passed)
  {
    assert SleeperOk(s, q) && SleeperOk(s, Actor(step));
  }

  /** A run of disciplined steps. */
  ghost predicate Run(s: State, steps: seq<Step>, t: State)
    decreases |steps|
  {
    if steps == [] then s == t
    else Enabled(s, steps[0]) && Disciplined(s, steps[0]) && Run(Next(s, steps[0]), steps[1..], t)
  }

  lemma {:induction false} RunKeepsInv(s: State, steps: seq<Step>, t: State)
    requires Inv(s) && Run(s, steps, t)
    ensures Inv(t)
    decreases |steps|
  {
    if steps != [] {
      StepKeepsInv(s, steps[0]);
      RunKeepsInv(Next(s, steps[0]), steps[1..], t);
    }
  }

  /** All processes are outside. */
  ghost predicate Initial(s: State) {
    s.lock == Nobody && forall q {:trigger s.pc[q]} | 0 <= q < |s.pc| :: s.pc[q] == Out
  }

  /** No wakeup is lost: in every state that disciplined steps reach, if the lock is
      free then nobody sleeps, or is bound to sleep, on a channel whose condition is
      true. */
  lemma NoLostWakeup(s: State, steps: seq<Step>, t: State)
    requires Initial(s) && Run(s, steps, t)
    ensures t.lock == Nobody ==> NoneMissed(t)
  {
    InitialInv(s);
    RunKeepsInv(s, steps, t);
    InvNoneMissed(t);
  }

  lemma InitialInv(s: State)
    requires Initial(s)
    ensures Inv(s)
  {
    forall q: nat | q < |s.pc| ensures SleeperOk(s, q) {
      assert s.pc[q] == Out;
    }
  }

  lemma InvNoneMissed(t: State)
    requires Inv(t)
    ensures t.lock == Nobody ==> NoneMissed(t)
  {
    forall q: nat, c: nat | q < |t.pc| && Sleepy(t.pc[q], c) ensures t.lock == Nobody ==> c !in t.cond {
      assert SleeperOk(t, q);
    }
  }

  /** wakeup(chan) by process `p`, from process `k` on. */
  function Visits(p: nat, chan: nat, k: nat, n: nat): seq<Step>
    requires k <= n
    decreases n - k
  {
    if k == n then [] else (if k == p then [] else [Visit(p, chan, k)]) + Visits(p, chan, k + 1, n)
  }

  /** While no other process is on its way to sleep, wakeup wakes all that sleep on the
      channel, and no other. */
  lemma {:induction false} WakesAll(s: State, p: nat, chan: nat, k: nat) returns (t: State)
    requires p < |s.pc| && s.pc[p] == In && k <= |s.pc|
    requires forall q {:trigger s.pc[q]} | 0 <= q < |s.pc| :: !s.pc[q].Committed? && !s.pc[q].Dozing?
    ensures Run(s, Visits(p, chan, k, |s.pc|), t)
    ensures |t.pc| == |s.pc| && t == s.(pc := t.pc, passed := t.passed)
    ensures forall q {:trigger t.pc[q]} | 0 <= q < |s.pc| ::
      t.pc[q] == if k <= q && q != p && s.pc[q] == Asleep(chan) then Woken else s.pc[q]
    decreases |s.pc| - k
  {
    var n := |s.pc|;
    if k == n {
      t := s;
    } else if k == p {
      t := WakesAll(s, p, chan, k + 1);
      assert Visits(p, chan, k, n) == Visits(p, chan, k + 1, n);
    } else {
      var u := Next(s, Visit(p, chan, k));
      t := WakesAll(u, p, chan, k + 1);
      assert Visits(p, chan, k, n)[1..] == Visits(p, chan, k + 1, n);
    }
  }
}
