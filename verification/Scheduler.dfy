/** The per-CPU schedulers (kernel/proc.c scheduler, sched, yield, and what sleep,
    exit, wait, wakeup and fork do to p->state) as a step machine.  p->lock is taken
    and released in single steps; swtch is a step; `now` counts the true ticks, of
    which the kernel keeps the low 32 bits. */
module Scheduler {
  import opened Arithmetic

  datatype Option<T> = None | Some(value: T)

  datatype PState = UNUSED | USED | SLEEPING | RUNNABLE | RUNNING | ZOMBIE

  /** p->type; a value that is none of the three is never chosen. */
  datatype Kind = DEFAULT | CPU_BOUND | IO_BOUND | OTHER

  datatype LockHolder = Nobody | Cpu(c: nat)

  /** `tempo` is tempo_total.  `incarnation` counts how often the slot has been given
      out, `ran` the true ticks that came while some CPU had its present process as
      c->proc, and `on` is the CPU that last ran it. */
  datatype Proc = Proc(state: PState, kind: Kind, lock: LockHolder, tempo: nat, incarnation: nat, ran: nat, on: nat)

  /** Where a CPU's scheduler is. */
  datatype Place =
    | Scan(k: nat, cpu: Option<nat>, io: Option<nat>, other: Option<nat>)
    | Chosen(p: nat)                   // about to acquire run_proc->lock
    | Test(p: nat)                     // holds it, at the loop test
    | On(p: nat, start: nat, g: nat)   // incarnation g of p runs on this CPU since tick `start`
    | Back(p: nat, start: nat, g: nat) // sched has switched back, with p->lock held

  /** `proc` is c->proc; `charged` is the sum of what this CPU added to tempo_total. */
  datatype CpuState = CpuState(place: Place, proc: Option<nat>, charged: nat)

  datatype System = System(procs: seq<Proc>, cpus: seq<CpuState>, now: nat)

  datatype Step =
    | Tick
    | Look(c: nat)             // one turn of the scan
    | Choose(c: nat)           // IO_BOUND first, then CPU_BOUND, then DEFAULT
    | Take(c: nat)             // acquire(&run_proc->lock)
    | Dispatch(c: nat)         // the loop test and the switch to the process
    | Unlock(c: nat)           // the process running on c releases its p->lock
    | Lock(c: nat)             // ... or takes it
    | Switch(c: nat, to: PState)   // yield, sleep or exit sets the state and calls sched
    | Charge(c: nat)           // back in the scheduler
    | Wake(p: nat) | Alloc(p: nat) | Start(p: nat) | Reap(p: nat)   // others, under p->lock
    | SetKind(p: nat, kind: Kind)

  const WORD: nat := 0x1_0000_0000

  predicate Enabled(s: System, step: Step) {
    match step
    case Tick => true
    case Look(c) => c < |s.cpus| && s.cpus[c].place.Scan? && s.cpus[c].place.k < |s.procs|
      && s.procs[s.cpus[c].place.k].lock == Nobody
    case Choose(c) => c < |s.cpus| && s.cpus[c].place.Scan? && s.cpus[c].place.k == |s.procs|
    case Take(c) => c < |s.cpus| && s.cpus[c].place.Chosen? && s.cpus[c].place.p < |s.procs|
      && s.procs[s.cpus[c].place.p].lock == Nobody
    case Dispatch(c) => c < |s.cpus| && s.cpus[c].place.Test? && s.cpus[c].place.p < |s.procs|
    case Unlock(c) => c < |s.cpus| && s.cpus[c].place.On? && s.cpus[c].place.p < |s.procs|
      && s.procs[s.cpus[c].place.p].lock == Cpu(c)
    case Lock(c) => c < |s.cpus| && s.cpus[c].place.On? && s.cpus[c].place.p < |s.procs|
      && s.procs[s.cpus[c].place.p].lock == Nobody
    case Switch(c, to) =>
      && c < |s.cpus| && s.cpus[c].place.On? && s.cpus[c].place.p < |s.procs|
      && s.procs[s.cpus[c].place.p].lock == Cpu(c)
      && (to == RUNNABLE || to == SLEEPING || to == ZOMBIE)
    case Charge(c) => c < |s.cpus| && s.cpus[c].place.Back? && s.cpus[c].place.p < |s.procs|
    case Wake(p) => p < |s.procs| && s.procs[p].lock == Nobody && s.procs[p].state == SLEEPING
    case Alloc(p) => p < |s.procs| && s.procs[p].lock == Nobody && s.procs[p].state == UNUSED
    case Start(p) => p < |s.procs| && s.procs[p].lock == Nobody && s.procs[p].state == USED
    case Reap(p) =>   // wait, or a fork that fails after allocproc
      p < |s.procs| && s.procs[p].lock == Nobody && (s.procs[p].state == ZOMBIE || s.procs[p].state == USED)
    case SetKind(p, _) => p < |s.procs|
  }

  /** The scan keeps the first runnable process of each kind. */
  function Seen(a: Place, p: Proc): Place
    requires a.Scan?
  {
    var next := a.(k := a.k + 1);
    if p.state != RUNNABLE then next
    else if p.kind == CPU_BOUND && a.cpu == None then next.(cpu := Some(a.k))
    else if p.kind == IO_BOUND && a.io == None then next.(io := Some(a.k))
    else if p.kind == DEFAULT && a.other == None then next.(other := Some(a.k))
    else next
  }

  const RESCAN: Place := Scan(0, None, None, None)

  function Pick(a: Place): Place
    requires a.Scan?
  {
    if a.io.Some? then Chosen(a.io.value)
    else if a.cpu.Some? then Chosen(a.cpu.value)
    else if a.other.Some? then Chosen(a.other.value)
    else RESCAN
  }

  function SetCpu(s: System, c: nat, a: CpuState): System
    requires c < |s.cpus|
  {
    s.(cpus := s.cpus[c := a])
  }

  function SetProc(s: System, p: nat, r: Proc): System
    requires p < |s.procs|
  {
    s.(procs := s.procs[p := r])
  }

  /** tempo_final - tempo_inicio, in 32 bits. */
  function Slice(now: nat, start: nat): nat {
    (now % WORD - start % WORD) % WORD
  }

  /** c->proc == p */
  predicate HasProc(s: System, c: nat, p: nat) {
    c < |s.cpus| && s.cpus[c].proc == Some(p)
  }

  ghost predicate OnSomeCpu(s: System, p: nat) {
    exists c: nat :: HasProc(s, c, p)
  }

  /** A tick passes, for every process that some CPU has. */
  ghost function Ticked(s: System): System {
    s.(now := s.now + 1,
       procs := seq(|s.procs|, p requires 0 <= p < |s.procs| =>
                  s.procs[p].(ran := s.procs[p].ran + if OnSomeCpu(s, p) then 1 else 0)))
  }

  ghost function Next(s: System, step: Step): System
    requires Enabled(s, step)
  {
    match step
    case Tick => Ticked(s)
    case Look(c) => var a := s.cpus[c]; SetCpu(s, c, a.(place := Seen(a.place, s.procs[a.place.k])))
    case Choose(c) => var a := s.cpus[c]; SetCpu(s, c, a.(place := Pick(a.place)))
    case Take(c) =>
      var a := s.cpus[c];
      SetProc(SetCpu(s, c, a.(place := Test(a.place.p))), a.place.p, s.procs[a.place.p].(lock := Cpu(c)))
    case Dispatch(c) =>
      var a := s.cpus[c]; var p := a.place.p; var r := s.procs[p];
      if r.state == RUNNABLE
      then SetProc(SetCpu(s, c, a.(place := On(p, s.now, r.incarnation), proc := Some(p))), p,
        r.(state := RUNNING, on := c))
      else SetProc(SetCpu(s, c, a.(place := RESCAN)), p, r.(lock := Nobody))
    case Unlock(c) => var p := s.cpus[c].place.p; SetProc(s, p, s.procs[p].(lock := Nobody))
    case Lock(c) => var p := s.cpus[c].place.p; SetProc(s, p, s.procs[p].(lock := Cpu(c)))
    case Switch(c, to) =>
      var a := s.cpus[c]; var p := a.place.p;
      SetProc(SetCpu(s, c, a.(place := Back(p, a.place.start, a.place.g))), p, s.procs[p].(state := to))
    case Charge(c) =>
      var a := s.cpus[c]; var p := a.place.p; var r := s.procs[p]; var n := Slice(s.now, a.place.start);
      SetProc(SetCpu(s, c, CpuState(Test(p), None, a.charged + n)), p, r.(tempo := (r.tempo + n) % WORD))
    case Wake(p) => SetProc(s, p, s.procs[p].(state := RUNNABLE))
    case Alloc(p) => SetProc(s, p,
      s.procs[p].(state := USED, kind := DEFAULT, tempo := 0, incarnation := s.procs[p].incarnation + 1, ran := 0))
    case Start(p) => SetProc(s, p, s.procs[p].(state := RUNNABLE))
    case Reap(p) => SetProc(s, p, s.procs[p].(state := UNUSED))
    case SetKind(p, kind) => SetProc(s, p, s.procs[p].(kind := kind))
  }

  // ---------- The invariant ----------

  ghost predicate CpuOk(s: System, c: nat)
    requires c < |s.cpus|
  {
    var a := s.cpus[c];
    match a.place
    case Scan(k, x, y, z) =>
      && a.proc == None && k <= |s.procs| && a.charged <= s.now
      && (x.Some? ==> x.value < k) && (y.Some? ==> y.value < k) && (z.Some? ==> z.value < k)
    case Chosen(p) => a.proc == None && p < |s.procs| && a.charged <= s.now
    case Test(p) => a.proc == None && p < |s.procs| && s.procs[p].lock == Cpu(c) && a.charged <= s.now
    case On(p, start, g) =>
      && a.proc == Some(p) && p < |s.procs| && s.procs[p].state == RUNNING && s.procs[p].on == c
      && s.procs[p].incarnation == g
      && a.charged <= start <= s.now
    case Back(p, start, g) =>
      && a.proc == Some(p) && p < |s.procs| && s.procs[p].state != RUNNING && s.procs[p].on == c
      && s.procs[p].incarnation == g
      && a.charged <= start <= s.now && s.procs[p].lock == Cpu(c)
  }

  /** Process `p` is RUNNING on some CPU, or its p->lock is held by a CPU that is at it. */
  ghost predicate ProcOk(s: System, p: nat)
    requires p < |s.procs|
  {
    var r := s.procs[p];
    && (r.state == RUNNING ==> r.on < |s.cpus| && s.cpus[r.on].place.On? && s.cpus[r.on].place.p == p)
    && (r.lock != Nobody ==> r.lock.c < |s.cpus| && AtProc(s.cpus[r.lock.c].place, p))
  }

  /** tempo_total is the time that `p` has run, in 32 bits, but for a slice that is not
      over. */
  ghost predicate TimeOk(s: System, p: nat)
    requires p < |s.procs|
  {
    var r := s.procs[p];
    if !HasProc(s, r.on, p) then r.tempo == r.ran % WORD
    else
      var a := s.cpus[r.on].place;
      (a.On? || a.Back?) && a.start <= s.now <= a.start + r.ran && r.tempo == (r.ran - (s.now - a.start)) % WORD
  }

  predicate AtProc(a: Place, p: nat) {
    (a.Test? || a.On? || a.Back?) && a.p == p
  }

  ghost predicate Inv(s: System) {
    && (forall c {:trigger s.cpus[c]} | 0 <= c < |s.cpus| :: CpuOk(s, c))
    && (forall p {:trigger s.procs[p]} | 0 <= p < |s.procs| :: ProcOk(s, p))
    && (forall p {:trigger TimeOk(s, p)} | 0 <= p < |s.procs| :: TimeOk(s, p))
  }

  /** A slice is at most the true time, and the same in the low 32 bits. */
  lemma SliceIs(now: nat, start: nat, ran: nat)
    requires start <= now
    ensures Slice(now, start) <= now - start && (ran % WORD + Slice(now, start)) % WORD == (ran + (now - start)) % WORD
  {
    var d := now - start;
    assert now % WORD - start % WORD == d + WORD * (start / WORD - now / WORD);
    AddMultiple(d, start / WORD - now / WORD, WORD);
    AddMultiple(ran % WORD + d, ran / WORD, WORD);
    AddMultiple(ran % WORD + d % WORD, d / WORD, WORD);
    assert ran + d == ran % WORD + d + WORD * (ran / WORD);
    assert ran % WORD + d == ran % WORD + d % WORD + WORD * (d / WORD);
  }

  /** A step of CPU `c`'s scheduler or of the process that runs there. */
  predicate ByCpu(step: Step, c: nat) {
    match step
    case Look(d) => d == c
    case Choose(d) => d == c
    case Take(d) => d == c
    case Dispatch(d) => d == c
    case Unlock(d) => d == c
    case Lock(d) => d == c
    case Switch(d, _) => d == c
    case Charge(d) => d == c
    case _ => false
  }

  /** Steps of some CPU; the others are Tick and what is done under p->lock elsewhere. */
  predicate OfCpu(step: Step) {
    !step.Tick? && !step.Wake? && !step.Alloc? && !step.Start? && !step.Reap? && !step.SetKind?
  }

  lemma StepKeepsCpu(s: System, step: Step, c: nat)
    requires Inv(s) && Enabled(s, step) && c < |s.cpus| && ByCpu(step, c)
    ensures |Next(s, step).cpus| == |s.cpus| && CpuOk(Next(s, step), c)
  {
    hide Slice;
    assert CpuOk(s, c);
    if step.Charge? {
      SliceIs(s.now, s.cpus[c].place.start, 0);
    }
    if s.cpus[c].place.Test? || s.cpus[c].place.On? || s.cpus[c].place.Back? {
      assert ProcOk(s, s.cpus[c].place.p);
    }
  }

  lemma StepKeepsOtherCpu(s: System, step: Step, c: nat)
    requires Inv(s) && Enabled(s, step) && c < |s.cpus| && !ByCpu(step, c)
    ensures |Next(s, step).cpus| == |s.cpus| && CpuOk(Next(s, step), c)
  {
    hide Slice, Seen, Pick;
    assert CpuOk(s, c);
    if OfCpu(step) {
      assert CpuOk(s, step.c);
    }
    if s.cpus[c].place.Test? || s.cpus[c].place.On? || s.cpus[c].place.Back? {
      assert ProcOk(s, s.cpus[c].place.p);
    }
  }

  lemma StepKeepsProc(s: System, step: Step, p: nat)
    requires Inv(s) && Enabled(s, step) && p < |s.procs|
    ensures |Next(s, step).procs| == |s.procs| && ProcOk(Next(s, step), p)
  {
    hide Slice, Seen, Pick, TimeOk;
    assert ProcOk(s, p);
    if OfCpu(step) {
      assert CpuOk(s, step.c);
    }
    if s.procs[p].lock != Nobody {
      assert CpuOk(s, s.procs[p].lock.c);
    }
  }

  /** The CPU that has `p` is the one that last ran it. */
  lemma HasProcOn(s: System, c: nat, p: nat)
    requires Inv(s) && HasProc(s, c, p)
    ensures p < |s.procs| && c == s.procs[p].on && (s.cpus[c].place.On? || s.cpus[c].place.Back?)
      && s.cpus[c].place.p == p
    ensures s.procs[p].state == RUNNING || s.procs[p].lock == Cpu(c)
  {
    assert CpuOk(s, c);
  }

  lemma TickKeepsTime(s: System, p: nat)
    requires Inv(s) && p < |s.procs|
    ensures TimeOk(Ticked(s), p)
  {
    var t := Ticked(s);
    assert TimeOk(s, p) && t.procs[p].on == s.procs[p].on;
    if c: nat :| HasProc(s, c, p) {
      HasProcOn(s, c, p);
    }
  }

  /** The slice that is over goes to tempo_total. */
  lemma ChargeKeepsTime(s: System, c: nat)
    requires Inv(s) && Enabled(s, Charge(c))
    ensures var p := s.cpus[c].place.p;
            Next(s, Charge(c)).procs[p].tempo == s.procs[p].ran % WORD && !HasProc(Next(s, Charge(c)), s.procs[p].on, p)
            && s.procs[p].on == c
  {
    var a := s.cpus[c];
    var p := a.place.p;
    assert CpuOk(s, c) && TimeOk(s, p);
    SliceIs(s.now, a.place.start, s.procs[p].ran - (s.now - a.place.start));
  }

  lemma CpuStepKeepsTime(s: System, step: Step, p: nat)
    requires Inv(s) && Enabled(s, step) && p < |s.procs| && OfCpu(step)
    ensures |Next(s, step).procs| == |s.procs| && TimeOk(Next(s, step), p)
  {
    hide Slice, Seen, Pick;
    var at := s.procs[p].on;
    assert TimeOk(s, p) && CpuOk(s, step.c);
    if HasProc(s, at, p) {
      HasProcOn(s, at, p);
    }
    if step.Charge? {
      ChargeKeepsTime(s, step.c);
    } else if step.Dispatch? {
      DispatchKeepsTime(s, step.c, p);
    }
  }

  lemma DispatchKeepsTime(s: System, c: nat, p: nat)
    requires Inv(s) && Enabled(s, Dispatch(c)) && p < |s.procs|
    ensures TimeOk(Next(s, Dispatch(c)), p)
  {
    assert TimeOk(s, p) && CpuOk(s, c);
    if HasProc(s, s.procs[p].on, p) {
      HasProcOn(s, s.procs[p].on, p);
    }
  }

  lemma StepKeepsTime(s: System, step: Step, p: nat)
    requires Inv(s) && Enabled(s, step) && p < |s.procs|
    ensures |Next(s, step).procs| == |s.procs| && TimeOk(Next(s, step), p)
  {
    if OfCpu(step) {
      CpuStepKeepsTime(s, step, p);
    } else if step.Tick? {
      TickKeepsTime(s, p);
    } else {
      assert TimeOk(s, p);
      if HasProc(s, s.procs[p].on, p) {
        HasProcOn(s, s.procs[p].on, p);
      }
    }
  }

  lemma StepKeepsInv(s: System, step: Step)
    requires Inv(s) && Enabled(s, step)
    ensures Inv(Next(s, step))
  {
    var t := Next(s, step);
    hide Next, TimeOk;
    forall c: nat | c < |t.cpus| ensures CpuOk(t, c) {
      if ByCpu(step, c) {
        StepKeepsCpu(s, step, c);
      } else {
        StepKeepsOtherCpu(s, step, c);
      }
    }
    forall p: nat | p < |t.procs| ensures ProcOk(t, p) { StepKeepsProc(s, step, p); }
    forall p: nat | p < |t.procs| ensures TimeOk(t, p) {
      StepKeepsProc(s, step, p);
      StepKeepsTime(s, step, p);
    }
  }

  // ---------- Whole runs ----------

  ghost predicate Booted(s: System) {
    && (forall c {:trigger s.cpus[c]} | 0 <= c < |s.cpus| :: s.cpus[c] == CpuState(RESCAN, None, 0))
    && (forall p {:trigger s.procs[p]} | 0 <= p < |s.procs| ::
          s.procs[p].state == UNUSED && s.procs[p].lock == Nobody && s.procs[p].tempo == 0 == s.procs[p].ran)
  }

  ghost predicate Run(s: System, steps: seq<Step>, t: System)
    decreases |steps|
  {
    if steps == [] then s == t else Enabled(s, steps[0]) && Run(Next(s, steps[0]), steps[1..], t)
  }

  lemma {:induction false} RunKeepsInv(s: System, steps: seq<Step>, t: System)
    requires Inv(s) && Run(s, steps, t)
    ensures Inv(t)
    decreases |steps|
  {
    if steps != [] {
      StepKeepsInv(s, steps[0]);
      RunKeepsInv(Next(s, steps[0]), steps[1..], t);
    }
  }

  lemma BootedInv(s: System)
    requires Booted(s)
    ensures Inv(s)
  {
    forall c: nat | c < |s.cpus| ensures CpuOk(s, c) { assert s.cpus[c] == CpuState(RESCAN, None, 0); }
    forall p: nat | p < |s.procs| ensures ProcOk(s, p) && TimeOk(s, p) {
      assert s.procs[p].state == UNUSED;
      assert s.procs[p].on < |s.cpus| ==> s.cpus[s.procs[p].on] == CpuState(RESCAN, None, 0);
    }
  }

  /** In every run: while p->lock is free, p is RUNNING exactly if some CPU has
      c->proc == p, and two CPUs never have the same process. */
  lemma Exclusive(s: System, steps: seq<Step>, t: System, p: nat)
    requires Booted(s) && Run(s, steps, t) && p < |t.procs|
    ensures t.procs[p].lock == Nobody ==> (t.procs[p].state == RUNNING <==> exists c: nat :: HasProc(t, c, p))
    ensures forall c: nat, d: nat :: HasProc(t, c, p) && HasProc(t, d, p) ==> c == d
  {
    BootedInv(s);
    RunKeepsInv(s, steps, t);
    hide TimeOk;
    assert ProcOk(t, p);
    if t.procs[p].state == RUNNING {
      assert CpuOk(t, t.procs[p].on) && HasProc(t, t.procs[p].on, p);
    }
    forall c: nat, d: nat | HasProc(t, c, p) && HasProc(t, d, p) ensures c == d {
      assert CpuOk(t, c) && CpuOk(t, d);
    }
    forall c: nat | HasProc(t, c, p) && t.procs[p].lock == Nobody ensures t.procs[p].state == RUNNING {
      assert CpuOk(t, c);
    }
  }

  /** In every run: what a CPU has charged never exceeds the ticks that have passed.
      tempo_total is the time that the present process of the slot has run, in 32 bits,
      if no CPU has it; and if CPU `c` has it, then with the slice that is not over. */
  lemma Accounting(s: System, steps: seq<Step>, t: System, c: nat, p: nat)
    requires Booted(s) && Run(s, steps, t) && c < |t.cpus| && p < |t.procs|
    ensures t.cpus[c].charged <= t.now
    ensures !OnSomeCpu(t, p) ==> t.procs[p].tempo == t.procs[p].ran % WORD
    ensures HasProc(t, c, p) ==>
      var a := t.cpus[c].place;
      (a.On? || a.Back?) && a.start <= t.now
        && (t.procs[p].tempo + Slice(t.now, a.start)) % WORD == t.procs[p].ran % WORD
  {
    BootedInv(s);
    RunKeepsInv(s, steps, t);
    assert CpuOk(t, c) && TimeOk(t, p);
    if HasProc(t, c, p) {
      HasProcOn(t, c, p);
      var start := t.cpus[c].place.start;
      SliceIs(t.now, start, t.procs[p].ran - (t.now - start));
    }
  }

  /** In every run: a slice is charged to the process that ran it, whose slot has not
      been given out anew, and by the CPU that still has it as c->proc; then tempo_total
      is all the time that the process has run, in 32 bits. */
  lemma ChargesTheRunner(s: System, steps: seq<Step>, t: System, c: nat)
    requires Booted(s) && Run(s, steps, t) && Enabled(t, Charge(c))
    ensures var a := t.cpus[c];
            && t.procs[a.place.p].incarnation == a.place.g && t.procs[a.place.p].lock == Cpu(c)
            && a.proc == Some(a.place.p)
            && a.place.start <= t.now
            && Next(t, Charge(c)).procs[a.place.p].tempo == t.procs[a.place.p].ran % WORD
  {
    BootedInv(s);
    RunKeepsInv(s, steps, t);
    assert CpuOk(t, c);
    ChargeKeepsTime(t, c);
  }

  // ---------- Which process is chosen ----------

  predicate Ready(p: Proc, kind: Kind) {
    p.state == RUNNABLE && p.kind == kind
  }

  ghost predicate Any(procs: seq<Proc>, kind: Kind) {
    exists p: nat :: p < |procs| && Ready(procs[p], kind)
  }

  /** Process `p` is the first runnable one of its kind in the table. */
  ghost predicate First(procs: seq<Proc>, kind: Kind, p: nat) {
    p < |procs| && Ready(procs[p], kind) && forall q | 0 <= q < p :: !Ready(procs[q], kind)
  }

  /** What the scheduler should choose: I/O-bound processes go before CPU-bound ones, and
      these before the default kind; of a kind the first in the table. */
  ghost predicate Best(procs: seq<Proc>, p: nat) {
    First(procs, if Any(procs, IO_BOUND) then IO_BOUND else if Any(procs, CPU_BOUND) then CPU_BOUND else DEFAULT, p)
  }

  /** No process changes state or kind. */
  ghost predicate Steady(s: System, t: System) {
    |t.procs| == |s.procs|
    && forall p {:trigger t.procs[p]} | 0 <= p < |s.procs| ::
         t.procs[p].state == s.procs[p].state && t.procs[p].kind == s.procs[p].kind
  }

  /** What the scan has found of a kind among the first `k` processes. */
  ghost predicate FoundOk(procs: seq<Proc>, kind: Kind, k: nat, o: Option<nat>) {
    if o.Some? then o.value < k && First(procs, kind, o.value)
    else forall q | 0 <= q < k && q < |procs| :: !Ready(procs[q], kind)
  }

  ghost predicate ScanOk(s: System, c: nat) {
    && c < |s.cpus| && s.cpus[c].place.Scan? && s.cpus[c].place.k <= |s.procs|
    && FoundOk(s.procs, CPU_BOUND, s.cpus[c].place.k, s.cpus[c].place.cpu)
    && FoundOk(s.procs, IO_BOUND, s.cpus[c].place.k, s.cpus[c].place.io)
    && FoundOk(s.procs, DEFAULT, s.cpus[c].place.k, s.cpus[c].place.other)
  }

  lemma SteadyFound(s: System, t: System, kind: Kind, k: nat, o: Option<nat>)
    requires Steady(s, t) && FoundOk(s.procs, kind, k, o)
    ensures FoundOk(t.procs, kind, k, o)
  {
    forall q: nat | q < |s.procs| ensures Ready(t.procs[q], kind) <==> Ready(s.procs[q], kind) {
      assert t.procs[q].state == s.procs[q].state && t.procs[q].kind == s.procs[q].kind;
    }
  }

  lemma LookKeepsScan(s: System, c: nat)
    requires ScanOk(s, c) && Enabled(s, Look(c))
    ensures ScanOk(Next(s, Look(c)), c)
  {
  }

  lemma OtherKeepsScan(s: System, step: Step, c: nat)
    requires ScanOk(s, c) && Enabled(s, step) && !ByCpu(step, c) && Steady(s, Next(s, step))
    ensures ScanOk(Next(s, step), c)
  {
    var t := Next(s, step);
    assert t.cpus[c].place == s.cpus[c].place;
    var a := s.cpus[c].place;
    SteadyFound(s, t, CPU_BOUND, a.k, a.cpu);
    SteadyFound(s, t, IO_BOUND, a.k, a.io);
    SteadyFound(s, t, DEFAULT, a.k, a.other);
  }

  lemma ChoosesBest(s: System, c: nat)
    requires ScanOk(s, c) && Enabled(s, Choose(c))
    ensures var a := Next(s, Choose(c)).cpus[c].place;
            && (a == RESCAN || (a.Chosen? && Best(s.procs, a.p)))
            && (a == RESCAN <==> !Any(s.procs, IO_BOUND) && !Any(s.procs, CPU_BOUND) && !Any(s.procs, DEFAULT))
  {
  }

  /** A run in which no process changes state or kind, and CPU `c` does not choose yet. */
  ghost predicate Scanning(s: System, steps: seq<Step>, c: nat, t: System)
    decreases |steps|
  {
    if steps == [] then s == t
    else && Enabled(s, steps[0]) && steps[0] != Choose(c) && Steady(s, Next(s, steps[0]))
         && Scanning(Next(s, steps[0]), steps[1..], c, t)
  }

  lemma {:induction false} ScanningKeeps(s: System, steps: seq<Step>, c: nat, t: System)
    requires ScanOk(s, c) && Scanning(s, steps, c, t)
    ensures ScanOk(t, c) && Steady(s, t)
    decreases |steps|
  {
    if steps != [] {
      var u := Next(s, steps[0]);
      if ByCpu(steps[0], c) {
        LookKeepsScan(s, c);
      } else {
        OtherKeepsScan(s, steps[0], c);
      }
      ScanningKeeps(u, steps[1..], c, t);
      forall p | 0 <= p < |s.procs| ensures t.procs[p].state == s.procs[p].state && t.procs[p].kind == s.procs[p].kind {
        assert u.procs[p].state == s.procs[p].state;
      }
    }
  }

  /** If no process changes state or kind during a CPU's scan, whatever the other CPUs do
      then, it chooses the best process; and it rescans exactly if no process of the
      three kinds is runnable. */
  lemma ChoiceByPriority(s: System, c: nat, steps: seq<Step>, t: System, u: System)
    requires c < |s.cpus| && s.cpus[c].place == RESCAN && Scanning(s, steps, c, t)
    requires Enabled(t, Choose(c)) && u == Next(t, Choose(c))
    ensures c < |u.cpus| && (u.cpus[c].place == RESCAN || u.cpus[c].place.Chosen?)
    ensures u.cpus[c].place.Chosen? ==> Best(s.procs, u.cpus[c].place.p)
    ensures u.cpus[c].place == RESCAN <==>
      forall p | 0 <= p < |s.procs| :: s.procs[p].state == RUNNABLE ==> s.procs[p].kind == OTHER
  {
    ScanningKeeps(s, steps, c, t);
    ChoosesBest(t, c);
    forall kind, p: nat ensures First(t.procs, kind, p) <==> First(s.procs, kind, p) { SteadyFirst(s, t, kind, p); }
    forall kind ensures Any(t.procs, kind) <==> Any(s.procs, kind) { SteadyAny(s, t, kind); }
  }

  lemma SteadyFirst(s: System, t: System, kind: Kind, p: nat)
    requires Steady(s, t)
    ensures First(t.procs, kind, p) <==> First(s.procs, kind, p)
  {
    forall q: nat | q < |s.procs| ensures Ready(t.procs[q], kind) <==> Ready(s.procs[q], kind) {
      assert t.procs[q].state == s.procs[q].state && t.procs[q].kind == s.procs[q].kind;
    }
  }

  lemma SteadyAny(s: System, t: System, kind: Kind)
    requires Steady(s, t)
    ensures Any(t.procs, kind) <==> Any(s.procs, kind)
  {
    forall q: nat | q < |s.procs| ensures Ready(t.procs[q], kind) <==> Ready(s.procs[q], kind) {
      assert t.procs[q].state == s.procs[q].state && t.procs[q].kind == s.procs[q].kind;
    }
  }

  function Looks(c: nat, n: nat): seq<Step> {
    if n == 0 then [] else [Look(c)] + Looks(c, n - 1)
  }

  ghost predicate LocksFree(s: System) {
    forall p | 0 <= p < |s.procs| :: s.procs[p].lock == Nobody
  }

  lemma {:induction false} LooksRun(s: System, c: nat) returns (t: System)
    requires ScanOk(s, c) && LocksFree(s)
    ensures Scanning(s, Looks(c, |s.procs| - s.cpus[c].place.k), c, t)
    ensures t.procs == s.procs && |t.cpus| == |s.cpus| && t.cpus[c].place.Scan? && t.cpus[c].place.k == |t.procs|
    decreases |s.procs| - s.cpus[c].place.k
  {
    hide FoundOk;
    var n := |s.procs| - s.cpus[c].place.k;
    if n == 0 {
      t := s;
    } else {
      LookKeepsScan(s, c);
      t := LooksRun(Next(s, Look(c)), c);
      assert Looks(c, n)[1..] == Looks(c, n - 1);
    }
  }

  /** A scan that nobody disturbs ends with the best process running on the CPU. */
  lemma RunsBest(s: System, c: nat) returns (t: System, u: System)
    requires c < |s.cpus| && s.cpus[c].place == RESCAN && LocksFree(s)
    requires exists p | 0 <= p < |s.procs| :: s.procs[p].state == RUNNABLE && s.procs[p].kind != OTHER
    ensures Scanning(s, Looks(c, |s.procs|), c, t) && Run(t, [Choose(c), Take(c), Dispatch(c)], u)
    ensures c < |u.cpus| && u.cpus[c].place.On? && Best(s.procs, u.cpus[c].place.p)
    ensures u.cpus[c].proc == Some(u.cpus[c].place.p) && u.cpus[c].place.p < |u.procs|
    ensures u.procs[u.cpus[c].place.p].state == RUNNING
  {
    t := LooksRun(s, c);
    var t1 := Next(t, Choose(c));
    ChoiceByPriority(s, c, Looks(c, |s.procs|), t, t1);
    var t2 := Next(t1, Take(c));
    u := Next(t2, Dispatch(c));
    assert Run(t2, [Dispatch(c)], u);
    assert [Take(c), Dispatch(c)][1..] == [Dispatch(c)];
    assert [Choose(c), Take(c), Dispatch(c)][1..] == [Take(c), Dispatch(c)];
  }

  // ---------- How long it keeps the CPU ----------

  /** CPU `c` is at process `p`, which is runnable unless it runs. */
  ghost predicate AtWork(s: System, c: nat, p: nat) {
    && c < |s.cpus| && p < |s.procs| && AtProc(s.cpus[c].place, p)
    && (s.cpus[c].place.On? || s.procs[p].state == RUNNABLE)
  }

  lemma StaysAtWork(s: System, step: Step, c: nat, p: nat)
    requires Inv(s) && AtWork(s, c, p) && Enabled(s, step)
    requires step.Switch? && step.c == c ==> step.to == RUNNABLE
    ensures AtWork(Next(s, step), c, p)
  {
    hide Slice, TimeOk;
    assert CpuOk(s, c) && ProcOk(s, p);
    if step.Take? || step.Unlock? || step.Lock? || step.Dispatch? || step.Switch? || step.Charge? {
      assert CpuOk(s, step.c);
    }
  }

  /** The loop in the scheduler gives a process that yields its CPU back at once: until
      the process sleeps or exits, the CPU runs no other, of whatever kind. */
  lemma {:induction false} YieldKeepsCpu(s: System, steps: seq<Step>, t: System, c: nat, p: nat)
    requires Inv(s) && AtWork(s, c, p) && Run(s, steps, t)
    requires forall i | 0 <= i < |steps| && steps[i].Switch? && steps[i].c == c :: steps[i].to == RUNNABLE
    ensures AtWork(t, c, p)
    decreases |steps|
  {
    if steps != [] {
      StaysAtWork(s, steps[0], c, p);
      StepKeepsInv(s, steps[0]);
      YieldKeepsCpu(Next(s, steps[0]), steps[1..], t, c, p);
    }
  }

  /** The life of a slot: every change of state is one of these, and so is every change of
      kind; a new process is of the default kind. */
  lemma Lifecycle(s: System, step: Step, p: nat)
    requires Inv(s) && Enabled(s, step) && p < |s.procs|
    ensures p < |Next(s, step).procs|
    ensures var a, b := s.procs[p].state, Next(s, step).procs[p].state;
            || b == a
            || (a == UNUSED && b == USED && step == Alloc(p))
            || (a == USED && b == RUNNABLE && step == Start(p))
            || (a == RUNNABLE && b == RUNNING && step.Dispatch? && s.procs[p].lock == Cpu(step.c))
            || (a == RUNNING && (b == RUNNABLE || b == SLEEPING || b == ZOMBIE) && step.Switch? && step.to == b)
            || (a == SLEEPING && b == RUNNABLE && step == Wake(p))
            || ((a == ZOMBIE || a == USED) && b == UNUSED && step == Reap(p))
    ensures Next(s, step).procs[p].kind == if step == Alloc(p) then DEFAULT
      else if step.SetKind? && step.p == p then step.kind else s.procs[p].kind
    ensures step == Alloc(p) ==> Next(s, step).procs[p].state == USED
    ensures step == Start(p) || step == Wake(p) ==> Next(s, step).procs[p].state == RUNNABLE
    ensures step == Reap(p) ==> Next(s, step).procs[p].state == UNUSED
  {
    hide Slice, TimeOk;
    if step.Dispatch? || step.Switch? {
      assert CpuOk(s, step.c);
    }
  }
}
