/** pipewrite, piperead and pipeclose (kernel/pipe.c) as users of sleep and wakeup: who
    waits for bytes or for room, and who wakes them. */
module PipeSleep {
  import opened Pipe
  import opened SleepWakeup

  /** The channels: readers sleep on &pi->nread, writers on &pi->nwrite. */
  const NREAD: nat := 0
  const NWRITE: nat := 1

  /** Where a process is. */
  datatype Ctl =
    | Idle
    | Writing(put: bool)    // pipewrite: holds pi->lock, at its loop, and has put bytes in since it got it
    | Full(i: nat)          // pipewrite: the pipe is full; in wakeup(&pi->nread), at process i
    | WriterSleeps          // pipewrite: inside sleep(&pi->nwrite, &pi->lock)
    | Reading               // piperead: holds pi->lock, at its first loop
    | ReaderSleeps          // piperead: inside sleep(&pi->nread, &pi->lock)
    | Copying               // piperead: at its second loop
    | Closing(writable: bool)          // pipeclose: holds pi->lock
    | Waking(chan: nat, i: nat)        // in its last wakeup(chan), at process i

  /** `used` is nwrite - nread. */
  datatype Monitor = Monitor(mon: State, used: nat, readopen: bool, writeopen: bool, ctl: seq<Ctl>)

  /** Whether who waits on the channel would go on. */
  predicate Ready(used: nat, readopen: bool, writeopen: bool, chan: nat) {
    || (chan == NREAD && (used != 0 || !writeopen))
    || (chan == NWRITE && (used != PIPESIZE || !readopen))
  }

  predicate Goes(s: Monitor, chan: nat) {
    Ready(s.used, s.readopen, s.writeopen, chan)
  }

  datatype Action =
    | StartWrite(p: nat) | Put(p: nat) | Fill(p: nat) | WakeFull(p: nat) | SleepWriter(p: nat) | StopWrite(p: nat)
    | Quit(p: nat, killed: bool)
    | StartRead(p: nat) | SleepReader(p: nat) | GiveUp(p: nat) | StartCopy(p: nat) | Take(p: nat) | StopRead(p: nat)
    | Doze(p: nat) | SwitchAway(p: nat) | Retry(p: nat)
    | StartClose(p: nat, writable: bool) | Close(p: nat)
    | WakeNext(p: nat) | Finish(p: nat) | KillOne(p: nat)

  predicate At(s: Monitor, a: Action) {
    var p, n := a.p, |s.ctl|;
    p < n &&
    match a
    case StartWrite(_) => s.ctl[p] == Idle
    case Put(_) => s.ctl[p].Writing? && s.readopen && s.used < PIPESIZE
    case Fill(_) => s.ctl[p].Writing? && s.readopen && s.used == PIPESIZE
    case WakeFull(_) => s.ctl[p].Full? && s.ctl[p].i < n
    case SleepWriter(_) => s.ctl[p] == Full(n)
    case StopWrite(_) => s.ctl[p].Writing?
    case Quit(_, killed) => s.ctl[p].Writing? && (!s.readopen || killed)
    case StartRead(_) => s.ctl[p] == Idle
    case SleepReader(_) => s.ctl[p] == Reading && s.used == 0 && s.writeopen
    case GiveUp(_) => s.ctl[p] == Reading && s.used == 0 && s.writeopen
    case StartCopy(_) => s.ctl[p] == Reading && !(s.used == 0 && s.writeopen)
    case Take(_) => s.ctl[p] == Copying && 0 < s.used
    case StopRead(_) => s.ctl[p] == Copying
    case Doze(_) => s.ctl[p].WriterSleeps? || s.ctl[p].ReaderSleeps?
    case SwitchAway(_) => s.ctl[p].WriterSleeps? || s.ctl[p].ReaderSleeps?
    case Retry(_) => s.ctl[p].WriterSleeps? || s.ctl[p].ReaderSleeps?
    case StartClose(_, _) => s.ctl[p] == Idle
    case Close(_) => s.ctl[p].Closing?
    case WakeNext(_) => s.ctl[p].Waking? && s.ctl[p].i < n
    case Finish(_) => s.ctl[p].Waking? && s.ctl[p].i == n
    case KillOne(_) => true
  }

  /** What the action does to the pipe. */
  function Data(s: Monitor, a: Action): Monitor
    requires At(s, a)
  {
    var p := a.p;
    match a
    case StartWrite(_) => s.(ctl := s.ctl[p := Writing(false)])
    case Put(_) => s.(used := s.used + 1, ctl := s.ctl[p := Writing(true)])
    case Fill(_) => s.(ctl := s.ctl[p := Full(0)])
    case WakeFull(_) => s.(ctl := s.ctl[p := Full(s.ctl[p].i + 1)])
    case SleepWriter(_) => s.(ctl := s.ctl[p := WriterSleeps])
    case StopWrite(_) => s.(ctl := s.ctl[p := Waking(NREAD, 0)])
    case Quit(_, _) => s.(ctl := s.ctl[p := Idle])
    case StartRead(_) => s.(ctl := s.ctl[p := Reading])
    case SleepReader(_) => s.(ctl := s.ctl[p := ReaderSleeps])
    case GiveUp(_) => s.(ctl := s.ctl[p := Idle])
    case StartCopy(_) => s.(ctl := s.ctl[p := Copying])
    case Take(_) => s.(used := s.used - 1)
    case StopRead(_) => s.(ctl := s.ctl[p := Waking(NWRITE, 0)])
    case Doze(_) => s
    case SwitchAway(_) => s
    case Retry(_) => s.(ctl := s.ctl[p := if s.ctl[p].WriterSleeps? then Writing(false) else Reading])
    case StartClose(_, writable) => s.(ctl := s.ctl[p := Closing(writable)])
    case Close(_) =>
      if s.ctl[p].writable then s.(writeopen := false, ctl := s.ctl[p := Waking(NREAD, 0)])
      else s.(readopen := false, ctl := s.ctl[p := Waking(NWRITE, 0)])
    case WakeNext(_) => s.(ctl := s.ctl[p := Waking(s.ctl[p].chan, s.ctl[p].i + 1)])
    case Finish(_) => s.(ctl := s.ctl[p := Idle])
    case KillOne(_) => s
  }

  /** ... and to pi->lock, to sleepers and to the conditions. */
  function MonSteps(s: Monitor, a: Action): seq<Step>
    requires At(s, a)
  {
    var p, t := a.p, Data(s, a);
    match a
    case StartWrite(_) => [Acquire(p)]
    case Put(_) => [Set(p, NREAD, Goes(t, NREAD)), Set(p, NWRITE, Goes(t, NWRITE))]
    case Fill(_) => []
    case WakeFull(_) => if s.ctl[p].i != p then [Visit(p, NREAD, s.ctl[p].i)] else []
    case SleepWriter(_) => [Commit(p, NWRITE)]
    case StopWrite(_) => []
    case Quit(_, _) => [Release(p)]
    case StartRead(_) => [Acquire(p)]
    case SleepReader(_) => [Commit(p, NREAD)]
    case GiveUp(_) => [Release(p)]
    case StartCopy(_) => []
    case Take(_) => [Set(p, NREAD, Goes(t, NREAD)), Set(p, NWRITE, Goes(t, NWRITE))]
    case StopRead(_) => []
    case Doze(_) => [Yield(p)]
    case SwitchAway(_) => [Switch(p)]
    case Retry(_) => [Acquire(p)]
    case StartClose(_, _) => [Acquire(p)]
    case Close(_) => [Set(p, NREAD, Goes(t, NREAD)), Set(p, NWRITE, Goes(t, NWRITE))]
    case WakeNext(_) => if s.ctl[p].i != p then [Visit(p, s.ctl[p].chan, s.ctl[p].i)] else []
    case Finish(_) => [Release(p)]
    case KillOne(_) => [Kill(p)]
  }

  predicate Can(s: Monitor, a: Action) {
    At(s, a) && forall i | 0 <= i < |MonSteps(s, a)| :: Enabled(s.mon, MonSteps(s, a)[i])
  }

  function Do(s: Monitor, a: Action): Monitor
    requires Can(s, a)
  {
    var ms := MonSteps(s, a);
    Data(s, a).(mon := if ms == [] then s.mon else if |ms| == 1 then Next(s.mon, ms[0])
      else Next(Next(s.mon, ms[0]), ms[1]))
  }

  // ---------- The invariant ----------

  /** Since the lock was taken no condition but that of `chan` has become true. */
  ghost predicate CalmBut(m: State, chan: nat) {
    forall c | c in m.cond :: c in m.clean || c == chan
  }

  ghost predicate Calm(m: State) {
    m.cond <= m.clean
  }

  ghost predicate Visited(m: State, p: nat, chan: nat, i: nat) {
    i <= |m.pc| && forall r {:trigger (chan, r) in m.passed} | 0 <= r < i && r != p :: (chan, r) in m.passed
  }

  /** The program and the sleep machine agree about process `q`. */
  ghost predicate PlaceOk(m: State, c: Ctl, q: nat)
    requires q < |m.pc|
  {
    match c
    case Idle => m.pc[q] == Out
    case Writing(put) => m.pc[q] == In && CalmBut(m, NREAD) && if put then NREAD in m.cond else Calm(m)
    case Full(i) => m.pc[q] == In && CalmBut(m, NREAD) && Visited(m, q, NREAD, i) && NWRITE !in m.cond
    case WriterSleeps => (Sleepy(m.pc[q], NWRITE) || m.pc[q] == Woken) && (m.pc[q].Committed? ==> Settled(m, q))
    case Reading => m.pc[q] == In && Calm(m)
    case ReaderSleeps => (Sleepy(m.pc[q], NREAD) || m.pc[q] == Woken) && (m.pc[q].Committed? ==> Settled(m, q))
    case Copying => m.pc[q] == In && CalmBut(m, NWRITE)
    case Closing(_) => m.pc[q] == In && Calm(m)
    case Waking(chan, i) => m.pc[q] == In && CalmBut(m, chan) && Visited(m, q, chan, i)
  }

  ghost predicate CondIs(s: Monitor) {
    forall c :: c in s.mon.cond <==> Goes(s, c)
  }

  ghost predicate PipeInv(s: Monitor) {
    && |s.ctl| == |s.mon.pc| && Inv(s.mon) && CondIs(s) && s.used <= PIPESIZE
    && forall q {:trigger PlaceOk(s.mon, s.ctl[q], q)} | 0 <= q < |s.ctl| :: PlaceOk(s.mon, s.ctl[q], q)
  }

  ghost predicate SomeSleeper(m: State, chan: nat) {
    exists q: nat :: q < |m.pc| && Sleepy(m.pc[q], chan)
  }

  /** A writer that has put bytes in since it got the lock finds itself killed and
      leaves without wakeup, while a reader sleeps. */
  ghost predicate Loses(s: Monitor, a: Action)
    requires Can(s, a)
  {
    a.Quit? && s.ctl[a.p] == Writing(true) && SomeSleeper(s.mon, NREAD)
  }

  /** Somebody sleeps, or is bound to sleep, who could go on, and pi->lock is free. */
  ghost predicate LeftAsleep(s: Monitor) {
    s.mon.lock == Nobody && exists q: nat, c: nat :: q < |s.mon.pc| && Sleepy(s.mon.pc[q], c) && Goes(s, c)
  }

  /** The pipe's functions obey the rules of sleep and wakeup, but for such a writer. */
  lemma ActionDisciplined(s: Monitor, a: Action)
    requires PipeInv(s) && Can(s, a) && !(a.Quit? && s.ctl[a.p] == Writing(true))
    ensures forall i | 0 <= i < |MonSteps(s, a)| :: Disciplined(s.mon, MonSteps(s, a)[i])
  {
    assert PlaceOk(s.mon, s.ctl[a.p], a.p) && SleeperOk(s.mon, a.p);
  }

  /** If nobody sleeps on &pi->nread, no wakeup is missed. */
  lemma QuitKeepsMon(s: Monitor, a: Action)
    requires PipeInv(s) && Can(s, a) && a.Quit? && !SomeSleeper(s.mon, NREAD)
    ensures Inv(Do(s, a).mon)
  {
    var t := Do(s, a);
    assert PlaceOk(s.mon, s.ctl[a.p], a.p);
    forall q: nat | q < |t.mon.pc| ensures SleeperOk(t.mon, q) {
      assert SleeperOk(s.mon, q) && !Sleepy(s.mon.pc[q], NREAD);
    }
  }

  lemma ActionKeepsMon(s: Monitor, a: Action)
    requires PipeInv(s) && Can(s, a) && !Loses(s, a)
    ensures Inv(Do(s, a).mon)
  {
    if a.Quit? && s.ctl[a.p] == Writing(true) {
      QuitKeepsMon(s, a);
    } else {
      ActionDisciplined(s, a);
      var ms := MonSteps(s, a);
      if ms != [] {
        StepKeepsInv(s.mon, ms[0]);
        if |ms| == 2 {
          StepKeepsInv(Next(s.mon, ms[0]), ms[1]);
        }
      }
    }
  }

  lemma ActionKeepsCond(s: Monitor, a: Action)
    requires PipeInv(s) && Can(s, a)
    ensures CondIs(Do(s, a)) && Do(s, a).used <= PIPESIZE
  {
  }

  ghost predicate ActorOk(s: Monitor, a: Action)
    requires Can(s, a)
  {
    var t := Do(s, a);
    |t.ctl| == |t.mon.pc| == |s.ctl| && PlaceOk(t.mon, t.ctl[a.p], a.p)
  }

  /** The pipe changes. */
  predicate Changes(a: Action) {
    a.Put? || a.Take? || a.Close?
  }

  lemma ChangerKept(s: Monitor, a: Action)
    requires PipeInv(s) && Can(s, a) && Changes(a)
    ensures ActorOk(s, a)
  {
    assert PlaceOk(s.mon, s.ctl[a.p], a.p);
  }

  lemma VisitorKept(s: Monitor, a: Action)
    requires PipeInv(s) && Can(s, a) && (a.WakeFull? || a.WakeNext?)
    ensures ActorOk(s, a)
  {
    assert PlaceOk(s.mon, s.ctl[a.p], a.p);
  }

  lemma ActorKept(s: Monitor, a: Action)
    requires PipeInv(s) && Can(s, a)
    ensures ActorOk(s, a)
  {
    if Changes(a) {
      ChangerKept(s, a);
    } else if a.WakeFull? || a.WakeNext? {
      VisitorKept(s, a);
    } else {
      assert PlaceOk(s.mon, s.ctl[a.p], a.p);
    }
  }

  lemma OtherKept(s: Monitor, a: Action, q: nat)
    requires PipeInv(s) && Can(s, a) && q < |s.ctl| && q != a.p
    ensures var t := Do(s, a); |t.ctl| == |t.mon.pc| == |s.ctl| && PlaceOk(t.mon, t.ctl[q], q)
  {
    assert PlaceOk(s.mon, s.ctl[q], q);
    OtherMon(s, a, q);
  }

  lemma OtherMon(s: Monitor, a: Action, q: nat)
    requires PipeInv(s) && Can(s, a) && q < |s.ctl| && q != a.p
    ensures var t := Do(s, a).mon;
            && |t.pc| == |s.mon.pc| && (t.pc[q] == s.mon.pc[q] || (s.mon.pc[q].Asleep? && t.pc[q] == Woken))
            && (s.mon.pc[q] == In || s.mon.pc[q].Committed? ==>
                 t.cond == s.mon.cond && t.clean == s.mon.clean && t.passed == s.mon.passed)
  {
    var ms := MonSteps(s, a);
    if ms != [] {
      Bystander(s.mon, ms[0], q);
      if |ms| == 2 {
        StepKeepsInv(s.mon, ms[0]);
        Bystander(Next(s.mon, ms[0]), ms[1], q);
      }
    }
  }

  lemma ActionKeepsInv(s: Monitor, a: Action)
    requires PipeInv(s) && Can(s, a) && !Loses(s, a)
    ensures PipeInv(Do(s, a))
  {
    var t := Do(s, a);
    ActionKeepsMon(s, a);
    ActionKeepsCond(s, a);
    ActorKept(s, a);
    hide Do, PlaceOk;
    forall q: nat | q < |t.ctl| ensures PlaceOk(t.mon, t.ctl[q], q) {
      if q != a.p {
        OtherKept(s, a, q);
      }
    }
  }

  lemma InvNotLeft(s: Monitor)
    requires PipeInv(s)
    ensures !LeftAsleep(s)
  {
    InvNoneMissed(s.mon);
  }

  /** Exactly such a step leaves somebody asleep. */
  lemma LeftByQuit(s: Monitor, a: Action)
    requires PipeInv(s) && Can(s, a)
    ensures LeftAsleep(Do(s, a)) <==> Loses(s, a)
  {
    if Loses(s, a) {
      var t := Do(s, a);
      assert PlaceOk(s.mon, s.ctl[a.p], a.p);
      var q: nat :| q < |s.mon.pc| && Sleepy(s.mon.pc[q], NREAD);
      assert Sleepy(t.mon.pc[q], NREAD) && Goes(t, NREAD);
    } else {
      ActionKeepsInv(s, a);
      InvNotLeft(Do(s, a));
    }
  }

  // ---------- Whole runs ----------

  predicate Runs(s: Monitor, actions: seq<Action>)
    decreases |actions|
  {
    actions == [] || (Can(s, actions[0]) && Runs(Do(s, actions[0]), actions[1..]))
  }

  /** Somebody is left asleep at some point of the run. */
  ghost predicate EverAsleep(s: Monitor, actions: seq<Action>)
    requires Runs(s, actions)
    decreases |actions|
  {
    LeftAsleep(s) || (actions != [] && EverAsleep(Do(s, actions[0]), actions[1..]))
  }

  /** A killed writer leaves that way at some point of the run. */
  ghost predicate EverLoses(s: Monitor, actions: seq<Action>)
    requires Runs(s, actions)
    decreases |actions|
  {
    actions != [] && (Loses(s, actions[0]) || EverLoses(Do(s, actions[0]), actions[1..]))
  }

  lemma {:induction false} LeftExactly(s: Monitor, actions: seq<Action>)
    requires PipeInv(s) && Runs(s, actions)
    ensures EverAsleep(s, actions) <==> EverLoses(s, actions)
    decreases |actions|
  {
    hide LeftAsleep, Loses, PipeInv, Can, Do;
    InvNotLeft(s);
    if actions != [] {
      LeftByQuit(s, actions[0]);
      if !Loses(s, actions[0]) {
        ActionKeepsInv(s, actions[0]);
        LeftExactly(Do(s, actions[0]), actions[1..]);
      }
    }
  }

  /** After pipealloc. */
  ghost predicate Fresh(s: Monitor) {
    && Initial(s.mon) && |s.ctl| == |s.mon.pc| && s.used == 0 && s.readopen && s.writeopen && s.mon.cond == {NWRITE}
    && forall q {:trigger s.ctl[q]} | 0 <= q < |s.ctl| :: s.ctl[q] == Idle
  }

  /** In every run of any number of readers, writers and closers of a pipe, at some point
      somebody is left asleep who could go on if and only if a killed writer leaves at
      some point, without wakeup, after it has put bytes in while a reader sleeps. */
  lemma PipeWakeups(s: Monitor, actions: seq<Action>)
    requires Fresh(s) && Runs(s, actions)
    ensures EverAsleep(s, actions) <==> EverLoses(s, actions)
  {
    InitialInv(s.mon);
    forall q: nat | q < |s.ctl| ensures PlaceOk(s.mon, s.ctl[q], q) {
      assert s.ctl[q] == Idle && s.mon.pc[q] == Out;
    }
    LeftExactly(s, actions);
  }

  lemma OneMore(s: Monitor, a: Action, rest: seq<Action>)
    requires Can(s, a) && Runs(Do(s, a), rest) && EverAsleep(Do(s, a), rest)
    ensures Runs(s, [a] + rest) && EverAsleep(s, [a] + rest)
  {
    assert ([a] + rest)[1..] == rest;
  }

  /** Process 0 puts a byte in, is killed and leaves, while process 1 sleeps. */
  lemma WriterLeaves(s: Monitor)
    requires |s.ctl| == |s.mon.pc| == 2 && s.ctl[0] == Idle && s.mon.pc == [Out, Asleep(NREAD)] && s.mon.lock == Nobody
    requires s.readopen && s.used == 0
    ensures var actions := [StartWrite(0)] + ([Put(0)] + ([Quit(0, true)] + []));
            Runs(s, actions) && EverAsleep(s, actions)
  {
    hide Runs, EverAsleep;
    var s1 := Do(s, StartWrite(0));
    var s2 := Do(s1, Put(0));
    var s3 := Do(s2, Quit(0, true));
    assert Sleepy(s3.mon.pc[1], NREAD) && Goes(s3, NREAD);
    Asleep0(s3);
    OneMore(s2, Quit(0, true), []);
    OneMore(s1, Put(0), [Quit(0, true)] + []);
    OneMore(s, StartWrite(0), [Put(0)] + ([Quit(0, true)] + []));
  }

  lemma Asleep0(s: Monitor)
    requires LeftAsleep(s)
    ensures Runs(s, []) && EverAsleep(s, [])
  {
  }

  const WRITER: seq<Action> := [StartWrite(0)] + ([Put(0)] + ([Quit(0, true)] + []))

  lemma ReaderDozes(s: Monitor)
    requires |s.ctl| == |s.mon.pc| == 2 && s.ctl == [Idle, ReaderSleeps] && s.mon.pc == [Out, Committed(NREAD)]
    requires s.readopen && s.used == 0
    ensures var actions := [Doze(1)] + ([SwitchAway(1)] + WRITER); Runs(s, actions) && EverAsleep(s, actions)
  {
    hide Runs, EverAsleep;
    var s1 := Do(s, Doze(1));
    var s2 := Do(s1, SwitchAway(1));
    WriterLeaves(s2);
    OneMore(s1, SwitchAway(1), WRITER);
    OneMore(s, Doze(1), [SwitchAway(1)] + WRITER);
  }

  /** Such a run: process 1 sleeps on the empty pipe, process 0 puts a byte in, is killed
      and leaves. */
  lemma KilledWriter(s: Monitor)
    requires Fresh(s) && |s.ctl| == 2
    ensures exists actions :: Runs(s, actions) && EverAsleep(s, actions)
  {
    hide Runs, EverAsleep;
    assert s.ctl[0] == s.ctl[1] == Idle && s.mon.pc[0] == s.mon.pc[1] == Out;
    var s1 := Do(s, StartRead(1));
    var s2 := Do(s1, SleepReader(1));
    ReaderDozes(s2);
    OneMore(s1, SleepReader(1), [Doze(1)] + ([SwitchAway(1)] + WRITER));
    OneMore(s, StartRead(1), [SleepReader(1)] + ([Doze(1)] + ([SwitchAway(1)] + WRITER)));
  }

  /** What the steps do to the pipe: a byte goes in or comes out, or an end is closed. */
  lemma PipeChanges(s: Monitor, a: Action)
    requires PipeInv(s) && Can(s, a)
    ensures Do(s, a).used == s.used + (if a.Put? then 1 else 0) - (if a.Take? then 1 else 0) <= PIPESIZE
    ensures Do(s, a).readopen == (s.readopen && !(a.Close? && s.ctl[a.p] == Closing(false)))
    ensures Do(s, a).writeopen == (s.writeopen && !(a.Close? && s.ctl[a.p] == Closing(true)))
    ensures a.SleepReader? ==> s.used == 0 && s.writeopen
    ensures a.SleepWriter? ==> s.used == PIPESIZE && s.readopen
  {
    assert PlaceOk(s.mon, s.ctl[a.p], a.p);
  }
}
