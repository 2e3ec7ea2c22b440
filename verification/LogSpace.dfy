/** Log space reservation (kernel/log.c): begin_op reserves MAXOPBLOCKS blocks per
    operation, log_write consumes them and panics when the log is full. */
module LogSpace {
  import opened LogFormat
  import opened Arithmetic

  /** The distinct blocks in the header, and for each outstanding operation the
      distinct blocks it has logged. */
  datatype Space = Space(logged: set<nat>, wrote: map<nat, set<nat>>)

  datatype Step = Begin(op: nat) | Write(op: nat, b: nat) | End(op: nat)

  /** Entries the log that mkfs lays out can hold: sb.nlog is LOGSIZE, header included. */
  const CAPACITY: nat := LOGSIZE - 1

  const Empty := Space({}, map[])

  predicate Admits(s: Space) {
    |s.logged| + (|s.wrote| + 1) * MAXOPBLOCKS <= LOGSIZE
  }

  /** log_write's guard, which comes before the search for an absorbable entry. */
  predicate Panics(cap: nat, s: Space, step: Step) {
    step.Write? && step.op in s.wrote && cap <= |s.logged|
  }

  /** A step that does not panic.  A begin_op that must sleep changes nothing. */
  function Next(s: Space, step: Step): Space {
    match step
    case Begin(op) => if op !in s.wrote && Admits(s) then s.(wrote := s.wrote[op := {}]) else s
    case Write(op, b) =>
      if op in s.wrote then Space(s.logged + {b}, s.wrote[op := s.wrote[op] + {b}]) else s
    case End(op) =>
      var wrote := s.wrote - {op};
      if op !in s.wrote then s
      else if wrote == map[] then Empty   // the last end_op commits the group
      else s.(wrote := wrote)
  }

  /** No operation logs more than `u` distinct blocks. */
  predicate Within(u: nat, s: Space, step: Step) {
    step.Write? && step.op in s.wrote ==> |s.wrote[step.op] + {step.b}| <= u
  }

  /** Some run in which every operation keeps to `u` blocks panics. */
  predicate CanPanic(cap: nat, u: nat, s: Space, steps: seq<Step>)
    decreases |steps|
  {
    && steps != []
    && Within(u, s, steps[0])
    && (Panics(cap, s, steps[0]) || CanPanic(cap, u, Next(s, steps[0]), steps[1..]))
  }

  /** Reserved blocks not yet used. */
  ghost function Spare(u: nat, wrote: map<nat, set<nat>>): int {
    if wrote == map[] then 0
    else var op :| op in wrote; u - |wrote[op]| + Spare(u, wrote - {op})
  }

  lemma {:induction false} SpareSplit(u: nat, wrote: map<nat, set<nat>>, op: nat)
    requires op in wrote
    ensures Spare(u, wrote) == u - |wrote[op]| + Spare(u, wrote - {op})
    decreases |wrote|
  {
    var p :| p in wrote && Spare(u, wrote) == u - |wrote[p]| + Spare(u, wrote - {p});
    if p != op {
      SpareSplit(u, wrote - {p}, op);
      assert wrote - {p} - {op} == wrote - {op} - {p};
      SpareSplit(u, wrote - {op}, p);
    }
  }

  lemma {:induction false} SpareBounds(u: nat, wrote: map<nat, set<nat>>)
    requires forall op :: op in wrote ==> |wrote[op]| <= u
    ensures 0 <= Spare(u, wrote) <= u * |wrote|
    decreases |wrote|
  {
    if wrote != map[] {
      var op :| op in wrote;
      SpareSplit(u, wrote, op);
      SpareBounds(u, wrote - {op});
      assert |wrote - {op}| == |wrote| - 1;
      assert u * (|wrote| - 1) + u == u * |wrote|;
    }
  }

  /** The header plus everything still reserved stays within `10 + 2u` blocks. */
  ghost predicate Inv(u: nat, s: Space) {
    && (s.wrote == map[] ==> s.logged == {})
    && (forall op :: op in s.wrote ==> s.wrote[op] <= s.logged && |s.wrote[op]| <= u)
    && |s.logged| + Spare(u, s.wrote) <= MAXOPBLOCKS + 2 * u
  }

  /** What begin_op's guard leaves for `out` operations and one more. */
  lemma Admitted(u: nat, n: nat, out: nat, spare: int)
    requires u <= 10 && n + (out + 1) * 10 <= 30 && spare <= u * out && (out == 0 ==> n == 0)
    ensures n + spare + u <= 10 + 2 * u
  {
    if out == 1 {
      assert u * out == u;
    } else if out == 2 {
      assert u * out == 2 * u;
    }
  }

  lemma BeginKeeps(u: nat, s: Space, op: nat)
    requires u <= MAXOPBLOCKS && Inv(u, s)
    ensures Inv(u, Next(s, Begin(op)))
  {
    if op !in s.wrote && Admits(s) {
      var wrote := s.wrote[op := {}];
      assert wrote - {op} == s.wrote;
      SpareSplit(u, wrote, op);
      SpareBounds(u, s.wrote);
      Admitted(u, |s.logged|, |s.wrote|, Spare(u, s.wrote));
    }
  }

  lemma WriteKeeps(u: nat, s: Space, op: nat, b: nat)
    requires Inv(u, s) && Within(u, s, Write(op, b))
    ensures Inv(u, Next(s, Write(op, b)))
  {
    if op in s.wrote {
      var wrote := s.wrote[op := s.wrote[op] + {b}];
      assert op in wrote && wrote - {op} == s.wrote - {op};
      if b in s.logged {
        assert s.logged + {b} == s.logged;
        assert s.wrote[op] <= s.wrote[op] + {b};
        SubsetSize(s.wrote[op], s.wrote[op] + {b});
      }
      SpareSplit(u, wrote, op);
      SpareSplit(u, s.wrote, op);
    }
  }

  lemma EndKeeps(u: nat, s: Space, op: nat)
    requires Inv(u, s)
    ensures Inv(u, Next(s, End(op)))
  {
    if op in s.wrote {
      SpareSplit(u, s.wrote, op);
    }
  }

  lemma StepKeeps(u: nat, s: Space, step: Step)
    requires u <= MAXOPBLOCKS && Inv(u, s) && Within(u, s, step)
    ensures Inv(u, Next(s, step))
  {
    match step
    case Begin(op) => BeginKeeps(u, s, op);
    case Write(op, b) => WriteKeeps(u, s, op, b);
    case End(op) => EndKeeps(u, s, op);
  }

  function Run(s: Space, steps: seq<Step>): Space
    decreases |steps|
  {
    if steps == [] then s else Run(Next(s, steps[0]), steps[1..])
  }

  predicate AllWithin(u: nat, s: Space, steps: seq<Step>)
    decreases |steps|
  {
    steps == [] || (Within(u, s, steps[0]) && AllWithin(u, Next(s, steps[0]), steps[1..]))
  }

  lemma {:induction false} RunKeeps(u: nat, s: Space, steps: seq<Step>)
    requires u <= MAXOPBLOCKS && Inv(u, s) && AllWithin(u, s, steps)
    ensures Inv(u, Run(s, steps))
    decreases |steps|
  {
    if steps != [] {
      StepKeeps(u, s, steps[0]);
      RunKeeps(u, Next(s, steps[0]), steps[1..]);
    }
  }

  /** Reservation over whole runs: the header and everything still reserved fit in
      10 + 2u blocks, which at u == MAXOPBLOCKS is LOGSIZE. */
  lemma ReservationBound(u: nat, steps: seq<Step>)
    requires u <= MAXOPBLOCKS && AllWithin(u, Empty, steps)
    ensures var s := Run(Empty, steps);
            |s.logged| <= |s.logged| + Spare(u, s.wrote) <= MAXOPBLOCKS + 2 * u <= LOGSIZE
  {
    RunKeeps(u, Empty, steps);
    SpareBounds(u, Run(Empty, steps).wrote);
  }

  lemma {:induction false} SafeRuns(cap: nat, u: nat, s: Space, steps: seq<Step>)
    requires u <= MAXOPBLOCKS && MAXOPBLOCKS + 2 * u < cap && Inv(u, s)
    ensures !CanPanic(cap, u, s, steps)
    decreases |steps|
  {
    if steps != [] && Within(u, s, steps[0]) {
      SpareBounds(u, s.wrote);
      StepKeeps(u, s, steps[0]);
      SafeRuns(cap, u, Next(s, steps[0]), steps[1..]);
    }
  }

  // ---------- Three operations of MAXOPBLOCKS blocks each ----------

  predicate AtLeast(i: nat, lo: nat) {
    lo <= i
  }

  function Interval(lo: nat, hi: nat): set<nat> {
    set i: nat | i < hi && AtLeast(i, lo)
  }

  lemma {:induction false} IntervalSize(lo: nat, hi: nat)
    requires lo <= hi
    ensures |Interval(lo, hi)| == hi - lo
    decreases hi - lo
  {
    if lo < hi {
      IntervalSize(lo, hi - 1);
      assert Interval(lo, hi) == Interval(lo, hi - 1) + {hi - 1};
    }
  }

  function Clamp(k: nat, lo: nat): nat {
    if k < lo then lo else if k < lo + MAXOPBLOCKS then k else lo + MAXOPBLOCKS
  }

  /** Operations 0, 1 and 2 have logged the blocks below `k`, ten each in turn. */
  ghost predicate Filled(s: Space, k: nat) {
    && s.logged == Interval(0, k)
    && s.wrote.Keys == {0, 1, 2}
    && forall j: nat :: j in s.wrote ==> s.wrote[j] == Interval(MAXOPBLOCKS * j, Clamp(k, MAXOPBLOCKS * j))
  }

  function Fill(k: nat): seq<Step>
    decreases LOGSIZE - k
  {
    if k < LOGSIZE then [Write(k / MAXOPBLOCKS, k)] + Fill(k + 1) else []
  }

  lemma FillStep(s: Space, k: nat, op: nat)
    requires Filled(s, k) && k < LOGSIZE && op == k / MAXOPBLOCKS
    ensures op in s.wrote && s.wrote[op] + {k} == Interval(MAXOPBLOCKS * op, k + 1)
      && Filled(Next(s, Write(op, k)), k + 1)
  {
    var t := Next(s, Write(op, k));
    assert s.wrote[op] + {k} == Interval(MAXOPBLOCKS * op, k + 1);
    assert t.logged == Interval(0, k + 1);
    forall j: nat | j in t.wrote
      ensures t.wrote[j] == Interval(MAXOPBLOCKS * j, Clamp(k + 1, MAXOPBLOCKS * j))
    {
      if j != op {
        assert Clamp(k + 1, MAXOPBLOCKS * j) == Clamp(k, MAXOPBLOCKS * j);
      }
    }
  }

  lemma {:induction false} FillPanics(cap: nat, u: nat, s: Space, k: nat)
    requires MAXOPBLOCKS <= u && cap < LOGSIZE && k <= cap && Filled(s, k)
    ensures CanPanic(cap, u, s, Fill(k))
    decreases LOGSIZE - k
  {
    var op := k / MAXOPBLOCKS;
    IntervalSize(0, k);
    IntervalSize(MAXOPBLOCKS * op, k + 1);
    FillStep(s, k, op);
    if k < cap {
      assert Fill(k)[1..] == Fill(k + 1);
      FillPanics(cap, u, Next(s, Write(op, k)), k + 1);
    }
  }

  lemma MaximalOperationsPanic(u: nat)
    requires MAXOPBLOCKS <= u
    ensures CanPanic(CAPACITY, u, Empty, [Begin(0), Begin(1), Begin(2)] + Fill(0))
  {
    var s1 := Next(Empty, Begin(0));
    var s2 := Next(s1, Begin(1));
    var s3 := Next(s2, Begin(2));
    var steps := [Begin(0), Begin(1), Begin(2)] + Fill(0);
    assert s3.wrote == map[0 := {}, 1 := {}, 2 := {}];
    assert steps[1..][1..][1..] == Fill(0);
    FillPanics(CAPACITY, u, s3, 0);
    assert CanPanic(CAPACITY, u, s2, steps[1..][1..]);
    assert CanPanic(CAPACITY, u, s1, steps[1..]);
  }

  ghost predicate SomeRunPanics(cap: nat, u: nat, s: Space) {
    exists steps :: CanPanic(cap, u, s, steps)
  }

  /** log_write can panic exactly when operations may use up their reservation: a
      bound of 9 distinct blocks per operation is safe, and MAXOPBLOCKS itself is
      not. */
  lemma PanicIff(u: nat)
    ensures SomeRunPanics(CAPACITY, u, Empty) <==> MAXOPBLOCKS <= u
  {
    if u < MAXOPBLOCKS {
      forall steps ensures !CanPanic(CAPACITY, u, Empty, steps) {
        SafeRuns(CAPACITY, u, Empty, steps);
      }
    } else {
      MaximalOperationsPanic(u);
    }
  }
}
