/** The queue bookkeeping of the disk driver (kernel/virtio_disk.c) against a device
    that completes requests in any order, as sections 2.6 and 5.2 of Virtio 1.1 allow.
    Each method is one stay inside vdisk_lock, or one action of the device; what
    happens is any sequence of them. */
module VirtQueue {
  import opened Arithmetic

  const NUM: nat := 8
  const WRAP: nat := 0x1_0000   // uint16 indices

  type uint16 = x: int | 0 <= x < 0x1_0000

  /** `more` is VRING_DESC_F_NEXT. */
  datatype Desc = Desc(more: bool, next: nat)

  /** b is 0 if there is none. */
  datatype Info = Info(b: nat, status: nat)

  type Bits = x: seq<bool> | |x| == NUM witness seq(NUM, i => true)
  type Descs = x: seq<Desc> | |x| == NUM witness seq(NUM, i => Desc(false, 0))
  type Infos = x: seq<Info> | |x| == NUM witness seq(NUM, i => Info(0, 0))
  type Ring = x: seq<nat> | |x| == NUM witness seq(NUM, i => 0)

  /** How far a request has come; Queued and Completed say where it is in the rings. */
  datatype Stage = Queued(k: nat) | Fetched | Completed(k: nat) | Done

  /** The three descriptors of a request for buffer `b`. */
  datatype Chain = Chain(i1: nat, i2: nat, b: nat, stage: Stage)

  /** The driver's and the device's memory, with all heads ever made available and all
      ever used, how many of them the device has fetched and the driver has seen, the
      requests in flight by their head descriptor, the request that each busy
      descriptor belongs to, and the request for each busy buffer. */
  datatype Queue = Queue(
    free: Bits, desc: Descs, info: Infos, avail: Ring, used: Ring, busy: map<nat, bool>,
    made: seq<nat>, fetched: nat, done: seq<nat>, seen: nat,
    chains: map<nat, Chain>, owner: map<nat, nat>, request: map<nat, nat>)

  // ---------- Invariant ----------

  ghost predicate Sized(s: Queue) {
    s.fetched <= |s.made| && s.seen <= |s.done|
  }

  /** A request in flight: its descriptors are linked, its own and not free, and its
      buffer is marked busy until the driver has seen the completion. */
  ghost predicate ChainOk(s: Queue, h: nat) {
    h in s.chains ==>
      var c := s.chains[h];
      && h < NUM && c.i1 < NUM && c.i2 < NUM && h != c.i1 && h != c.i2 && c.i1 != c.i2
      && h in s.owner && s.owner[h] == h && c.i1 in s.owner && s.owner[c.i1] == h && c.i2 in s.owner
      && s.owner[c.i2] == h
      && s.desc[h] == Desc(true, c.i1) && s.desc[c.i1] == Desc(true, c.i2) && !s.desc[c.i2].more
      && c.b != 0 && s.info[h].b == c.b && c.b in s.request && s.request[c.b] == h
      && c.b in s.busy && (s.busy[c.b] <==> c.stage != Done)
      && match c.stage
         case Queued(k) => s.fetched <= k < |s.made| && s.made[k] == h
         case Fetched => true
         case Completed(k) => s.seen <= k < |s.done| && s.done[k] == h && s.info[h].status == 0
         case Done => true
  }

  ghost predicate DescOk(s: Queue, i: nat) {
    i < NUM ==>
      && (s.free[i] <==> i !in s.owner)
      && (i in s.owner ==>
           s.owner[i] in s.chains && (i == s.owner[i] || i == s.chains[s.owner[i]].i1 || i == s.chains[s.owner[i]].i2))
  }

  ghost predicate RequestOk(s: Queue, b: nat) {
    b in s.request ==> s.request[b] in s.chains && s.chains[s.request[b]].b == b
  }

  /** What the device has yet to fetch is in the avail ring, at the place that the wrapping
      index says. */
  ghost predicate AvailOk(s: Queue, k: nat) {
    s.fetched <= k < |s.made| ==>
      s.avail[k % NUM] == s.made[k] && s.made[k] in s.chains && s.chains[s.made[k]].stage == Queued(k)
  }

  /** What the driver has yet to see is in the used ring, and names a request whose
      buffer is still busy. */
  ghost predicate UsedOk(s: Queue, k: nat) {
    s.seen <= k < |s.done| ==>
      s.used[k % NUM] == s.done[k] && s.done[k] in s.chains && s.chains[s.done[k]].stage == Completed(k)
  }

  ghost predicate Ok(s: Queue) {
    && Sized(s)
    && (forall h {:trigger ChainOk(s, h)} :: ChainOk(s, h))
    && (forall i {:trigger DescOk(s, i)} :: DescOk(s, i))
    && (forall b {:trigger RequestOk(s, b)} :: RequestOk(s, b))
    && (forall k {:trigger AvailOk(s, k)} :: AvailOk(s, k))
    && (forall k {:trigger UsedOk(s, k)} :: UsedOk(s, k))
    && |s.owner| == 3 * |s.chains| && (forall i | i in s.owner :: i < NUM)
  }

  // ---------- Counting ----------

  ghost function FreeSet(free: seq<bool>, n: nat): set<nat>
    requires n <= |free|
  {
    if n == 0 then {} else FreeSet(free, n - 1) + (if free[n - 1] then {n - 1} else {})
  }

  lemma {:induction false} FreeSetIs(free: seq<bool>, n: nat)
    requires n <= |free|
    ensures forall i: nat :: i in FreeSet(free, n) <==> i < n && free[i]
  {
    if n != 0 {
      FreeSetIs(free, n - 1);
    }
  }

  ghost function Upto(n: nat): set<nat> {
    if n == 0 then {} else Upto(n - 1) + {n - 1}
  }

  lemma {:induction false} UptoIs(n: nat)
    ensures |Upto(n)| == n && forall i: nat :: i in Upto(n) <==> i < n
  {
    if n != 0 {
      UptoIs(n - 1);
    }
  }

  lemma Complement(a: set<nat>, b: set<nat>, n: nat)
    requires forall i: nat :: (i in a ==> i < n) && (i in b ==> i < n) && (i < n ==> (i in a <==> i !in b))
    ensures |a| + |b| == n
  {
    UptoIs(n);
    hide Upto;
    assert a + b == Upto(n) && a !! b;
  }

  /** Free descriptors and three per request make up the queue. */
  lemma Accounting(s: Queue)
    requires Ok(s)
    ensures |FreeSet(s.free, NUM)| + 3 * |s.chains| == NUM
  {
    FreeSetIs(s.free, NUM);
    var f, o := FreeSet(s.free, NUM), s.owner.Keys;
    hide FreeSet;
    forall i: nat ensures (i in f ==> i < NUM) && (i in o ==> i < NUM)
      && (i < NUM ==> (i in f <==> i !in o)) { assert DescOk(s, i); }
    hide Ok;
    Complement(f, o, NUM);
  }

  ghost function Elements(q: seq<nat>): set<nat> {
    if q == [] then {} else Elements(q[1..]) + {q[0]}
  }

  lemma {:induction false} ElementsIs(q: seq<nat>)
    ensures forall x :: x in Elements(q) <==> x in q
  {
    if q != [] {
      ElementsIs(q[1..]);
    }
  }

  lemma {:induction false} Distinct(q: seq<nat>)
    requires forall i, j | 0 <= i < j < |q| :: q[i] != q[j]
    ensures |Elements(q)| == |q|
  {
    if q != [] {
      Distinct(q[1..]);
      ElementsIs(q[1..]);
    }
  }

  /** At most two requests wait in either ring, so no entry of a ring is overwritten before
      it has been used. */
  lemma RingsNeverFull(s: Queue)
    requires Ok(s)
    ensures |s.made| - s.fetched <= |s.chains| <= 2 && |s.done| - s.seen <= |s.chains|
  {
    Accounting(s);
    var a, u := s.made[s.fetched..], s.done[s.seen..];
    forall i | 0 <= i < |a| ensures a[i] in s.chains
      && s.chains[a[i]].stage == Queued(s.fetched + i) { assert AvailOk(s, s.fetched + i); }
    forall i | 0 <= i < |u| ensures u[i] in s.chains
      && s.chains[u[i]].stage == Completed(s.seen + i) { assert UsedOk(s, s.seen + i); }
    Distinct(a);
    ElementsIs(a);
    Distinct(u);
    ElementsIs(u);
    SubsetSize(Elements(a), s.chains.Keys);
    SubsetSize(Elements(u), s.chains.Keys);
  }

  // ---------- Steps ----------

  /** virtio_disk_rw makes a request of descriptors `h`, `i1` and `i2` available. */
  ghost function Submitted(s: Queue, h: nat, i1: nat, i2: nat, b: nat): Queue
    requires h < NUM && i1 < NUM && i2 < NUM
  {
    s.(free := s.free[h := false][i1 := false][i2 := false],
       desc := s.desc[h := Desc(true, i1)][i1 := Desc(true, i2)][i2 := Desc(false, 0)],
       info := s.info[h := Info(b, 0xff)], busy := s.busy[b := true],
       avail := s.avail[|s.made| % NUM := h], made := s.made + [h],
       chains := s.chains[h := Chain(i1, i2, b, Queued(|s.made|))],
       owner := s.owner[h := h][i1 := h][i2 := h], request := s.request[b := h])
  }

  ghost predicate CanSubmit(s: Queue, h: nat, i1: nat, i2: nat, b: nat) {
    && h < NUM && i1 < NUM && i2 < NUM && h != i1 && h != i2 && i1 != i2
    && s.free[h] && s.free[i1] && s.free[i2] && b != 0 && b !in s.request
  }

  lemma SubmittedChain(s: Queue, h: nat, i1: nat, i2: nat, b: nat, x: nat)
    requires Ok(s) && CanSubmit(s, h, i1, i2, b)
    ensures h !in s.chains && ChainOk(Submitted(s, h, i1, i2, b), x)
  {
    assert DescOk(s, h) && DescOk(s, i1) && DescOk(s, i2) && ChainOk(s, h) && ChainOk(s, x);
  }

  lemma SubmittedOk(s: Queue, h: nat, i1: nat, i2: nat, b: nat)
    requires Ok(s) && CanSubmit(s, h, i1, i2, b)
    ensures h !in s.chains && Ok(Submitted(s, h, i1, i2, b))
  {
    hide ChainOk, AvailOk, UsedOk;
    var t := Submitted(s, h, i1, i2, b);
    assert DescOk(s, h) && DescOk(s, i1) && DescOk(s, i2);
    ThreeMore(s.owner, h, i1, i2, h);
    SubmittedChain(s, h, i1, i2, b, h);
    forall x: nat ensures ChainOk(t, x) { SubmittedChain(s, h, i1, i2, b, x); }
    forall i: nat ensures DescOk(t, i) { assert DescOk(s, i); }
    forall c: nat ensures RequestOk(t, c) { assert RequestOk(s, c); }
    forall k: nat ensures AvailOk(t, k) && UsedOk(t, k) { SubmittedRings(s, h, i1, i2, b, k); }
  }

  lemma SubmittedRings(s: Queue, h: nat, i1: nat, i2: nat, b: nat, k: nat)
    requires Ok(s) && CanSubmit(s, h, i1, i2, b) && h !in s.chains
    ensures AvailOk(Submitted(s, h, i1, i2, b), k) && UsedOk(Submitted(s, h, i1, i2, b), k)
  {
    RingsNeverFull(s);
    assert AvailOk(s, k) && UsedOk(s, k);
    if s.fetched <= k < |s.made| {
      Different(k, |s.made|, NUM);
    }
  }

  /** The device takes the next entry of the avail ring. */
  ghost function Taken(s: Queue): Queue
    requires s.fetched < |s.made| && s.made[s.fetched] in s.chains
  {
    var h := s.made[s.fetched];
    s.(fetched := s.fetched + 1, chains := s.chains[h := s.chains[h].(stage := Fetched)])
  }

  lemma TakenOk(s: Queue)
    requires Ok(s) && s.fetched < |s.made|
    ensures s.made[s.fetched] in s.chains && s.avail[s.fetched % NUM] == s.made[s.fetched] && Ok(Taken(s))
  {
    assert AvailOk(s, s.fetched) && ChainOk(s, s.made[s.fetched]);
    var t := Taken(s);
    forall x: nat ensures ChainOk(t, x) { assert ChainOk(s, x); }
    forall i: nat ensures DescOk(t, i) { assert DescOk(s, i); }
    forall c: nat ensures RequestOk(t, c) { assert RequestOk(s, c); }
    forall k: nat ensures AvailOk(t, k) { assert AvailOk(s, k); }
    forall k: nat ensures UsedOk(t, k) { assert UsedOk(s, k); }
  }

  /** The next entries of the rings are at the stage that they should be. */
  lemma NextEntries(s: Queue)
    requires Ok(s)
    ensures s.fetched < |s.made| ==>
      s.made[s.fetched] in s.chains && s.chains[s.made[s.fetched]].stage == Queued(s.fetched)
    ensures s.seen < |s.done| ==> s.done[s.seen] in s.chains && s.chains[s.done[s.seen]].stage == Completed(s.seen)
  {
    assert AvailOk(s, s.fetched) && UsedOk(s, s.seen);
  }

  /** The device finishes any request that it has fetched. */
  ghost function Finished(s: Queue, h: nat): Queue
    requires h < NUM && h in s.chains
  {
    s.(info := s.info[h := s.info[h].(status := 0)], used := s.used[|s.done| % NUM := h], done := s.done + [h],
       chains := s.chains[h := s.chains[h].(stage := Completed(|s.done|))])
  }

  lemma FinishedOk(s: Queue, h: nat)
    requires Ok(s) && h in s.chains && s.chains[h].stage == Fetched
    ensures h < NUM && Ok(Finished(s, h))
  {
    assert ChainOk(s, h);
    RingsNeverFull(s);
    var t := Finished(s, h);
    forall x: nat ensures ChainOk(t, x) { assert ChainOk(s, x); }
    forall i: nat ensures DescOk(t, i) { assert DescOk(s, i); }
    forall c: nat ensures RequestOk(t, c) { assert RequestOk(s, c); }
    forall k: nat ensures AvailOk(t, k) { assert AvailOk(s, k); }
    forall k: nat ensures UsedOk(t, k) {
      assert UsedOk(s, k);
      if s.seen <= k < |s.done| {
        Different(k, |s.done|, NUM);
      }
    }
  }

  /** virtio_disk_intr handles the next entry of the used ring. */
  ghost function Handled(s: Queue): Queue
    requires s.seen < |s.done| && s.done[s.seen] in s.chains
  {
    var h := s.done[s.seen];
    s.(seen := s.seen + 1, busy := s.busy[s.chains[h].b := false], chains := s.chains[h := s.chains[h].(stage := Done)])
  }

  lemma HandledOk(s: Queue)
    requires Ok(s) && s.seen < |s.done|
    ensures s.done[s.seen] in s.chains && s.used[s.seen % NUM] == s.done[s.seen] && s.done[s.seen] < NUM
      && Ok(Handled(s))
    ensures var h := s.done[s.seen];
            s.info[h].status == 0 && s.info[h].b == s.chains[h].b && s.chains[h].b in s.busy && s.busy[s.chains[h].b]
  {
    var h := s.done[s.seen];
    assert UsedOk(s, s.seen) && ChainOk(s, h);
    var t := Handled(s);
    forall x: nat ensures ChainOk(t, x) { assert ChainOk(s, x); }
    forall i: nat ensures DescOk(t, i) { assert DescOk(s, i); }
    forall c: nat ensures RequestOk(t, c) { assert RequestOk(s, c); }
    forall k: nat ensures AvailOk(t, k) { assert AvailOk(s, k); }
    forall k: nat ensures UsedOk(t, k) { assert UsedOk(s, k); }
  }

  /** virtio_disk_rw takes leave of a request that is done. */
  ghost function Retired(s: Queue, h: nat): Queue
    requires h < NUM && h in s.chains && s.chains[h].i1 < NUM && s.chains[h].i2 < NUM
  {
    var c := s.chains[h];
    s.(free := s.free[h := true][c.i1 := true][c.i2 := true],
       desc := s.desc[h := Desc(false, 0)][c.i1 := Desc(false, 0)][c.i2 := Desc(false, 0)],
       info := s.info[h := s.info[h].(b := 0)],
       chains := s.chains - {h}, owner := s.owner - {h, c.i1, c.i2}, request := s.request - {c.b})
  }

  /** A request whose buffer is not busy is done, and its descriptors are linked. */
  lemma ChainFacts(s: Queue, h: nat)
    requires Ok(s) && h in s.chains && s.chains[h].b in s.busy && !s.busy[s.chains[h].b]
    ensures var c := s.chains[h];
            && c.stage == Done && h < NUM && c.i1 < NUM && c.i2 < NUM && h != c.i1 && h != c.i2 && c.i1 != c.i2
            && !s.free[h] && !s.free[c.i1] && !s.free[c.i2]
            && s.desc[h] == Desc(true, c.i1) && s.desc[c.i1] == Desc(true, c.i2) && !s.desc[c.i2].more
  {
    var c := s.chains[h];
    assert ChainOk(s, h) && DescOk(s, h) && DescOk(s, c.i1) && DescOk(s, c.i2);
  }

  lemma RetiredOk(s: Queue, h: nat)
    requires Ok(s) && h in s.chains && s.chains[h].stage == Done
    ensures h < NUM && s.chains[h].i1 < NUM && s.chains[h].i2 < NUM && Ok(Retired(s, h))
  {
    assert ChainOk(s, h);
    var c := s.chains[h];
    var t := Retired(s, h);
    ThreeFewer(s.owner, h, c.i1, c.i2);
    assert t.chains.Keys == s.chains.Keys - {h};
    hide ChainOk, DescOk, AvailOk, UsedOk;
    forall x: nat ensures ChainOk(t, x) { RetiredChain(s, h, x); }
    forall i: nat ensures DescOk(t, i) { RetiredDesc(s, h, i); }
    forall b: nat ensures RequestOk(t, b) { RetiredChain(s, h, b); }
    forall k: nat ensures AvailOk(t, k) && UsedOk(t, k) { RetiredDesc(s, h, k); }
  }

  lemma RetiredChain(s: Queue, h: nat, x: nat)
    requires Ok(s) && h in s.chains && s.chains[h].stage == Done
    ensures h < NUM && s.chains[h].i1 < NUM && s.chains[h].i2 < NUM
    ensures ChainOk(Retired(s, h), x) && RequestOk(Retired(s, h), x)
  {
    assert ChainOk(s, h) && ChainOk(s, x) && RequestOk(s, x);
    if x in s.chains && x != h {
      assert s.chains[x].b != s.chains[h].b;
    }
  }

  lemma RetiredDesc(s: Queue, h: nat, i: nat)
    requires Ok(s) && h in s.chains && s.chains[h].stage == Done
    ensures h < NUM && s.chains[h].i1 < NUM && s.chains[h].i2 < NUM
    ensures DescOk(Retired(s, h), i) && AvailOk(Retired(s, h), i) && UsedOk(Retired(s, h), i)
  {
    assert ChainOk(s, h) && DescOk(s, i) && AvailOk(s, i) && UsedOk(s, i);
  }

  lemma ThreeMore(m: map<nat, nat>, x: nat, y: nat, z: nat, v: nat)
    requires x !in m && y !in m && z !in m && x != y && x != z && y != z
    ensures |m[x := v][y := v][z := v]| == |m| + 3
  {
  }

  lemma ThreeFewer(m: map<nat, nat>, x: nat, y: nat, z: nat)
    requires x in m && y in m && z in m && x != y && x != z && y != z
    ensures |m - {x, y, z}| == |m| - 3
  {
    assert (m - {x, y, z}).Keys == m.Keys - {x} - {y} - {z};
    assert |m.Keys - {x}| == |m| - 1;
    assert |m.Keys - {x} - {y}| == |m| - 2;
  }

  lemma FewFree(free: Bits, a: nat, b: nat)
    requires forall j | 0 <= j < NUM && free[j] :: j == a || j == b
    ensures |FreeSet(free, NUM)| < 3
  {
    FreeSetIs(free, NUM);
    hide FreeSet;
    SubsetSize(FreeSet(free, NUM), {a, b});
  }

  lemma GivenBack(free: Bits, a: nat, b: nat)
    requires a < NUM && b < NUM && free[a] && free[b]
    ensures free[a := false][b := false][a := true][b := true] == free && free[a := false][a := true] == free
  {
  }

  // ---------- 16-bit indices ----------

  /** The wrapping index goes through the same cells, because NUM divides 2^16. */
  lemma Indices(n: nat)
    ensures n % WRAP % NUM == n % NUM && (n % WRAP + 1) % WRAP == (n + 1) % WRAP
  {
    var q, r := n / WRAP, n % WRAP;
    assert n == r + NUM * (WRAP / NUM * q);
    AddMultiple(r, WRAP / NUM * q, NUM);
    AddMultiple(r + 1, q, WRAP);
  }

  /** `idx` is the wrapping form of the count `n`. */
  ghost predicate At(idx: uint16, n: nat) {
    idx == n % WRAP
  }

  lemma Onward(idx: uint16, n: nat, n1: nat)
    requires At(idx, n) && n1 == n + 1
    ensures idx % NUM == n % NUM && At((idx + 1) % WRAP, n1)
  {
    Indices(n);
  }

  /** Two wrapping indices less than NUM apart are equal only if the true counts are. */
  lemma Caught(m: nat, n: nat)
    requires m <= n < m + NUM
    ensures m % WRAP == n % WRAP <==> m == n
  {
    if m < n {
      Different(m, n, WRAP);
    }
  }

  /** The index comparisons tell whether entries wait. */
  lemma Waiting(s: Queue, availIdx: uint16, deviceIdx: uint16, usedIdx: uint16, seenIdx: uint16)
    requires Ok(s) && At(availIdx, |s.made|) && At(deviceIdx, s.fetched) && At(usedIdx, |s.done|) && At(seenIdx, s.seen)
    ensures deviceIdx == availIdx <==> s.fetched == |s.made|
    ensures seenIdx == usedIdx <==> s.seen == |s.done|
    ensures s.fetched <= |s.made| && s.seen <= |s.done|
  {
    RingsNeverFull(s);
    Caught(s.fetched, |s.made|);
    Caught(s.seen, |s.done|);
  }

  // ---------- How requests advance ----------

  function Rank(g: Stage): nat {
    match g
    case Queued(_) => 0
    case Fetched => 1
    case Completed(_) => 2
    case Done => 3
  }

  ghost predicate Later(a: map<nat, Chain>, b: map<nat, Chain>, h: nat) {
    h in a ==> h in b && b[h] == a[h].(stage := b[h].stage) && Rank(a[h].stage) <= Rank(b[h].stage)
  }

  /** The requests are the same and none has gone back. */
  ghost predicate Advanced(a: map<nat, Chain>, b: map<nat, Chain>) {
    b.Keys == a.Keys && forall h {:trigger Later(a, b, h)} :: Later(a, b, h)
  }

  lemma AdvancedTwice(a: map<nat, Chain>, b: map<nat, Chain>, c: map<nat, Chain>)
    requires Advanced(a, b) && Advanced(b, c)
    ensures Advanced(a, c)
  {
    forall h: nat ensures Later(a, c, h) { assert Later(a, b, h) && Later(b, c, h); }
  }

  lemma AdvancedNot(a: map<nat, Chain>)
    ensures Advanced(a, a)
  {
    forall h: nat ensures Later(a, a, h) {}
  }

  lemma AdvancedOne(a: map<nat, Chain>, h: nat, g: Stage)
    requires h in a && Rank(a[h].stage) <= Rank(g)
    ensures Advanced(a, a[h := a[h].(stage := g)])
  {
    var b := a[h := a[h].(stage := g)];
    forall x: nat ensures Later(a, b, x) {}
  }

  ghost function Unseen(a: map<nat, Chain>): set<nat> {
    set h | h in a && a[h].stage != Done
  }

  lemma SeenOne(a: map<nat, Chain>, h: nat)
    requires h in a && a[h].stage != Done
    ensures |Unseen(a[h := a[h].(stage := Done)])| + 1 == |Unseen(a)|
  {
    assert Unseen(a[h := a[h].(stage := Done)]) == Unseen(a) - {h};
  }

  lemma UnseenSame(a: map<nat, Chain>, h: nat, g: Stage)
    requires h in a && a[h].stage != Done && g != Done
    ensures Unseen(a[h := a[h].(stage := g)]) == Unseen(a)
  {
  }

  /** The completions in `done` from `from` on that the driver has seen are done. */
  ghost predicate SeenOk(chains: map<nat, Chain>, done: seq<nat>, from: nat, seen: nat) {
    seen <= |done| && forall k {:trigger done[k]} | from <= k < seen ::
      done[k] in chains && chains[done[k]].stage == Done
  }

  lemma SeenAdvanced(a: map<nat, Chain>, b: map<nat, Chain>, done: seq<nat>, done1: seq<nat>, from: nat, seen: nat)
    requires SeenOk(a, done, from, seen) && Advanced(a, b) && done <= done1
    ensures SeenOk(b, done1, from, seen)
  {
    forall k: nat | from <= k < seen ensures done1[k] in b && b[done1[k]].stage == Done {
      assert done1[k] == done[k] && Later(a, b, done[k]);
    }
  }

  lemma SeenStart(s: Queue)
    requires Ok(s)
    ensures SeenOk(s.chains, s.done, s.seen, s.seen) && Advanced(s.chains, s.chains)
  {
    AdvancedNot(s.chains);
  }

  lemma SeenNext(a: map<nat, Chain>, b: map<nat, Chain>, done: seq<nat>, from: nat, seen: nat, seen1: nat)
    requires SeenOk(a, done, from, seen) && seen < |done| && seen1 == seen + 1
    requires done[seen] in a && b == a[done[seen] := a[done[seen]].(stage := Done)]
    ensures SeenOk(b, done, from, seen1)
  {
  }

  /** When the driver has seen all completions, no request is left in between. */
  lemma NoneCompleted(s: Queue)
    requires Ok(s) && s.seen == |s.done|
    ensures forall h | h in s.chains :: !s.chains[h].stage.Completed?
  {
    forall h | h in s.chains ensures !s.chains[h].stage.Completed? { assert ChainOk(s, h); }
  }

  /** `pending` are the requests that the device has fetched and not finished. */
  ghost predicate Pends(pending: set<nat>, chains: map<nat, Chain>) {
    forall h :: h in pending <==> h in chains && chains[h].stage == Fetched
  }

  lemma PendsMore(pending: set<nat>, chains: map<nat, Chain>, h: nat, c: Chain)
    requires Pends(pending, chains) && c.stage == Fetched
    ensures Pends(pending + {h}, chains[h := c])
  {
  }

  lemma PendsFewer(pending: set<nat>, chains: map<nat, Chain>, h: nat, g: Stage)
    requires Pends(pending, chains) && h in pending && g != Fetched
    ensures h in chains && chains[h].stage == Fetched
    ensures Pends(pending - {h}, chains[h := chains[h].(stage := g)])
  {
  }

  lemma PendsSame(pending: set<nat>, chains: map<nat, Chain>, h: nat, c: Chain)
    requires Pends(pending, chains) && c.stage != Fetched && (h in chains ==> chains[h].stage != Fetched)
    ensures Pends(pending, chains[h := c]) && Pends(pending, chains - {h})
  {
  }

  // ---------- The driver and the device ----------

  class Disk {
    var free: Bits
    var desc: Descs
    var info: Infos
    var avail: Ring        // avail->ring, avail->idx
    var availIdx: uint16
    var used: Ring         // used->ring, used->idx
    var usedIdx: uint16
    var seenIdx: uint16    // the driver's used_idx
    var busy: map<nat, bool>   // b->disk, by buffer
    var deviceIdx: uint16  // the device's place in the avail ring
    var pending: set<nat>  // the heads that the device is working on
    ghost var made: seq<nat>
    ghost var fetched: nat
    ghost var done: seq<nat>
    ghost var seen: nat
    ghost var chains: map<nat, Chain>
    ghost var owner: map<nat, nat>
    ghost var request: map<nat, nat>

    ghost function S(): Queue
      reads this
    {
      Queue(free, desc, info, avail, used, busy, made, fetched, done, seen, chains, owner, request)
    }

    ghost predicate Valid()
      reads this
    {
      && Ok(S()) && At(availIdx, |made|) && At(deviceIdx, fetched) && At(usedIdx, |done|) && At(seenIdx, seen)
      && Pends(pending, chains)
    }

    /** virtio_disk_init leaves all descriptors free. */
    constructor ()
      ensures Valid() && chains == map[] && forall i | 0 <= i < NUM :: free[i]
    {
      free := seq(NUM, i => true);
      desc := seq(NUM, i => Desc(false, 0));
      info := seq(NUM, i => Info(0, 0));
      avail, used := seq(NUM, i => 0), seq(NUM, i => 0);
      availIdx, usedIdx, seenIdx, deviceIdx, busy, pending := 0, 0, 0, 0, map[], {};
      made, fetched, done, seen, chains, owner, request := [], 0, [], 0, map[], map[], map[];
    }

    /** alloc_desc takes the first free descriptor. */
    method AllocDesc() returns (i: int)
      modifies this`free
      ensures i == -1 ==> free == old(free) && forall j | 0 <= j < NUM :: !free[j]
      ensures i != -1 ==>
        0 <= i < NUM && old(free)[i] && free == old(free)[i := false] && forall j | 0 <= j < i :: !free[j]
    {
      i := 0;
      while i < NUM
        invariant 0 <= i <= NUM && free == old(free) && forall j | 0 <= j < i :: !free[j]
      {
        if free[i] {
          free := free[i := false];
          return;
        }
        i := i + 1;
      }
      i := -1;
    }

    /** free_desc, which panics on a descriptor that is free. */
    method FreeDesc(i: nat)
      requires i < NUM && !free[i]
      modifies this`free, this`desc
      ensures free == old(free)[i := true] && desc == old(desc)[i := Desc(false, 0)]
    {
      desc := desc[i := Desc(false, 0)];
      free := free[i := true];
    }

    /** alloc3_desc: three descriptors, or none taken. */
    method Alloc3() returns (ok: bool, i0: nat, i1: nat, i2: nat)
      modifies this`free, this`desc
      ensures ok ==> i0 < NUM && i1 < NUM && i2 < NUM && i0 != i1 && i0 != i2 && i1 != i2
      ensures ok ==> old(free)[i0] && old(free)[i1] && old(free)[i2]
      ensures ok ==> free == old(free)[i0 := false][i1 := false][i2 := false]
      ensures ok ==> desc == old(desc)
      ensures !ok ==> free == old(free) && |FreeSet(free, NUM)| < 3 && forall j | 0 <= j < NUM && !free[j] ::
        desc[j] == old(desc)[j]
    {
      hide FreeSet;
      ok, i0, i1, i2 := false, 0, 0, 0;
      var a := AllocDesc();
      if a == -1 {
        FewFree(free, 0, 0);
        return;
      }
      var b := AllocDesc();
      if b == -1 {
        FreeDesc(a);
        GivenBack(old(free), a, a);
        FewFree(free, a, a);
        return;
      }
      var c := AllocDesc();
      if c == -1 {
        FreeDesc(a);
        FreeDesc(b);
        GivenBack(old(free), a, b);
        FewFree(free, a, b);
        return;
      }
      ok, i0, i1, i2 := true, a, b, c;
    }

    /** virtio_disk_rw writes the three descriptors and the avail entry. */
    method Publish(h: nat, i1: nat, i2: nat, b: nat)
      requires h < NUM && i1 < NUM && i2 < NUM && h != i1 && h != i2 && i1 != i2
      modifies this`desc, this`info, this`busy, this`avail, this`availIdx
      ensures desc == old(desc)[h := Desc(true, i1)][i1 := Desc(true, i2)][i2 := Desc(false, 0)]
      ensures info == old(info)[h := Info(b, 0xff)] && busy == old(busy)[b := true]
      ensures avail == old(avail)[old(availIdx) % NUM := h] && availIdx == (old(availIdx) + 1) % WRAP
    {
      desc := desc[h := Desc(true, i1)];
      desc := desc[i1 := Desc(true, i2)];
      info := info[h := info[h].(status := 0xff)];
      desc := desc[i2 := Desc(false, 0)];
      busy := busy[b := true];
      info := info[h := info[h].(b := b)];
      avail := avail[availIdx % NUM := h];
      availIdx := (availIdx + 1) % WRAP;
    }

    /** virtio_disk_rw up to where it waits for the request; it sleeps before that,
        with nothing changed, if there are no three free descriptors.  The buffer, locked
        by the caller, has no request in flight. */
    method Submit(b: nat) returns (ok: bool, h: nat)
      requires Valid() && b != 0 && b !in request
      modifies this
      ensures Valid()
      ensures ok ==> h !in old(chains) && h in chains && chains == old(chains)[h := chains[h]]
      ensures ok ==> chains[h].b == b && chains[h].stage.Queued?
      ensures ok ==> b in busy && busy == old(busy)[b := true] && made == old(made) + [h]
      ensures !ok ==> chains == old(chains) && busy == old(busy) && made == old(made) && free == old(free)
      ensures !ok ==> |FreeSet(free, NUM)| < 3
    {
      hide FreeSet, Submitted, Ok, Pends, At;
      ghost var s := S();
      var i1, i2;
      ok, h, i1, i2 := Alloc3();
      if !ok {
        OnlyFreeDescs(s, S());
        return;
      }
      Enqueue(h, i1, i2, b, s);
    }

    /** The rest of it: state `s` is before the descriptors were taken. */
    method Enqueue(h: nat, i1: nat, i2: nat, b: nat, ghost s: Queue)
      requires Ok(s) && Pends(pending, chains) && CanSubmit(s, h, i1, i2, b)
      requires At(availIdx, |made|) && At(deviceIdx, fetched) && At(usedIdx, |done|) && At(seenIdx, seen)
      requires S() == s.(free := s.free[h := false][i1 := false][i2 := false])
      modifies this
      ensures Valid() && h !in s.chains && chains == s.chains[h := Chain(i1, i2, b, Queued(|s.made|))]
      ensures busy == s.busy[b := true] && made == s.made + [h]
    {
      hide Ok, Pends, At, Submitted;
      SubmittedOk(s, h, i1, i2, b);
      PendsSame(pending, chains, h, Chain(i1, i2, b, Queued(|made|)));
      Onward(availIdx, |made|, |made| + 1);
      Record(h, i1, i2, b, s);
    }

    /** ... and the request is in flight. */
    method Record(h: nat, i1: nat, i2: nat, b: nat, ghost s: Queue)
      requires h < NUM && i1 < NUM && i2 < NUM && h != i1 && h != i2 && i1 != i2 && availIdx % NUM == |made| % NUM
      requires S() == s.(free := s.free[h := false][i1 := false][i2 := false])
      modifies this`desc, this`info, this`busy, this`avail, this`availIdx, this`chains, this`owner, this`request,
        this`made
      ensures S() == Submitted(s, h, i1, i2, b) && availIdx == (old(availIdx) + 1) % WRAP
      ensures chains == s.chains[h := Chain(i1, i2, b, Queued(|s.made|))] && busy == s.busy[b := true]
        && made == s.made + [h]
    {
      Publish(h, i1, i2, b);
      chains := chains[h := Chain(i1, i2, b, Queued(|made|))];
      owner := owner[h := h][i1 := h][i2 := h];
      request, made := request[b := h], made + [h];
    }

    /** The device looks at the avail ring. */
    method DeviceFetch() returns (h: nat)
      requires Valid() && deviceIdx != availIdx
      modifies this
      ensures Valid() && h in old(chains) && old(chains)[h].stage.Queued?
        && chains == old(chains)[h := old(chains)[h].(stage := Fetched)]
      ensures done == old(done) && seen == old(seen)
    {
      hide Ok, Pends, At;
      ghost var s := S();
      Waiting(s, availIdx, deviceIdx, usedIdx, seenIdx);
      NextEntries(s);
      TakenOk(s);
      PendsMore(pending, chains, made[fetched], chains[made[fetched]].(stage := Fetched));
      Onward(deviceIdx, fetched, fetched + 1);
      h := avail[deviceIdx % NUM];
      deviceIdx := (deviceIdx + 1) % WRAP;
      pending := pending + {h};
      fetched, chains := fetched + 1, chains[h := chains[h].(stage := Fetched)];
      assert S() == Taken(s);
    }

    /** The device finishes any request it has fetched. */
    method DeviceFinish(h: nat)
      requires Valid() && h in pending
      modifies this
      ensures Valid() && h in old(chains) && old(chains)[h].stage == Fetched
      ensures chains == old(chains)[h := old(chains)[h].(stage := Completed(|old(done)|))] && done == old(done) + [h]
        && seen == old(seen)
    {
      hide Ok, Pends, At;
      ghost var s := S();
      PendsFewer(pending, chains, h, Completed(|done|));
      FinishedOk(s, h);
      Onward(usedIdx, |done|, |done| + 1);
      WriteUsed(h);
      assert S() == Finished(s, h);
    }

    /** The device writes the status and the used entry. */
    method WriteUsed(h: nat)
      requires h < NUM && h in chains
      modifies this`info, this`used, this`usedIdx, this`pending, this`chains, this`done
      ensures info == old(info)[h := old(info)[h].(status := 0)] && used == old(used)[old(usedIdx) % NUM := h]
      ensures usedIdx == (old(usedIdx) + 1) % WRAP && pending == old(pending) - {h}
      ensures chains == old(chains)[h := old(chains)[h].(stage := Completed(|old(done)|))] && done == old(done) + [h]
    {
      info := info[h := info[h].(status := 0)];
      used := used[usedIdx % NUM := h];
      usedIdx := (usedIdx + 1) % WRAP;
      pending := pending - {h};
      chains, done := chains[h := chains[h].(stage := Completed(|done|))], done + [h];
    }

    /** What the device does on its own: for each of `todo` it finishes that request if it
        is working on it, and else fetches the next one if there is one. */
    method DeviceRuns(todo: seq<nat>)
      requires Valid()
      modifies this
      ensures Valid() && Advanced(old(chains), chains) && old(done) <= done && seen == old(seen)
      ensures Unseen(chains) == old(Unseen(chains))
    {
      hide Ok, Advanced, Unseen, Pends, At;
      AdvancedNot(chains);
      var i := 0;
      while i < |todo|
        invariant 0 <= i <= |todo| && Valid() && Advanced(old(chains), chains) && old(done) <= done && seen == old(seen)
        invariant Unseen(chains) == old(Unseen(chains))
      {
        ghost var mid := chains;
        if todo[i] in pending {
          DeviceFinish(todo[i]);
          UnseenSame(mid, todo[i], chains[todo[i]].stage);
          AdvancedOne(mid, todo[i], chains[todo[i]].stage);
          AdvancedTwice(old(chains), mid, chains);
        } else if deviceIdx != availIdx {
          var h := DeviceFetch();
          UnseenSame(mid, h, Fetched);
          AdvancedOne(mid, h, Fetched);
          AdvancedTwice(old(chains), mid, chains);
        }
        i := i + 1;
      }
    }

    /** One turn of virtio_disk_intr's loop. */
    method HandleOne()
      requires Valid() && seen < |done|
      modifies this
      ensures Valid() && seen == old(seen) + 1 && done == old(done)
      ensures var h := done[old(seen)];
              && h in old(chains) && old(chains)[h].stage == Completed(old(seen))
              && chains == old(chains)[h := old(chains)[h].(stage := Done)]
              && old(chains)[h].b in old(busy) && old(busy)[old(chains)[h].b]
              && busy == old(busy)[old(chains)[h].b := false]
    {
      hide Ok, Pends, At;
      ghost var s := S();
      NextEntries(s);
      HandledOk(s);
      PendsSame(pending, chains, done[seen], chains[done[seen]].(stage := Done));
      Onward(seenIdx, seen, seen + 1);
      var id := used[seenIdx % NUM];
      assert info[id].status == 0;   // else panic
      MarkDone(id);
      assert S() == Handled(s);
    }

    /** b->disk = 0 and used_idx += 1. */
    method MarkDone(id: nat)
      requires id < NUM && id in chains
      modifies this`busy, this`seenIdx, this`chains, this`seen
      ensures busy == old(busy)[info[id].b := false] && seenIdx == (old(seenIdx) + 1) % WRAP
      ensures chains == old(chains)[id := old(chains)[id].(stage := Done)] && seen == old(seen) + 1
    {
      var b := info[id].b;
      busy := busy[b := false];
      seenIdx := (seenIdx + 1) % WRAP;
      chains, seen := chains[id := chains[id].(stage := Done)], seen + 1;
    }

    /** virtio_disk_intr, while the device goes on: device(k) is what it does before the
        loop's test number `k`.  The loop ends, and then every completion in the used
        ring, also of requests that the device finished meanwhile, has been handled, each
        once, and no request is left completed but not done. */
    method Interrupt(device: nat -> seq<nat>)
      requires Valid()
      modifies this
      ensures Valid() && Advanced(old(chains), chains) && old(done) <= done && seen == |done|
      ensures forall h | h in chains :: !chains[h].stage.Completed?
      ensures SeenOk(chains, done, old(seen), seen)
      ensures |Unseen(chains)| + (seen - old(seen)) == |old(Unseen(chains))|
    {
      hide Ok, Advanced, Unseen, Pends, SeenOk, At;
      var k := 0;
      SeenStart(S());
      DeviceRuns(device(k));
      SeenAdvanced(old(chains), chains, old(done), done, old(seen), seen);
      Waiting(S(), availIdx, deviceIdx, usedIdx, seenIdx);
      while seenIdx != usedIdx
        invariant Valid() && Advanced(old(chains), chains) && old(done) <= done && old(seen) <= seen <= |done|
        invariant SeenOk(chains, done, old(seen), seen) && (seenIdx == usedIdx ==> seen == |done|)
        invariant |Unseen(chains)| + (seen - old(seen)) == |old(Unseen(chains))|
        decreases |Unseen(chains)|
      {
        k := k + 1;
        Turn(device(k), old(chains), old(done), old(seen), |old(Unseen(chains))|);
      }
      NoneCompleted(S());
    }

    /** One turn of the loop, and what the device does then; the loop began with requests
        `from`. */
    method Turn(todo: seq<nat>, ghost from: map<nat, Chain>, ghost done0: seq<nat>, ghost seen0: nat, ghost count: nat)
      requires Valid() && Advanced(from, chains) && done0 <= done && seen0 <= seen && seenIdx != usedIdx
      requires SeenOk(chains, done, seen0, seen) && |Unseen(chains)| + (seen - seen0) == count
      modifies this
      ensures Valid() && Advanced(from, chains) && done0 <= done && seen0 <= seen <= |done|
      ensures SeenOk(chains, done, seen0, seen) && |Unseen(chains)| + (seen - seen0) == count
      ensures seenIdx == usedIdx ==> seen == |done|
      ensures |Unseen(chains)| < |old(Unseen(chains))|
    {
      hide Ok, Advanced, Unseen, Pends, SeenOk, At;
      Waiting(S(), availIdx, deviceIdx, usedIdx, seenIdx);
      ghost var a, h := chains, done[seen];
      HandleOne();
      SeenOne(a, h);
      AdvancedOne(a, h, Done);
      AdvancedTwice(from, a, chains);
      SeenNext(a, chains, done, seen0, seen - 1, seen);
      ghost var b, d := chains, done;
      DeviceRuns(todo);
      AdvancedTwice(from, b, chains);
      SeenAdvanced(b, chains, d, done, seen0, seen);
      Waiting(S(), availIdx, deviceIdx, usedIdx, seenIdx);
    }

    /** free_chain follows the links of a request's descriptors. */
    method FreeChain(h: nat, ghost i1: nat, ghost i2: nat)
      requires h < NUM && i1 < NUM && i2 < NUM && h != i1 && h != i2 && i1 != i2
      requires !free[h] && !free[i1] && !free[i2]
      requires desc[h] == Desc(true, i1) && desc[i1] == Desc(true, i2) && !desc[i2].more
      modifies this`free, this`desc
      ensures free == old(free)[h := true][i1 := true][i2 := true]
      ensures desc == old(desc)[h := Desc(false, 0)][i1 := Desc(false, 0)][i2 := Desc(false, 0)]
    {
      var i := h;
      ghost var n := 0;
      while true
        invariant n <= 2 && i == (if n == 0 then h else if n == 1 then i1 else i2)
        invariant free ==
          (if n == 0 then old(free) else if n == 1 then old(free)[h := true] else old(free)[h := true][i1 := true])
        invariant desc == (if n == 0 then old(desc) else if n == 1 then old(desc)[h := Desc(false, 0)]
                           else old(desc)[h := Desc(false, 0)][i1 := Desc(false, 0)])
        decreases 2 - n
      {
        var flag, nxt := desc[i].more, desc[i].next;
        FreeDesc(i);
        if flag {
          i := nxt;
          n := n + 1;
        } else {
          break;
        }
      }
    }

    /** virtio_disk_rw after waiting, once b->disk is 0 again. */
    method Collect(b: nat, h: nat)
      requires Valid() && h in chains && chains[h].b == b && b in busy && !busy[b]
      modifies this
      ensures Valid() && chains == old(chains) - {h} && b !in request && busy == old(busy) && made == old(made)
        && done == old(done)
    {
      hide Ok, Retired, Pends, At;
      ghost var s := S();
      ChainFacts(s, h);
      RetiredOk(s, h);
      PendsSame(pending, chains, h, chains[h]);
      Erase(h, chains[h], s);
    }

    method Erase(h: nat, ghost c: Chain, ghost s: Queue)
      requires s == S() && h < NUM && c.i1 < NUM && c.i2 < NUM && h != c.i1 && h != c.i2 && c.i1 != c.i2 && h in chains
        && chains[h] == c
      requires !free[h] && !free[c.i1] && !free[c.i2]
      requires desc[h] == Desc(true, c.i1) && desc[c.i1] == Desc(true, c.i2) && !desc[c.i2].more
      modifies this`free, this`desc, this`info, this`chains, this`owner, this`request
      ensures S() == Retired(s, h) && chains == s.chains - {h} && request == s.request - {c.b}
    {
      info := info[h := info[h].(b := 0)];
      FreeChain(h, c.i1, c.i2);
      chains, owner, request := chains - {h}, owner - {h, c.i1, c.i2}, request - {c.b};
    }
  }

  /** Only the descriptors that are free may change without a trace. */
  lemma OnlyFreeDescs(s: Queue, t: Queue)
    requires Ok(s) && t == s.(desc := t.desc) && forall j | 0 <= j < NUM && !s.free[j] :: t.desc[j] == s.desc[j]
    ensures Ok(t)
  {
    forall x: nat ensures ChainOk(t, x) {
      assert ChainOk(s, x);
      if x in s.chains {
        assert DescOk(s, x) && DescOk(s, s.chains[x].i1) && DescOk(s, s.chains[x].i2);
      }
    }
    forall i: nat ensures DescOk(t, i) { assert DescOk(s, i); }
    forall c: nat ensures RequestOk(t, c) { assert RequestOk(s, c); }
    forall k: nat ensures AvailOk(t, k) && UsedOk(t, k) { assert AvailOk(s, k) && UsedOk(s, k); }
  }
}
