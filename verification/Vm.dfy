/** The frame allocator and the page-table operations on one memory
    (kernel/kalloc.c, kernel/vm.c).  Addresses that the source requires to be page
    aligned are given as page and frame numbers; a panic is a precondition. */
module Vm {
  import opened Blocks
  import opened PageTable

  function NodeAt(root: nat, vpn: nat, level: nat): Node
    requires level <= 2
  {
    if level == 2 then Top(root) else if level == 1 then Mid(root, PX2(vpn)) else Low(root, PX2(vpn), PX1(vpn))
  }

  function PX(level: nat, vpn: nat): nat {
    if level == 2 then PX2(vpn) else if level == 1 then PX1(vpn) else PX0(vpn)
  }

  function Height(n: Node): nat {
    if n.Top? then 2 else if n.Mid? then 1 else 0
  }

  // ---------- How many frames it takes ----------

  /** The page-table pages between the root and the PTE of `vpn`. */
  function Path(root: nat, vpn: nat): set<Node> {
    {NodeAt(root, vpn, 1), NodeAt(root, vpn, 0)}
  }

  /** How many of them are missing. */
  function PathCost(nodes: set<Node>, root: nat, vpn: nat): nat {
    (if NodeAt(root, vpn, 1) in nodes then 0 else 1) + (if NodeAt(root, vpn, 0) in nodes then 0 else 1)
  }

  /** How many page-table pages it takes to map `n` pages from `vpn` on. */
  ghost function MapCost(nodes: set<Node>, root: nat, vpn: nat, n: nat): nat
    decreases n
  {
    if n == 0 then 0 else PathCost(nodes, root, vpn) + MapCost(nodes + Path(root, vpn), root, vpn + 1, n - 1)
  }

  /** How many frames it takes to add `n` pages of memory there. */
  ghost function GrowCost(nodes: set<Node>, root: nat, vpn: nat, n: nat): nat {
    n + MapCost(nodes, root, vpn, n)
  }

  lemma CostNext(nodes: set<Node>, root: nat, vpn: nat, n: nat, vpn1: nat)
    requires 0 < n && vpn1 == vpn + 1
    ensures MapCost(nodes, root, vpn, 1) == PathCost(nodes, root, vpn)
    ensures GrowCost(nodes, root, vpn, n) ==
      1 + PathCost(nodes, root, vpn) + GrowCost(nodes + Path(root, vpn), root, vpn1, n - 1)
    ensures GrowCost(nodes, root, vpn, 0) == 0
  {
  }

  /** At most two for each page, and none where there are page-table pages already. */
  lemma {:induction false} CostBound(nodes: set<Node>, root: nat, vpn: nat, n: nat)
    ensures MapCost(nodes, root, vpn, n) <= 2 * n
    ensures (forall v | vpn <= v < vpn + n :: Path(root, v) <= nodes) ==> MapCost(nodes, root, vpn, n) == 0
    decreases n
  {
    if n != 0 {
      CostBound(nodes + Path(root, vpn), root, vpn + 1, n - 1);
      if forall v | vpn <= v < vpn + n :: Path(root, v) <= nodes {
        assert Path(root, vpn) <= nodes;
        assert NodeAt(root, vpn, 1) in Path(root, vpn) && NodeAt(root, vpn, 0) in Path(root, vpn);
      }
    }
  }

  class Memory {
    const lo: nat        // kalloc manages the frames from lo up to hi
    const hi: nat
    var mem: map<nat, Frame>
    var freelist: nat    // 0 is the null pointer
    ghost var free: seq<nat>
    ghost var own: map<nat, Owner>
    ghost var node: map<Node, nat>
    ghost var page: map<Page, Pte>
    ghost var data: set<Page>
    ghost var stale: set<Slot>

    ghost function S(): Store
      reads this
    {
      Store(mem, free, own, node, page, data, stale)
    }

    ghost predicate Sound()
      reads this
    {
      Ok(S()) && freelist == Head(free) && 0 < lo && forall f :: f in own <==> lo <= f < hi
    }

    ghost predicate Valid()
      reads this
    {
      Sound() && stale == {}
    }

    // ---------- kalloc ----------

    /** kfree pushes the frame on the free list. */
    method KFree(f: nat)
      requires Sound() && f in own && own[f] == Held
      modifies this`mem, this`freelist, this`free, this`own
      ensures Sound() && S() == Given(old(S()), f)
    {
      GivenOk(S(), f);
      mem := mem[f := Run(freelist)];
      freelist := f;
      own := own[f := Free(|free|)];
      free := free + [f];
      assert S() == Given(old(S()), f);
    }

    /** kalloc pops the free list; 0 if it is empty. */
    method KAlloc() returns (f: nat)
      requires Sound()
      modifies this`mem, this`freelist, this`free, this`own
      ensures Sound()
      ensures f == 0 ==> free == [] && unchanged(this)
      ensures f != 0 ==> |free| == |old(free)| - 1
      ensures f != 0 ==> f in old(own) && old(own)[f].Free? && f in own && own[f] == Held && f in mem
      ensures f != 0 ==> mem[f].Bytes? && |mem[f].data| == PGSIZE
      ensures f != 0 ==> old(free) != [] && S() == Taken(old(S()), mem[f].data)
    {
      HeadIsNull(S());
      f := freelist;
      if f == 0 {
        return;
      }
      var junk := seq(PGSIZE, i => 5);
      TakenOk(S(), junk);
      freelist := mem[f].next;
      mem := mem[f := Bytes(junk)];
      own := own[f := Held];
      free := free[..|free| - 1];
      assert S() == Taken(old(S()), junk);
    }

    /** freerange hands every frame to the allocator. */
    constructor (lo: nat, hi: nat, ram: map<nat, Frame>)
      requires 0 < lo && forall f | lo <= f < hi :: f in ram
      ensures this.lo == lo && this.hi == hi && Valid() && node == map[] && page == map[]
      ensures forall f | lo <= f < hi :: f in own && own[f].Free?
    {
      this.lo := lo;
      this.hi := hi;
      mem := ram;
      freelist := 0;
      free := [];
      own := map f | f in ram && lo <= f < hi :: Held;
      node := map[];
      page := map[];
      data := {};
      stale := {};
      new;
      assert S().own == own && S().free == free;
      forall f: nat ensures OwnOk(S(), f) {}
      var p := lo;
      while p < hi
        invariant p <= hi || hi <= lo
        invariant Valid() && node == map[] && page == map[] && lo <= p
        invariant forall f | lo <= f < hi :: f in own && (if f < p then own[f].Free? else own[f] == Held)
      {
        KFree(p);
        p := p + 1;
      }
    }

    // ---------- walk ----------

    /** One turn of walk's loop: the page-table page under slot `k` of `n`. */
    method Descend(pt: nat, k: nat, alloc: bool, ghost n: Node) returns (c: nat)
      requires Valid() && n in node && node[n] == pt && !n.Low? && k < NPTE
      modifies this`mem, this`freelist, this`free, this`own, this`node
      ensures Valid() && Kept(old(S()), S()) && NodesGrew(old(S()), S(), n.root)
      ensures c != 0 ==> Child(n, k) in node && node[Child(n, k)] == c
      ensures c == 0 ==> Child(n, k) !in node && (alloc ==> free == [] && node == old(node))
      ensures alloc && c != 0 ==> node.Keys == old(node).Keys + {Child(n, k)}
      ensures alloc && c != 0 ==> |free| == |old(free)| - if Child(n, k) in old(node) then 0 else 1
      ensures alloc && c == 0 ==> Child(n, k) !in old(node) && |old(free)| == 0
      ensures !alloc || Child(n, k) in old(node) ==> S() == old(S()) && unchanged(this)
    {
      ghost var t := S();
      assert NodeOk(t, n) && SlotOk(t, n, k) && NodeOk(t, Child(n, k));
      KeptNot(t);
      forall m: Node ensures NodeKept(t, t, n.root, m) {}
      var e := mem[pt].ptes[k];
      if e.flags.v {
        assert OwnOk(t, e.ppn);
        c := e.ppn;
        return;
      }
      if !alloc {
        c := 0;
        return;
      }
      c := KAlloc();
      if c == 0 {
        return;
      }
      var zero := seq(NPTE, i => NOPTE);
      ghost var t1 := S();
      assert NodeOk(t1, n);
      GraftedOk(t1, n, k, c, zero);
      mem := mem[c := Table(zero)];
      mem := mem[pt := Table(mem[pt].ptes[k := Pte(c, LINK)])];
      own := own[c := Tree(Child(n, k))];
      node := node[Child(n, k) := c];
      assert S() == Grafted(t1, n, k, c, zero);
      GraftKeeps(t, t1.mem[c].data, n, k, c, zero);
    }

    /** walk: the frame of the page-table page that holds the PTE of `vpn`, or 0.
        Making page-table pages on the way changes no mapping. */
    method Walk(root: nat, vpn: nat, alloc: bool) returns (pt: nat)
      requires Valid() && Top(root) in node && vpn < MAXVPN
      modifies this`mem, this`freelist, this`free, this`own, this`node
      ensures Valid() && Kept(old(S()), S()) && NodesGrew(old(S()), S(), root)
      ensures pt != 0 ==> NodeAt(root, vpn, 0) in node && node[NodeAt(root, vpn, 0)] == pt
      ensures pt == 0 ==> if alloc then free == [] else NodeAt(root, vpn, 0) !in node
      ensures !alloc || NodeAt(root, vpn, 0) in old(node) ==> unchanged(this)
      ensures alloc ==> (pt != 0 <==> PathCost(old(node).Keys, root, vpn) <= |old(free)|)
      ensures alloc && pt != 0 ==> node.Keys == old(node).Keys + Path(root, vpn)
      ensures alloc && pt != 0 ==> |free| == |old(free)| - PathCost(old(node).Keys, root, vpn)
    {
      KeptNot(S());
      forall m: Node ensures NodeKept(S(), S(), root, m) {}
      assert NodeOk(S(), Top(root)) && NodeOk(S(), NodeAt(root, vpn, 0)) && NodeOk(S(), NodeAt(root, vpn, 1));
      VpnOfPageAt(root, vpn);
      hide Ok, Kept, NodesGrew;
      pt := root;
      var level := 2;
      while level > 0
        invariant 0 <= level <= 2 && NodeAt(root, vpn, level) in node && node[NodeAt(root, vpn, level)] == pt
        invariant Valid() && Kept(old(S()), S()) && NodesGrew(old(S()), S(), root)
        invariant !alloc || NodeAt(root, vpn, 0) in old(node) ==> unchanged(this)
        invariant level == 2 ==> node == old(node) && |free| == |old(free)|
        invariant alloc && level == 1 ==> node.Keys == old(node).Keys + {NodeAt(root, vpn, 1)}
        invariant alloc && level == 1 ==> |free| == |old(free)| - if NodeAt(root, vpn, 1) in old(node) then 0 else 1
        invariant alloc && level == 0 ==> node.Keys == old(node).Keys + Path(root, vpn)
        invariant alloc && level == 0 ==> |free| == |old(free)| - PathCost(old(node).Keys, root, vpn)
      {
        ghost var t := S();
        ghost var n := NodeAt(root, vpn, level);
        pt := Descend(pt, PX(level, vpn), alloc, n);
        KeptTwice(old(S()), t, S());
        NodesGrewTwice(old(S()), t, S(), root);
        if pt == 0 {
          return;
        }
        level := level - 1;
      }
      assert NodeOk(S(), NodeAt(root, vpn, 0));
    }

    // ---------- mappages ----------

    ghost predicate Fillable(f: nat)
      reads this
    {
      f in own && own[f] == Held && f in mem && mem[f].Bytes? && |mem[f].data| == PGSIZE
    }

    /** One turn of mappages's loop.  `take` says that the frame, held by the caller,
        becomes the page's own. */
    method MapPage(root: nat, vpn: nat, f: nat, perm: Flags, ghost take: bool) returns (ok: bool)
      requires Valid() && Top(root) in node && vpn < MAXVPN && PageAt(root, vpn) !in page
      requires perm.Leaf() && (perm.u ==> take) && (take ==> Fillable(f))
      modifies this`mem, this`freelist, this`free, this`own, this`node, this`page, this`data
      ensures Valid()
      ensures ok ==> MapsTo(old(S()), S(), root, vpn, 1, f, perm, take)
      ensures !ok ==> SameMaps(old(S()), S(), root) && free == []
      ensures ok <==> PathCost(old(node).Keys, root, vpn) <= |old(free)|
      ensures ok ==> node.Keys == old(node).Keys + Path(root, vpn)
      ensures ok ==> |free| == |old(free)| - PathCost(old(node).Keys, root, vpn)
    {
      var pt := Walk(root, vpn, true);
      if pt == 0 {
        ok := false;
        return;
      }
      ghost var t := S();
      ghost var p := PageAt(root, vpn);
      assert FrameKept(old(S()), t, f) && NodeOk(t, LowOf(p)) && SlotOk(t, LowOf(p), p.k);
      var k := PX0(vpn);
      assert !mem[pt].ptes[k].flags.v;   // else panic("mappages: remap")
      var e := Pte(f, perm.(v := true));
      MappedOk(t, p, e, take);
      mem := mem[pt := Table(mem[pt].ptes[k := e])];
      page := page[p := e];
      if take {
        own := own[f := Data(p)];
        data := data + {p};
      }
      assert S() == Mapped(t, p, e, take);
      MappedMaps(t, S(), root, vpn, f, perm, take);
      SameThenMaps(old(S()), t, S(), root, vpn, 1, f, perm, take);
      ok := true;
    }

    /** mappages: on success exactly the requested pages are mapped; on failure, which
        means that memory ran out, exactly the first `m` of them. */
    method MapPages(root: nat, vpn: nat, n: nat, f: nat, perm: Flags, ghost take: bool) returns (r: int, ghost m: nat)
      requires Valid() && Top(root) in node && 0 < n && vpn + n <= MAXVPN
      requires forall v | vpn <= v < vpn + n :: PageAt(root, v) !in page
      requires take ==> forall g | f <= g < f + n :: Fillable(g)
      requires perm.Leaf() && (perm.u ==> take)
      modifies this`mem, this`freelist, this`free, this`own, this`node, this`page, this`data
      ensures Valid() && (r == 0 || r == -1) && (if r == 0 then m == n else m < n && free == [])
      ensures MapsTo(old(S()), S(), root, vpn, m, f, perm, take)
      ensures r == 0 <==> MapCost(old(node).Keys, root, vpn, n) <= |old(free)|
      ensures r == 0 ==> |free| == |old(free)| - MapCost(old(node).Keys, root, vpn, n)
      ensures r == 0 && n == 1 ==> node.Keys == old(node).Keys + Path(root, vpn)
    {
      var a, pa := vpn, f;
      var last := vpn + n - 1;
      m := 0;
      MapsNone(S(), root, vpn, f, perm, take);
      while true
        invariant Valid() && Top(root) in node && m < n && a == vpn + m && pa == f + m
        invariant MapsTo(old(S()), S(), root, vpn, m, f, perm, take)
        invariant m == 0 ==> node == old(node)
        invariant |free| - MapCost(node.Keys, root, a, n - m) == |old(free)| - MapCost(old(node).Keys, root, vpn, n)
        decreases n - m
      {
        ghost var t := S();
        StillUnmapped(old(S()), t, root, vpn, m, f, perm, take, a);
        if take {
          assert old(Fillable(pa));
          StillHeld(old(S()), t, root, vpn, m, f, perm, take, pa);
        }
        var ok := MapPage(root, a, pa, perm, take);
        assert NodeKept(t, S(), root, Top(root));
        if !ok {
          MapsThenSame(old(S()), t, S(), root, vpn, m, f, perm, take);
          r := -1;
          return;
        }
        MapsOneMore(old(S()), t, S(), root, vpn, m, m + 1, a, f, pa, perm, take);
        m := m + 1;
        if a == last {
          break;
        }
        a := a + 1;
        pa := pa + 1;
      }
      r := 0;
    }

    // ---------- uvmunmap ----------

    /** One turn of uvmunmap's loop. */
    method UnmapPage(root: nat, vpn: nat, doFree: bool)
      requires Valid() && vpn < MAXVPN && PageAt(root, vpn) in page && (doFree <==> PageAt(root, vpn) in data)
      modifies this
      ensures Valid() && Unmaps(old(S()), S(), root, vpn, 1)
    {
      ghost var t, p := S(), PageAt(root, vpn);
      assert PageOk(t, p) && NodeOk(t, LowOf(p)) && NodeOk(t, Mid(root, p.i)) && SlotOk(t, LowOf(p), p.k)
        && DataOk(t, p);
      var pt := Walk(root, vpn, false);
      var k := PX0(vpn);
      var e := mem[pt].ptes[k];
      assert e == page[p];   // so none of the three panics
      DroppedOk(t, p);
      page, data, stale := page - {p}, data - {p}, stale + {Slot(LowOf(p), k)};
      if doFree {
        own := own[e.ppn := Held];
        assert S() == Dropped(t, p);
        KFree(e.ppn);
      }
      ghost var w := S();
      ClearedOk(w, LowOf(p), k);
      mem := mem[pt := Table(mem[pt].ptes[k := NOPTE])];
      stale := stale - {Slot(LowOf(p), k)};
      assert S() == Cleared(w, LowOf(p), k);
      UnmapsOne(t, S(), root, vpn);
    }

    /** uvmunmap removes exactly the requested pages, and frees their frames exactly
        if they are the page table's own. */
    method UvmUnmap(root: nat, vpn: nat, npages: nat, doFree: bool)
      requires Valid() && vpn + npages <= MAXVPN
      requires forall v | vpn <= v < vpn + npages :: PageAt(root, v) in page && (doFree <==> PageAt(root, v) in data)
      modifies this
      ensures Valid() && Unmaps(old(S()), S(), root, vpn, npages)
    {
      MapsNone(S(), root, vpn, 0, LINK, false);
      hide Unmaps, Ok;
      var a := vpn;
      ghost var m := 0;
      while a < vpn + npages
        invariant a == vpn + m && m <= npages && Valid() && Unmaps(old(S()), S(), root, vpn, m)
      {
        ghost var t := S();
        assert PageAt(root, a) in old(page);
        StillMapped(old(S()), t, root, vpn, m, a);
        UnmapPage(root, a, doFree);
        UnmapsOneMore(old(S()), t, S(), root, vpn, m, m + 1, a);
        a := a + 1;
        m := m + 1;
      }
    }

    // ---------- freewalk ----------

    /** One turn of freewalk's loop: frees what hangs under slot `i` of `n`. */
    method FreeChild(f: nat, i: nat, ghost n: Node)
      requires Sound() && n in node && node[n] == f && i < NPTE && NoPages(S(), n)
      requires forall s | s in stale :: !Under(n, s.node)
      modifies this
      ensures Sound() && n in node && node[n] == f && stale == old(stale)
      ensures if n.Low? then S() == old(S()) else Frees(old(S()), S(), Child(n, i), WHOLE)
      decreases Height(n), 0
    {
      ghost var t := S();
      assert NodeOk(t, n) && SlotOk(t, n, i) && Slot(n, i) !in stale;
      var e := mem[f].ptes[i];
      if e.flags.v && !e.flags.Leaf() {
        ghost var c := Child(n, i);
        FreeWalk(e.ppn, c);
        ghost var w := S();
        assert NodeGone(t, w, c, WHOLE, n) && NodeGone(t, w, c, WHOLE, c) && NodeOk(w, n);
        ClearedOk(w, n, i);
        mem := mem[f := Table(mem[f].ptes[i := NOPTE])];
        stale := stale - {Slot(n, i)};
        assert S() == Cleared(w, n, i);
        FreesCleared(t, w, S(), n, i);
      } else if !n.Low? {
        FreesAbsent(t, S(), Child(n, i));
      }
    }

    /** freewalk returns every page-table page at or below `n` to the free list, each
        exactly once, and nothing else. */
    method FreeWalk(f: nat, ghost n: Node)
      requires Sound() && n in node && node[n] == f && NoPages(S(), n)
      requires forall s | s in stale :: !Under(n, s.node)
      modifies this
      ensures Sound() && Frees(old(S()), S(), n, WHOLE) && stale == old(stale) + Above(n)
      decreases Height(n), 1
    {
      FreesNone(S(), n);
      hide Frees, Ok;
      var i := 0;
      while i < NPTE
        invariant 0 <= i <= NPTE && Sound() && n in node && node[n] == f
        invariant Frees(old(S()), S(), n, i) && stale == old(stale) && page == old(page)
      {
        ghost var u := S();
        FreeChild(f, i, n);
        FreesChild(old(S()), u, S(), n, i, i + 1);
        FreesPages(old(S()), S(), n, i + 1);
        i := i + 1;
      }
      ghost var u := S();
      FreesBare(old(S()), u, n);
      PrunedOk(u, n);
      node, own, stale := node - {n}, own[f := Held], stale + Above(n);
      assert S() == Pruned(u, n);
      KFree(f);
      FreesWhole(old(S()), u, S(), n);
    }
  }
}
