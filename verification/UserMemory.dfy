/** User address spaces (kernel/vm.c uvm*, kernel/proc.c proc_pagetable and
    proc_freepagetable). */
module UserMemory {
  import opened Blocks
  import opened PageTable
  import opened Vm

  /** The number of pages that `sz` bytes take: PGROUNDUP(sz) / PGSIZE. */
  function Pages(sz: nat): nat {
    (sz + PGSIZE - 1) / PGSIZE
  }

  ghost predicate NoneMapped(t: Store, root: nat, lo: nat, n: nat) {
    forall v {:trigger PageAt(root, v)} | lo <= v < lo + n :: PageAt(root, v) !in t.page
  }

  /** uvmcreate: an empty page table in a frame that was free; 0 if there is none. */
  method UvmCreate(m: Memory) returns (root: nat)
    requires m.Valid()
    modifies m
    ensures m.Valid()
    ensures root == 0 ==> m.free == [] && unchanged(m)
    ensures root != 0 ==> Top(root) !in old(m.node) && m.node == old(m.node)[Top(root) := root]
    ensures root != 0 ==> m.page == old(m.page) && m.data == old(m.data) && Kept(old(m.S()), m.S())
    ensures root != 0 ==> NoTable(old(m.S()), root) && |m.free| == |old(m.free)| - 1
  {
    root := m.KAlloc();
    if root == 0 {
      return;
    }
    var zero := seq(NPTE, i => NOPTE);
    ghost var t := m.S();
    PlantedOk(t, root, zero);
    m.mem := m.mem[root := Table(zero)];
    m.own := m.own[root := Tree(Top(root))];
    m.node := m.node[Top(root) := root];
    assert m.S() == Planted(t, root, zero);
    forall f: nat ensures FrameKept(old(m.S()), m.S(), f) {}
    NoTop(old(m.S()), root);
  }

  /** No page table has its root there. */
  ghost predicate NoTable(t: Store, root: nat) {
    (forall n | n in t.node :: n.root != root) && (forall p | p in t.page :: p.root != root)
  }

  lemma NoTop(t: Store, root: nat)
    requires Ok(t) && Top(root) !in t.node
    ensures NoTable(t, root)
  {
    forall n | n in t.node ensures n.root != root {
      assert NodeOk(t, n);
      if n.Low? {
        assert NodeOk(t, Mid(n.root, n.i));
      }
    }
    forall p | p in t.page ensures p.root != root {
      assert PageOk(t, p) && NodeOk(t, LowOf(p)) && NodeOk(t, Mid(p.root, p.i));
    }
  }

  /** kalloc, fill and mappages of one page, as in the loops of uvmalloc and uvmcopy:
      a new page with these contents, or nothing. */
  method NewPage(m: Memory, root: nat, vpn: nat, contents: seq<byte>, perm: Flags) returns (ok: bool)
    requires m.Valid() && Top(root) in m.node && vpn < MAXVPN && PageAt(root, vpn) !in m.page
    requires perm.Leaf() && |contents| == PGSIZE
    modifies m
    ensures m.Valid() && Top(root) in m.node
    ensures ok ==> Adds(old(m.S()), m.S(), root, vpn, 1) && PageAt(root, vpn) in m.page
    ensures ok ==> m.page[PageAt(root, vpn)].flags == perm.(v := true)
    ensures ok ==> m.page[PageAt(root, vpn)].ppn in m.mem && m.mem[m.page[PageAt(root, vpn)].ppn] == Bytes(contents)
    ensures !ok ==> SameMaps(old(m.S()), m.S(), root)
    ensures ok <==> 1 + PathCost(old(m.node).Keys, root, vpn) <= |old(m.free)|
    ensures ok ==> m.node.Keys == old(m.node).Keys + Path(root, vpn)
    ensures ok ==> |m.free| == |old(m.free)| - 1 - PathCost(old(m.node).Keys, root, vpn)
  {
    hide PathCost, Path, MapCost;
    CostNext(m.node.Keys, root, vpn, 1, vpn + 1);
    ghost var t := m.S();
    var f := m.KAlloc();
    if f == 0 {
      KeptNot(t);
      forall n: Node ensures NodeKept(t, t, root, n) {}
      ok := false;
      return;
    }
    StoredOk(m.S(), f, contents);
    ghost var t1 := m.S();
    m.mem := m.mem[f := Bytes(contents)];
    assert m.S() == Stored(t1, f, contents);
    ghost var w := m.S();
    var r, mapped := m.MapPages(root, vpn, 1, f, perm, true);
    assert NodeKept(w, m.S(), root, Top(root));
    if r != 0 {
      ghost var x := m.S();
      MapsNothing(w, x, root, vpn, f, perm);
      assert FrameKept(w, x, f);
      m.KFree(f);
      AddsFailed(t, w, x, m.S(), root, f);
      ok := false;
      return;
    }
    AddsOne(t, w, m.S(), root, vpn, f, perm);
    ok := true;
  }

  lemma MapsNothing(t: Store, u: Store, root: nat, lo: nat, f: nat, perm: Flags)
    requires MapsTo(t, u, root, lo, 0, f, perm, true)
    ensures SameMaps(t, u, root)
  {
    forall p: Page ensures PageSame(t, u, p) { assert PageMapped(t, u, root, lo, 0, f, perm, true, p); }
    forall g: nat ensures FrameKept(t, u, g) { assert FrameMapped(t, u, 0, f, true, g); }
    SamePages(t, u);
  }

  // ---------- Growing and shrinking ----------

  lemma PagesUpTo(v: nat, sz: nat)
    ensures PGSIZE * v < sz <==> v < Pages(sz)
    ensures Pages(PGSIZE * v) == v
  {
  }

  lemma PagesMonotone(a: nat, b: nat)
    requires a <= b
    ensures Pages(a) <= Pages(b)
  {
  }

  /** A page that belongs to its page table is not touched when others are added. */
  lemma PageStays(t: Store, u: Store, root: nat, lo: nat, n: nat, p: Page)
    requires Ok(t) && Adds(t, u, root, lo, n) && p in t.data
    ensures p in t.page && p in u.page && u.page[p] == t.page[p] && p in u.data
    ensures t.page[p].ppn in t.mem && t.page[p].ppn in u.mem && u.mem[t.page[p].ppn] == t.mem[t.page[p].ppn]
  {
    assert DataOk(t, p) && PageNew(t, u, root, lo, n, p) && FrameNew(t, u, root, lo, n, t.page[p].ppn);
  }

  /** uvmdealloc. */
  method UvmDealloc(m: Memory, root: nat, oldsz: nat, newsz: nat) returns (r: nat)
    requires m.Valid() && Pages(oldsz) <= MAXVPN
    requires forall v {:trigger PageAt(root, v)} | Pages(newsz) <= v < Pages(oldsz) :: PageAt(root, v) in m.data
    modifies m
    ensures m.Valid() && r == if newsz < oldsz then newsz else oldsz
    ensures Unmaps(old(m.S()), m.S(), root, Pages(newsz), if newsz < oldsz then Pages(oldsz) - Pages(newsz) else 0)
  {
    MapsNone(m.S(), root, Pages(newsz), 0, LINK, false);
    if newsz >= oldsz {
      r := oldsz;
      return;
    }
    PagesMonotone(newsz, oldsz);
    if Pages(newsz) < Pages(oldsz) {
      forall v | Pages(newsz) <= v < Pages(oldsz) ensures PageAt(root, v) in m.page
        { assert DataOk(m.S(), PageAt(root, v)); }
      m.UvmUnmap(root, Pages(newsz), Pages(oldsz) - Pages(newsz), true);
    }
    r := newsz;
  }

  ghost predicate Zeroed(u: Store, root: nat, perm: Flags, v: nat) {
    var p := PageAt(root, v);
    && p in u.data && p in u.page && u.page[p].flags == perm && u.page[p].ppn in u.mem && u.mem[u.page[p].ppn].Bytes?
    && |u.mem[u.page[p].ppn].data| == PGSIZE && forall i | 0 <= i < PGSIZE :: u.mem[u.page[p].ppn].data[i] == 0
  }

  ghost predicate AllZeroed(u: Store, root: nat, perm: Flags, lo: nat, n: nat) {
    forall v {:trigger Zeroed(u, root, perm, v)} | lo <= v < lo + n :: Zeroed(u, root, perm, v)
  }

  lemma StillZeroed(t: Store, u: Store, root: nat, perm: Flags, lo: nat, n: nat, n1: nat, vpn: nat)
    requires Ok(t) && vpn == lo + n && n1 == n + 1 && Adds(t, u, root, vpn, 1)
    requires AllZeroed(t, root, perm, lo, n) && Zeroed(u, root, perm, vpn)
    ensures AllZeroed(u, root, perm, lo, n1)
  {
    forall v | lo <= v < lo + n1 ensures Zeroed(u, root, perm, v) {
      if v != vpn {
        assert Zeroed(t, root, perm, v);
        PageStays(t, u, root, vpn, 1, PageAt(root, v));
      }
    }
  }

  lemma AddedData(t: Store, u: Store, root: nat, lo: nat, n: nat, v: nat)
    requires Adds(t, u, root, lo, n) && lo <= v < lo + n && v < MAXVPN
    ensures PageAt(root, v) in u.data
  {
    VpnOfPageAt(root, v);
    assert PageNew(t, u, root, lo, n, PageAt(root, v));
  }

  lemma StillNotMapped(t: Store, u: Store, root: nat, lo: nat, n: nat, vpn: nat)
    requires Adds(t, u, root, lo, n) && lo + n <= vpn < MAXVPN && PageAt(root, vpn) !in t.page
    ensures PageAt(root, vpn) !in u.page
  {
    assert PageNew(t, u, root, lo, n, PageAt(root, vpn));
    VpnOfPageAt(root, vpn);
  }

  /** The error path of uvmalloc: take back the `k` pages added so far. */
  method UndoAlloc(m: Memory, root: nat, a: nat, oldsz: nat, ghost lo: nat, ghost k: nat, ghost t: Store)
    requires m.Valid() && a == PGSIZE * (lo + k) && oldsz == PGSIZE * lo && lo + k <= MAXVPN
      && Adds(t, m.S(), root, lo, k)
    modifies m
    ensures m.Valid() && SameMaps(t, m.S(), root)
  {
    ghost var u := m.S();
    PagesUpTo(lo, 0);
    PagesUpTo(lo + k, 0);
    forall v | lo <= v < lo + k ensures PageAt(root, v) in m.data { AddedData(t, u, root, lo, k, v); }
    var _ := UvmDealloc(m, root, a, oldsz);
    AddsThenUnmaps(t, u, m.S(), root, lo, k);
  }

  /** uvmalloc so far: `k` of `n` pages are added. */
  ghost predicate Growing(t: Store, u: Store, root: nat, perm: Flags, lo: nat, n: nat, k: nat) {
    && k <= n && Adds(t, u, root, lo, k) && AllZeroed(u, root, perm, lo, k) && Top(root) in u.node
    && |u.free| - GrowCost(u.node.Keys, root, lo + k, n - k) == |t.free| - GrowCost(t.node.Keys, root, lo, n)
  }

  /** One turn of uvmalloc's loop; the `k` pages added are taken back if it fails. */
  method GrowPage(m: Memory, root: nat, a: nat, base: nat, perm: Flags, ghost lo: nat, ghost n: nat, ghost k: nat,
                  ghost t: Store)
    returns (ok: bool)
    requires m.Valid() && k < n && lo + n <= MAXVPN && a == PGSIZE * (lo + k) && base == PGSIZE * lo
    requires Growing(t, m.S(), root, perm, lo, n, k) && NoneMapped(t, root, lo, n) && Top(root) in t.node
    requires perm.Leaf() && perm.v
    modifies m
    ensures m.Valid()
    ensures ok ==> Growing(t, m.S(), root, perm, lo, n, k + 1)
    ensures !ok ==> SameMaps(t, m.S(), root) && |t.free| < GrowCost(t.node.Keys, root, lo, n)
  {
    hide Adds, AllZeroed, Ok, PathCost, Path, GrowCost, Zeroed;
    var vpn := a / PGSIZE;
    ghost var u := m.S();
    CostNext(u.node.Keys, root, vpn, n - k, vpn + 1);
    assert PageAt(root, vpn) !in t.page;
    StillNotMapped(t, u, root, lo, k, vpn);
    var zero := seq(PGSIZE, i => 0);
    ok := NewPage(m, root, vpn, zero, perm);
    if !ok {
      AddsThenSame(t, u, m.S(), root, lo, k);
      UndoAlloc(m, root, a, base, lo, k, t);
      return;
    }
    AddsOneMore(t, u, m.S(), root, lo, k, k + 1, vpn);
    NewZeroed(u, m.S(), root, perm, vpn, zero);
    StillZeroed(u, m.S(), root, perm, lo, k, k + 1, vpn);
  }

  lemma NewZeroed(t: Store, u: Store, root: nat, perm: Flags, vpn: nat, zero: seq<byte>)
    requires Adds(t, u, root, vpn, 1) && vpn < MAXVPN && PageAt(root, vpn) in u.page
    requires u.page[PageAt(root, vpn)].flags == perm && u.page[PageAt(root, vpn)].ppn in u.mem
      && u.mem[u.page[PageAt(root, vpn)].ppn] == Bytes(zero)
    requires |zero| == PGSIZE && forall i | 0 <= i < PGSIZE :: zero[i] == 0
    ensures Zeroed(u, root, perm, vpn)
  {
    AddedData(t, u, root, vpn, 1, vpn);
  }

  lemma NotGrown(t: Store, root: nat, perm: Flags, lo: nat, n: nat)
    requires Ok(t) && Top(root) in t.node
    ensures Growing(t, t, root, perm, lo, n, 0) && SameMaps(t, t, root)
  {
    AddsNone(t, root, lo);
    AddsNothing(t, t, root, lo);
  }

  /** uvmalloc grows the user memory by zeroed pages, exactly if there are free frames
      for them and the page-table pages they take; if memory runs out, everything that
      a user of page tables can see is as before, and no frame is leaked. */
  method UvmAlloc(m: Memory, root: nat, oldsz: nat, newsz: nat, xperm: Flags) returns (r: nat)
    requires m.Valid() && Top(root) in m.node && newsz <= PGSIZE * MAXVPN
    requires NoneMapped(m.S(), root, Pages(oldsz), if newsz < oldsz then 0 else Pages(newsz) - Pages(oldsz))
    modifies m
    ensures m.Valid() && Top(root) in m.node
    ensures newsz < oldsz ==> r == oldsz && unchanged(m)
    ensures oldsz <= newsz ==> r == newsz || r == 0
    ensures oldsz <= newsz && r == newsz != 0 ==>
      && Adds(old(m.S()), m.S(), root, Pages(oldsz), Pages(newsz) - Pages(oldsz))
      && AllZeroed(m.S(), root, xperm.(v := true, r := true, u := true), Pages(oldsz), Pages(newsz) - Pages(oldsz))
    ensures r == 0 ==> SameMaps(old(m.S()), m.S(), root)
    ensures oldsz <= newsz ==> (r == newsz <==>
      GrowCost(old(m.node).Keys, root, Pages(oldsz), Pages(newsz) - Pages(oldsz)) <= |old(m.free)|)
  {
    hide Adds, AllZeroed, Ok, Pages, GrowCost, NoneMapped, SameMaps;
    if oldsz <= newsz {
      PagesMonotone(oldsz, newsz);
    }
    ghost var t, lo, n := m.S(), Pages(oldsz), if newsz < oldsz then 0 else Pages(newsz) - Pages(oldsz);
    var perm := xperm.(v := true, r := true, u := true);
    NotGrown(t, root, perm, lo, n);
    if newsz < oldsz {
      r := oldsz;
      return;
    }
    PagesUpTo(MAXVPN, newsz);
    var base := Pages(oldsz) * PGSIZE;
    var a := base;
    ghost var k := 0;
    while a < newsz
      invariant a == PGSIZE * (lo + k) && m.Valid() && Growing(t, m.S(), root, perm, lo, n, k)
      invariant k == 0 ==> SameMaps(t, m.S(), root)
    {
      PagesUpTo(lo + k, newsz);
      var ok := GrowPage(m, root, a, base, perm, lo, n, k, t);
      if !ok {
        SameTop(t, m.S(), root);
        r := 0;
        return;
      }
      k := k + 1;
      a := a + PGSIZE;
    }
    PagesUpTo(lo + k, newsz);
    CostNext(m.node.Keys, root, lo + k, 1, lo + k + 1);
    r := newsz;
  }

  lemma SameTop(t: Store, u: Store, root: nat)
    requires SameMaps(t, u, root) && Top(root) in t.node
    ensures Top(root) in u.node
  {
    assert NodeKept(t, u, root, Top(root));
  }

  lemma AddsNothing(t: Store, u: Store, root: nat, lo: nat)
    requires Adds(t, u, root, lo, 0)
    ensures SameMaps(t, u, root)
  {
    forall p: Page ensures PageSame(t, u, p) { assert PageNew(t, u, root, lo, 0, p); }
    forall f: nat ensures FrameKept(t, u, f) { assert FrameNew(t, u, root, lo, 0, f); }
    SamePages(t, u);
  }

  // ---------- uvmcopy ----------

  /** In `u`, page `v` of `to` is a copy of what page `v` of `from` is in `t`: the same
      contents and flags in another frame. */
  ghost predicate Copied(t: Store, u: Store, from: nat, to: nat, v: nat) {
    var p, q := PageAt(from, v), PageAt(to, v);
    && q in u.data && q in u.page && p in t.page && u.page[q].flags == t.page[p].flags
    && u.page[q].ppn in u.mem && t.page[p].ppn in t.mem && u.mem[u.page[q].ppn] == t.mem[t.page[p].ppn]
    && u.page[q].ppn != t.page[p].ppn
  }

  ghost predicate AllCopied(t: Store, u: Store, from: nat, to: nat, n: nat) {
    forall v {:trigger Copied(t, u, from, to, v)} | 0 <= v < n :: Copied(t, u, from, to, v)
  }

  lemma StillCopied(t: Store, u: Store, w: Store, from: nat, to: nat, n: nat, n1: nat)
    requires Ok(u) && n1 == n + 1 && Adds(u, w, to, n, 1) && AllCopied(t, u, from, to, n) && Copied(t, w, from, to, n)
    ensures AllCopied(t, w, from, to, n1)
  {
    forall v | 0 <= v < n1 ensures Copied(t, w, from, to, v) {
      if v != n {
        assert Copied(t, u, from, to, v);
        PageStays(u, w, to, n, 1, PageAt(to, v));
      }
    }
  }

  /** uvmcopy gives the child equal contents and flags in frames of its own, or leaves
      both page tables as they were. */
  method UvmCopy(m: Memory, from: nat, to: nat, sz: nat) returns (r: int)
    requires m.Valid() && Top(from) in m.node && Top(to) in m.node && from != to && sz <= PGSIZE * MAXVPN
    requires forall v {:trigger PageAt(from, v)} | 0 <= v < Pages(sz) :: PageAt(from, v) in m.data
    requires NoneMapped(m.S(), to, 0, Pages(sz))
    modifies m
    ensures m.Valid() && Top(to) in m.node && (r == 0 || r == -1)
    ensures r == 0 ==> Adds(old(m.S()), m.S(), to, 0, Pages(sz)) && AllCopied(old(m.S()), m.S(), from, to, Pages(sz))
    ensures r == -1 ==> SameMaps(old(m.S()), m.S(), to)
    ensures r == 0 <==> GrowCost(old(m.node).Keys, to, 0, Pages(sz)) <= |old(m.free)|
  {
    hide Adds, Ok, Pages, GrowCost, PathCost, Path, Copied;
    PagesUpTo(MAXVPN, sz);
    ghost var t, n := m.S(), Pages(sz);
    AddsNone(t, to, 0);
    var i := 0;
    ghost var k := 0;
    hide AllCopied;
    while i < sz
      invariant i == PGSIZE * k && k <= n && m.Valid() && Top(from) in m.node && Top(to) in m.node
      invariant Adds(t, m.S(), to, 0, k) && AllCopied(t, m.S(), from, to, k)
      invariant |m.free| - GrowCost(m.node.Keys, to, k, n - k) == |t.free| - GrowCost(t.node.Keys, to, 0, n)
    {
      PagesUpTo(k, sz);
      CostNext(m.node.Keys, to, k, n - k, k + 1);
      var vpn := i / PGSIZE;
      ghost var u, p := m.S(), PageAt(from, k);
      assert p in t.data && PageAt(to, k) !in t.page;
      PageStays(t, u, to, 0, k, p);
      StillNotMapped(t, u, to, 0, k, k);
      var e, contents := ReadPage(m, from, vpn);
      var ok := NewPage(m, to, vpn, contents, e.flags);
      if !ok {
        AddsThenSame(t, u, m.S(), to, 0, k);
        UndoCopy(m, to, i, k, t);
        r := -1;
        return;
      }
      AddsOneMore(t, u, m.S(), to, 0, k, k + 1, vpn);
      CopiedOne(t, u, m.S(), from, to, k, contents);
      StillCopied(t, u, m.S(), from, to, k, k + 1);
      assert NodeKept(u, m.S(), to, Top(from)) by { AddsNodes(u, m.S(), to, vpn, 1); }
      k := k + 1;
      i := i + PGSIZE;
    }
    PagesUpTo(k, sz);
    CostNext(m.node.Keys, to, k, 1, k + 1);
    r := 0;
  }

  lemma AddsNodes(t: Store, u: Store, root: nat, lo: nat, n: nat)
    requires Adds(t, u, root, lo, n)
    ensures NodesGrew(t, u, root)
  {
  }

  lemma CopiedOne(t: Store, u: Store, w: Store, from: nat, to: nat, v: nat, contents: seq<byte>)
    requires Ok(u) && Ok(w) && v < MAXVPN && from != to && PageAt(from, v) in t.page && PageAt(from, v) in u.data
      && PageAt(from, v) in u.page
    requires u.page[PageAt(from, v)] == t.page[PageAt(from, v)] && t.page[PageAt(from, v)].ppn in t.mem
    requires t.mem[t.page[PageAt(from, v)].ppn] == Bytes(contents)
    requires Adds(u, w, to, v, 1) && PageAt(to, v) in w.page
      && w.page[PageAt(to, v)].flags == t.page[PageAt(from, v)].flags
    requires w.page[PageAt(to, v)].ppn in w.mem && w.mem[w.page[PageAt(to, v)].ppn] == Bytes(contents)
    ensures Copied(t, w, from, to, v)
  {
    VpnOfPageAt(to, v);
    PageStays(u, w, to, v, 1, PageAt(from, v));
    assert PageNew(u, w, to, v, 1, PageAt(to, v)) && DataOk(w, PageAt(to, v)) && DataOk(w, PageAt(from, v));
  }

  /** The PTE and the contents of a page that walk finds. */
  method ReadPage(m: Memory, root: nat, vpn: nat) returns (e: Pte, contents: seq<byte>)
    requires m.Valid() && vpn < MAXVPN && PageAt(root, vpn) in m.data
    modifies m
    ensures unchanged(m) && |contents| == PGSIZE && PageAt(root, vpn) in m.page && e == m.page[PageAt(root, vpn)]
    ensures e.flags.v && e.flags.Leaf() && e.ppn in m.mem && m.mem[e.ppn] == Bytes(contents)
  {
    ghost var t, p := m.S(), PageAt(root, vpn);
    assert DataOk(t, p) && PageOk(t, p) && NodeOk(t, LowOf(p)) && NodeOk(t, Mid(root, p.i)) && SlotOk(t, LowOf(p), p.k);
    var pt := m.Walk(root, vpn, false);
    e := m.mem[pt].ptes[PX0(vpn)];
    contents := m.mem[e.ppn].data;
  }

  /** The error path of uvmcopy. */
  method UndoCopy(m: Memory, to: nat, i: nat, ghost k: nat, ghost t: Store)
    requires m.Valid() && i == PGSIZE * k && k <= MAXVPN && Adds(t, m.S(), to, 0, k)
    requires Top(to) in t.node
    modifies m
    ensures m.Valid() && SameMaps(t, m.S(), to) && Top(to) in m.node
  {
    ghost var u := m.S();
    forall v {:trigger PageAt(to, v)} | 0 <= v < k ensures PageAt(to, v) in m.page && PageAt(to, v) in m.data {
      AddedData(t, u, to, 0, k, v);
      assert DataOk(u, PageAt(to, v));
    }
    m.UvmUnmap(to, 0, i / PGSIZE, true);
    AddsThenUnmaps(t, u, m.S(), to, 0, k);
    assert NodeKept(t, m.S(), to, Top(to));
  }

  // ---------- Freeing ----------

  /** The page table `root` maps the first `n` pages, all its own, and nothing else. */
  ghost predicate UserPages(t: Store, root: nat, n: nat) {
    && (forall v {:trigger PageAt(root, v)} | 0 <= v < n :: PageAt(root, v) in t.data)
    && (forall p | p in t.page && p.root == root :: Hits(p, root, 0, n))
  }

  ghost predicate Elsewhere(t: Store, u: Store, root: nat, n: Node) {
    if n.root == root then n !in u.node else (n in u.node <==> n in t.node) && (n in t.node ==> u.node[n] == t.node[n])
  }

  ghost predicate PageElsewhere(t: Store, u: Store, root: nat, p: Page) {
    if p.root == root then p !in u.page && p !in u.data else PageSame(t, u, p)
  }

  ghost predicate BelongsTo(t: Store, f: nat, root: nat) {
    f in t.own && ((t.own[f].Tree? && t.own[f].node.root == root) || (t.own[f].Data? && t.own[f].page.root == root))
  }

  ghost predicate FrameElsewhere(t: Store, u: Store, root: nat, f: nat) {
    && (f in t.own && t.own[f].Free? ==> f in u.own && u.own[f].Free?)
    && if BelongsTo(t, f, root) then f in u.own && u.own[f].Free? else FrameKept(t, u, f)
  }

  /** From `t` to `u` page table `root` is gone: every frame of it, page-table page or
      data, is free, and nothing else changed. */
  ghost predicate Destroys(t: Store, u: Store, root: nat) {
    && (forall n {:trigger Elsewhere(t, u, root, n)} :: Elsewhere(t, u, root, n))
    && (forall p {:trigger PageElsewhere(t, u, root, p)} :: PageElsewhere(t, u, root, p))
    && (forall f {:trigger FrameElsewhere(t, u, root, f)} :: FrameElsewhere(t, u, root, f))
  }

  lemma UnmapsThenFrees(t: Store, u: Store, v: Store, root: nat, n: nat)
    requires Ok(t) && Ok(u) && UserPages(t, root, n) && Unmaps(t, u, root, 0, n) && Frees(u, v, Top(root), WHOLE)
    ensures Destroys(t, v, root)
  {
    forall x: Node ensures Elsewhere(t, v, root, x) { assert NodeGone(u, v, Top(root), WHOLE, x); }
    forall p: Page ensures PageElsewhere(t, v, root, p) { assert PageGone(t, u, root, 0, n, p) && DataOk(t, p); }
    forall f: nat ensures FrameElsewhere(t, v, root, f) {
      assert FrameGone(t, u, root, 0, n, f) && FrameFreed(u, v, Top(root), WHOLE, f) && OwnOk(t, f) && OwnOk(u, f);
      if OwnedBy(t, f, root, 0, n) {
        GoneIsFree(t, u, root, 0, n, f);
      }
      if f in t.own && t.own[f].Tree? {
        assert NodeOk(u, t.own[f].node);
      }
      if f in u.own && u.own[f].Tree? {
        assert NodeOk(t, u.own[f].node);
      }
    }
  }

  /** uvmfree. */
  method UvmFree(m: Memory, root: nat, sz: nat)
    requires m.Valid() && Top(root) in m.node && Pages(sz) <= MAXVPN && UserPages(m.S(), root, Pages(sz))
    modifies m
    ensures m.Valid() && Destroys(old(m.S()), m.S(), root)
  {
    ghost var t, n := m.S(), Pages(sz);
    MapsNone(t, root, 0, 0, LINK, false);
    if sz > 0 {
      forall v {:trigger PageAt(root, v)} | 0 <= v < n ensures PageAt(root, v) in m.page
        { assert DataOk(t, PageAt(root, v)); }
      m.UvmUnmap(root, 0, Pages(sz), true);
    }
    ghost var u := m.S();
    forall p | p in u.page ensures !PageUnder(Top(root), p) { assert PageGone(t, u, root, 0, n, p); }
    assert NodeOk(u, Top(root));
    m.FreeWalk(root, Top(root));
    UnmapsThenFrees(t, u, m.S(), root, n);
  }

  // ---------- proc_pagetable ----------

  const TRAMPOLINE: nat := MAXVPN - 1
  const TRAPFRAME: nat := MAXVPN - 2

  ghost predicate NodeOutside(t: Store, u: Store, root: nat, n: Node) {
    n.root != root ==> (n in u.node <==> n in t.node) && (n in t.node ==> u.node[n] == t.node[n])
  }

  ghost predicate PageOutside(t: Store, u: Store, root: nat, p: Page) {
    p.root != root ==> PageSame(t, u, p)
  }

  /** From `t` to `u` only page table `root` changed, and not which frames hold data. */
  ghost predicate Within(t: Store, u: Store, root: nat) {
    && (forall n {:trigger NodeOutside(t, u, root, n)} :: NodeOutside(t, u, root, n))
    && (forall p {:trigger PageOutside(t, u, root, p)} :: PageOutside(t, u, root, p))
    && Kept(t, u) && u.data == t.data
  }

  lemma WithinTwice(t: Store, u: Store, v: Store, root: nat)
    requires Within(t, u, root) && Within(u, v, root)
    ensures Within(t, v, root)
  {
    forall n: Node ensures NodeOutside(t, v, root, n)
      { assert NodeOutside(t, u, root, n) && NodeOutside(u, v, root, n); }
    forall p: Page ensures PageOutside(t, v, root, p)
      { assert PageOutside(t, u, root, p) && PageOutside(u, v, root, p); }
    KeptTwice(t, u, v);
  }

  lemma MapsWithin(t: Store, u: Store, root: nat, lo: nat, n: nat, f: nat, perm: Flags)
    requires Ok(t) && MapsTo(t, u, root, lo, n, f, perm, false) && forall p | Hits(p, root, lo, n) :: p !in t.page
    ensures Within(t, u, root)
  {
    forall x: Node ensures NodeOutside(t, u, root, x) { assert NodeKept(t, u, root, x); }
    forall p: Page ensures PageOutside(t, u, root, p) && (p in u.data <==> p in t.data) {
      assert PageMapped(t, u, root, lo, n, f, perm, false, p) && DataOk(t, p);
    }
    forall g: nat ensures FrameKept(t, u, g) { assert FrameMapped(t, u, n, f, false, g); }
  }

  lemma UnmapsWithin(t: Store, u: Store, root: nat, lo: nat, n: nat)
    requires Ok(t) && Unmaps(t, u, root, lo, n) && forall p | Hits(p, root, lo, n) :: p !in t.data
    ensures Within(t, u, root)
  {
    forall x: Node ensures NodeOutside(t, u, root, x) {}
    forall p: Page ensures PageOutside(t, u, root, p) && (p in u.data <==> p in t.data) {
      assert PageGone(t, u, root, lo, n, p);
    }
    forall g: nat ensures FrameKept(t, u, g) { assert FrameGone(t, u, root, lo, n, g) && OwnOk(t, g); }
  }

  /** Building a page table and destroying it again restores everything. */
  lemma BuildThenDestroy(t: Store, u: Store, v: Store, root: nat)
    requires Ok(t) && Ok(u) && Ok(v) && NoTable(t, root) && Within(t, u, root) && Destroys(u, v, root)
    ensures v.node == t.node && v.page == t.page && v.data == t.data && Kept(t, v)
    ensures forall f | f in t.own && t.own[f].Free? :: f in v.own && v.own[f].Free?
  {
    forall n: Node ensures (n in v.node <==> n in t.node) && (n in t.node ==> v.node[n] == t.node[n]) {
      assert NodeOutside(t, u, root, n) && Elsewhere(u, v, root, n);
    }
    forall p: Page ensures PageSame(t, v, p) {
      assert PageOutside(t, u, root, p) && PageElsewhere(u, v, root, p) && DataOk(t, p);
    }
    SamePages(t, v);
    forall f: nat ensures FrameKept(t, v, f) && (f in t.own && t.own[f].Free? ==> f in v.own && v.own[f].Free?) {
      assert FrameKept(t, u, f) && FrameElsewhere(u, v, root, f) && OwnOk(t, f) && OwnOk(u, f);
      if f in u.own && u.own[f].Tree? {
        assert NodeOutside(t, u, root, u.own[f].node) && NodeOk(t, u.own[f].node);
      }
      if f in u.own && u.own[f].Data? {
        assert DataOk(t, u.own[f].page);
      }
    }
  }

  const RX: Flags := Flags(false, true, false, true, false, 0)
  const RW: Flags := Flags(false, true, true, false, false, 0)

  /** What proc_pagetable makes, with `n` pages of user memory. */
  ghost predicate ProcSpace(t: Store, root: nat, n: nat) {
    && Top(root) in t.node && n <= TRAPFRAME
    && PageAt(root, TRAMPOLINE) in t.page && PageAt(root, TRAMPOLINE) !in t.data
    && PageAt(root, TRAPFRAME) in t.page && PageAt(root, TRAPFRAME) !in t.data
    && (forall v {:trigger PageAt(root, v)} | 0 <= v < n :: PageAt(root, v) in t.data)
    && (forall p | p in t.page && p.root == root ::
          p == PageAt(root, TRAMPOLINE) || p == PageAt(root, TRAPFRAME) || Hits(p, root, 0, n))
  }

  /** Map a page that is not the page table's own in a page table that does not map it. */
  method MapShared(m: Memory, root: nat, vpn: nat, f: nat, perm: Flags) returns (r: int)
    requires m.Valid() && Top(root) in m.node && vpn < MAXVPN && PageAt(root, vpn) !in m.page && perm.Leaf() && !perm.u
    modifies m
    ensures m.Valid() && Top(root) in m.node && Within(old(m.S()), m.S(), root) && (r == 0 || r == -1)
    ensures r == 0 ==> m.page == old(m.page)[PageAt(root, vpn) := Pte(f, perm.(v := true))]
    ensures r == -1 ==> m.page == old(m.page)
    ensures r == 0 <==> PathCost(old(m.node).Keys, root, vpn) <= |old(m.free)|
    ensures r == 0 ==> m.node.Keys == old(m.node).Keys + Path(root, vpn)
    ensures r == 0 ==> |m.free| == |old(m.free)| - PathCost(old(m.node).Keys, root, vpn)
  {
    ghost var t := m.S();
    ghost var mapped;
    r, mapped := m.MapPages(root, vpn, 1, f, perm, false);
    ghost var u := m.S();
    assert NodeKept(t, u, root, Top(root));
    VpnOfPageAt(root, vpn);
    forall p ensures Hits(p, root, vpn, 1) <==> p == PageAt(root, vpn) { HitsMore(p, root, vpn, 0, 1, vpn); }
    MapsWithin(t, u, root, vpn, mapped, f, perm);
    forall p: Page ensures if mapped == 1 && p == PageAt(root, vpn)
      then p in u.page && u.page[p] == Pte(f, perm.(v := true)) else PageSame(t, u, p) {
      assert PageMapped(t, u, root, vpn, mapped, f, perm, false, p);
    }
  }

  /** Unmap such a page. */
  method UnmapShared(m: Memory, root: nat, vpn: nat)
    requires m.Valid() && vpn < MAXVPN && PageAt(root, vpn) in m.page && PageAt(root, vpn) !in m.data
    modifies m
    ensures m.Valid() && Within(old(m.S()), m.S(), root) && m.page == old(m.page) - {PageAt(root, vpn)}
    ensures m.node == old(m.node) && m.data == old(m.data)
  {
    ghost var t := m.S();
    forall p ensures Hits(p, root, vpn, 1) <==> p == PageAt(root, vpn) { HitsMore(p, root, vpn, 0, 1, vpn); }
    m.UvmUnmap(root, vpn, 1, false);
    ghost var u := m.S();
    UnmapsWithin(t, u, root, vpn, 1);
    forall p: Page ensures if p == PageAt(root, vpn) then p !in u.page else PageSame(t, u, p) {
      assert PageGone(t, u, root, vpn, 1, p);
    }
  }

  lemma WithinThenDestroys(t: Store, u: Store, v: Store, root: nat)
    requires Ok(t) && Ok(u) && Within(t, u, root) && u.node == t.node && Destroys(u, v, root)
    ensures Destroys(t, v, root)
  {
    forall n: Node ensures Elsewhere(t, v, root, n) { assert Elsewhere(u, v, root, n); }
    forall p: Page ensures PageElsewhere(t, v, root, p)
      { assert PageOutside(t, u, root, p) && PageElsewhere(u, v, root, p); }
    forall f: nat ensures FrameElsewhere(t, v, root, f) {
      assert FrameKept(t, u, f) && FrameElsewhere(u, v, root, f) && OwnOk(t, f) && OwnOk(u, f);
      if f in t.own && t.own[f].Tree? {
        assert NodeOk(u, t.own[f].node);
      }
      if f in u.own && u.own[f].Tree? {
        assert NodeOk(t, u.own[f].node);
      }
    }
  }

  /** proc_pagetable: a page table with only the trampoline and the trapframe, or none
      and every frame where it was. */
  method ProcPagetable(m: Memory, trampoline: nat, trapframe: nat) returns (root: nat)
    requires m.Valid()
    modifies m
    ensures m.Valid()
    ensures root != 0 ==> NoTable(old(m.S()), root) && ProcSpace(m.S(), root, 0) && Within(old(m.S()), m.S(), root)
    ensures root != 0 ==> m.page == old(m.page)[PageAt(root, TRAMPOLINE) := Pte(trampoline, RX.(v := true))]
                                               [PageAt(root, TRAPFRAME) := Pte(trapframe, RW.(v := true))]
    ensures root == 0 ==>
      m.node == old(m.node) && m.page == old(m.page) && m.data == old(m.data) && Kept(old(m.S()), m.S())
    ensures root == 0 ==> forall f | f in old(m.own) && old(m.own)[f].Free? :: f in m.own && m.own[f].Free?
    ensures root == 0 <==> |old(m.free)| < 3
  {
    hide PathCost, Path, NodeAt;
    ghost var t := m.S();
    root := UvmCreate(m);
    if root == 0 {
      KeptNot(t);
      return;
    }
    ghost var u := m.S();
    TopPaths(t, u, root);
    assert Within(t, u, root) by {
      forall n: Node ensures NodeOutside(t, u, root, n) {}
      forall p: Page ensures PageOutside(t, u, root, p) {}
    }
    VpnOfPageAt(root, TRAMPOLINE);
    VpnOfPageAt(root, TRAPFRAME);
    assert DataOk(t, PageAt(root, TRAMPOLINE)) && DataOk(t, PageAt(root, TRAPFRAME));
    var r := MapShared(m, root, TRAMPOLINE, trampoline, RX);
    ghost var v := m.S();
    WithinTwice(t, u, v, root);
    if r < 0 {
      UvmFree(m, root, 0);
      BuildThenDestroy(t, v, m.S(), root);
      root := 0;
      return;
    }
    r := MapShared(m, root, TRAPFRAME, trapframe, RW);
    ghost var w := m.S();
    WithinTwice(t, v, w, root);
    if r < 0 {
      UnmapShared(m, root, TRAMPOLINE);
      ghost var x := m.S();
      WithinTwice(t, w, x, root);
      UvmFree(m, root, 0);
      BuildThenDestroy(t, x, m.S(), root);
      ghost var top := root;
      root := 0;
      TrapframePath(v.node.Keys, top);
      assert false;   // the trampoline's page-table pages are the trapframe's
      return;
    }
  }

  lemma TopPaths(t: Store, u: Store, root: nat)
    requires NoTable(t, root) && u.node.Keys == t.node.Keys + {Top(root)}
    ensures PathCost(u.node.Keys, root, TRAMPOLINE) == 2
  {
    assert forall n: Node :: n in u.node.Keys <==> n in u.node;
  }

  lemma TrapframePath(nodes: set<Node>, root: nat)
    ensures Path(root, TRAMPOLINE) <= nodes ==> PathCost(nodes, root, TRAPFRAME) == 0
  {
    assert NodeAt(root, TRAPFRAME, 0) == NodeAt(root, TRAMPOLINE, 0);
    assert NodeAt(root, TRAPFRAME, 1) == NodeAt(root, TRAMPOLINE, 1);
  }

  /** proc_freepagetable gives back every frame of the page table. */
  method ProcFreePagetable(m: Memory, root: nat, sz: nat)
    requires m.Valid() && ProcSpace(m.S(), root, Pages(sz))
    modifies m
    ensures m.Valid() && Destroys(old(m.S()), m.S(), root)
  {
    ghost var t := m.S();
    VpnOfPageAt(root, TRAMPOLINE);
    VpnOfPageAt(root, TRAPFRAME);
    UnmapShared(m, root, TRAMPOLINE);
    ghost var u := m.S();
    UnmapShared(m, root, TRAPFRAME);
    ghost var v := m.S();
    WithinTwice(t, u, v, root);
    UvmFree(m, root, sz);
    WithinThenDestroys(t, v, m.S(), root);
  }
}
