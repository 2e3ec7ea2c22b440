/** Sv39 page tables in physical memory (kernel/vm.c, kernel/kalloc.c): which frame is
    what, and the map from pages to frames that the trees stand for.

    Physical memory is a map from frame numbers to frames; a frame is a free-list
    link, a page-table page or plain bytes, according to its last use. */
module PageTable {
  import opened Arithmetic
  import opened Blocks

  const PGSIZE: nat := 4096
  const NPTE: nat := 512

  /** Page numbers below MAXVA. */
  const MAXVPN: nat := 0x400_0000

  /** PTE_V, PTE_R, PTE_W, PTE_X, PTE_U and the five other flag bits. */
  datatype Flags = Flags(v: bool, r: bool, w: bool, x: bool, u: bool, rest: nat) {
    predicate Leaf() {
      r || w || x
    }
  }

  datatype Pte = Pte(ppn: nat, flags: Flags)

  const LINK: Flags := Flags(true, false, false, false, false, 0)
  const NOPTE: Pte := Pte(0, Flags(false, false, false, false, false, 0))

  datatype Frame = Run(next: nat) | Table(ptes: seq<Pte>) | Bytes(data: seq<byte>)

  // ---------- Numbers ----------

  function Bit(b: bool): nat {
    if b then 1 else 0
  }

  /** The number that a page-table page holds for a PTE. */
  function PteBits(p: Pte): nat {
    p.ppn * 1024 + (Bit(p.flags.v) + 2 * Bit(p.flags.r) + 4 * Bit(p.flags.w) + 8 * Bit(p.flags.x)
                    + 16 * Bit(p.flags.u) + 32 * p.flags.rest)
  }

  /** PTE2PA and the flag masks read back what PA2PTE(pa) | flags put there. */
  lemma PteRoundTrip(p: Pte)
    requires p.flags.rest < 32
    ensures PteBits(p) / 1024 == p.ppn && PteBits(p) % 2 == Bit(p.flags.v) && PteBits(p) / 2 % 2 == Bit(p.flags.r)
    ensures PteBits(p) / 4 % 2 == Bit(p.flags.w) && PteBits(p) / 8 % 2 == Bit(p.flags.x)
    ensures PteBits(p) / 16 % 2 == Bit(p.flags.u) && PteBits(p) / 32 % 32 == p.flags.rest
  {
    var f := p.flags;
    var n5 := p.ppn * 32 + f.rest;
    var n4 := 2 * n5 + Bit(f.u);
    var n3 := 2 * n4 + Bit(f.x);
    var n2 := 2 * n3 + Bit(f.w);
    var n1 := 2 * n2 + Bit(f.r);
    var n := PteBits(p);
    Field(n, 1, n, 0, 2, n1, Bit(f.v));
    Field(n, 2, n1, n - 2 * n1, 2, n2, Bit(f.r));
    Field(n, 4, n2, n - 4 * n2, 2, n3, Bit(f.w));
    Field(n, 8, n3, n - 8 * n3, 2, n4, Bit(f.x));
    Field(n, 16, n4, n - 16 * n4, 2, n5, Bit(f.u));
    Field(n, 32, n5, n - 32 * n5, 32, p.ppn, f.rest);
    Quotient(n, 1024, p.ppn, n - 1024 * p.ppn);
  }

  /** Shift right by a factor `d` and mask with `e` - 1. */
  lemma Field(n: nat, d: nat, q: nat, r: nat, e: nat, q1: nat, r1: nat)
    requires n == d * q + r && r < d && q == e * q1 + r1 && r1 < e
    ensures n / d % e == r1
  {
    Quotient(n, d, q, r);
    Quotient(q, e, q1, r1);
  }

  /** PX(level, va), for the page number of va. */
  function PX2(vpn: nat): nat { vpn / 0x4_0000 % NPTE }
  function PX1(vpn: nat): nat { vpn / NPTE % NPTE }
  function PX0(vpn: nat): nat { vpn % NPTE }

  // ---------- Trees ----------

  /** The page-table pages of the table with root frame `root`, by the indices that
      lead to them. */
  datatype Node = Top(root: nat) | Mid(root: nat, i: nat) | Low(root: nat, i: nat, j: nat)

  datatype Page = Page(root: nat, i: nat, j: nat, k: nat)

  function PageAt(root: nat, vpn: nat): Page {
    Page(root, PX2(vpn), PX1(vpn), PX0(vpn))
  }

  function Vpn(p: Page): nat {
    p.i * 0x4_0000 + p.j * NPTE + p.k
  }

  /** Distinct pages have distinct PTE slots. */
  lemma VpnOfPageAt(root: nat, vpn: nat)
    requires vpn < MAXVPN
    ensures Vpn(PageAt(root, vpn)) == vpn && PX2(vpn) < NPTE && PX1(vpn) < NPTE && PX0(vpn) < NPTE
  {
    var a := vpn / NPTE;
    var b := a / NPTE;
    assert a == b * NPTE + a % NPTE;
    assert vpn == a * NPTE + vpn % NPTE;
    assert vpn == b * 0x4_0000 + (a % NPTE * NPTE + vpn % NPTE);
    assert vpn / 0x4_0000 == b < NPTE;
  }

  lemma PageAtOfVpn(p: Page)
    requires p.i < NPTE && p.j < NPTE && p.k < NPTE
    ensures PageAt(p.root, Vpn(p)) == p
  {
    var v := Vpn(p);
    var a := p.i * NPTE + p.j;
    assert v == a * NPTE + p.k;
    assert v / NPTE == a && v % NPTE == p.k;
    assert v == p.i * 0x4_0000 + (p.j * NPTE + p.k);
    assert v / 0x4_0000 == p.i;
  }

  datatype Owner = Free(depth: nat) | Tree(node: Node) | Data(page: Page) | Held

  datatype Slot = Slot(node: Node, k: nat)

  /** Physical memory, and what it means: the free list, the owner of each frame
      that kalloc manages, the frames of the page-table pages, the valid PTEs of the
      pages, the pages whose frame belongs to the page table, and the slots whose
      valid PTE no longer means anything. */
  datatype Store = Store(mem: map<nat, Frame>, free: seq<nat>, own: map<nat, Owner>,
                         node: map<Node, nat>, page: map<Page, Pte>, data: set<Page>, stale: set<Slot>)

  /** What slot `k` of page-table page `n` holds. */
  ghost function PteAt(t: Store, n: Node, k: nat): Pte {
    if n in t.node && t.node[n] in t.mem && t.mem[t.node[n]].Table? && k < |t.mem[t.node[n]].ptes|
    then t.mem[t.node[n]].ptes[k] else NOPTE
  }

  ghost predicate NodeOk(t: Store, n: Node) {
    n in t.node ==>
      && t.node[n] in t.own && t.own[t.node[n]] == Tree(n)
      && t.node[n] in t.mem && t.mem[t.node[n]].Table? && |t.mem[t.node[n]].ptes| == NPTE
      && match n
         case Top(r) => t.node[n] == r
         case Mid(r, i) => i < NPTE && Top(r) in t.node
         case Low(r, i, j) => j < NPTE && Mid(r, i) in t.node
  }

  ghost predicate SlotOk(t: Store, n: Node, k: nat) {
    n in t.node && k < NPTE ==>
      match n
      case Top(r) => if Mid(r, k) in t.node then PteAt(t, n, k) == Pte(t.node[Mid(r, k)], LINK) else Dead(t, n, k)
      case Mid(r, i) => if Low(r, i, k) in t.node then PteAt(t, n, k) == Pte(t.node[Low(r, i, k)], LINK)
        else Dead(t, n, k)
      case Low(r, i, j) => if Page(r, i, j, k) in t.page then PteAt(t, n, k) == t.page[Page(r, i, j, k)]
        else Dead(t, n, k)
  }

  ghost predicate Dead(t: Store, n: Node, k: nat) {
    !PteAt(t, n, k).flags.v || Slot(n, k) in t.stale
  }

  ghost predicate PageOk(t: Store, p: Page) {
    p in t.page ==>
      && p.k < NPTE && Low(p.root, p.i, p.j) in t.node
      && t.page[p].flags.v && t.page[p].flags.Leaf() && (t.page[p].flags.u ==> p in t.data)
  }

  ghost predicate DataOk(t: Store, p: Page) {
    p in t.data ==>
      && p in t.page && t.page[p].ppn in t.own && t.own[t.page[p].ppn] == Data(p)
      && t.page[p].ppn in t.mem && t.mem[t.page[p].ppn].Bytes? && |t.mem[t.page[p].ppn].data| == PGSIZE
  }

  ghost predicate OwnOk(t: Store, f: nat) {
    f in t.own ==>
      && f in t.mem && f != 0
      && match t.own[f]
         case Free(d) => d < |t.free| && t.free[d] == f
         case Tree(n) => n in t.node && t.node[n] == f
         case Data(p) => p in t.data && p in t.page && t.page[p].ppn == f
         case Held => true
  }

  /** The free list is linked through the free frames. */
  ghost predicate FreeOk(t: Store, d: nat) {
    d < |t.free| ==>
      && t.free[d] in t.own && t.own[t.free[d]] == Free(d)
      && t.free[d] in t.mem && t.mem[t.free[d]] == Run(if d == 0 then 0 else t.free[d - 1])
  }

  /** Memory means what the ghost parts say.  `own` gives every frame one owner, so
      free frames, page-table pages and the frames of user pages never overlap. */
  ghost predicate Ok(t: Store) {
    && (forall n {:trigger NodeOk(t, n)} :: NodeOk(t, n))
    && (forall n, k {:trigger SlotOk(t, n, k)} :: SlotOk(t, n, k))
    && (forall p {:trigger PageOk(t, p)} :: PageOk(t, p))
    && (forall p {:trigger DataOk(t, p)} :: DataOk(t, p))
    && (forall f {:trigger OwnOk(t, f)} :: OwnOk(t, f))
    && (forall d {:trigger FreeOk(t, d)} :: FreeOk(t, d))
  }

  /** Free-list frames, page-table pages, the frames of user pages and the frames held
      elsewhere partition what kalloc manages. */
  lemma Partition(t: Store)
    requires Ok(t)
    ensures forall i, j | 0 <= i < j < |t.free| :: t.free[i] != t.free[j]
    ensures forall n, m | n in t.node && m in t.node && n != m :: t.node[n] != t.node[m]
    ensures forall p, q | p in t.data && q in t.data && p != q ::
      p in t.page && q in t.page && t.page[p].ppn != t.page[q].ppn
    ensures forall i, n | 0 <= i < |t.free| && n in t.node :: t.free[i] != t.node[n]
    ensures forall i, p | 0 <= i < |t.free| && p in t.data :: p in t.page && t.free[i] != t.page[p].ppn
    ensures forall n, p | n in t.node && p in t.data :: p in t.page && t.node[n] != t.page[p].ppn
    ensures forall f | f in t.own && t.own[f] != Held ::
      f in t.free || (exists n :: n in t.node && t.node[n] == f)
        || (exists p :: p in t.data && p in t.page && t.page[p].ppn == f)
  {
    forall i: nat | i < |t.free| ensures t.free[i] in t.own && t.own[t.free[i]] == Free(i) { assert FreeOk(t, i); }
    forall n | n in t.node ensures t.node[n] in t.own && t.own[t.node[n]] == Tree(n) { assert NodeOk(t, n); }
    forall p | p in t.data ensures p in t.page && t.page[p].ppn in t.own
      && t.own[t.page[p].ppn] == Data(p) { assert DataOk(t, p); }
    forall f | f in t.own && t.own[f] != Held
      ensures f in t.free || (exists n :: n in t.node && t.node[n] == f)
        || (exists p :: p in t.data && p in t.page && t.page[p].ppn == f)
    {
      assert OwnOk(t, f);
    }
  }

  // ---------- What an operation leaves alone ----------

  ghost predicate InUse(t: Store, f: nat) {
    f in t.own ==> t.own[f].Held? || t.own[f].Data?
  }

  /** A frame that is held, holds a page's data or is not kalloc's stays so, with its
      contents; and it becomes such a frame only by being one. */
  ghost predicate FrameKept(t: Store, u: Store, f: nat) {
    && (f in u.own <==> f in t.own)
    && (InUse(u, f) <==> InUse(t, f))
    && (f in t.own && InUse(t, f) ==> u.own[f] == t.own[f])
    && (f in t.mem && InUse(t, f) ==> f in u.mem && u.mem[f] == t.mem[f])
  }

  ghost predicate Kept(t: Store, u: Store) {
    forall f {:trigger FrameKept(t, u, f)} :: FrameKept(t, u, f)
  }

  lemma KeptTwice(t: Store, u: Store, v: Store)
    requires Kept(t, u) && Kept(u, v)
    ensures Kept(t, v)
  {
    forall f: nat ensures FrameKept(t, v, f) { assert FrameKept(t, u, f) && FrameKept(u, v, f); }
  }

  lemma KeptNot(t: Store)
    ensures Kept(t, t)
  {
    forall f: nat ensures FrameKept(t, t, f) {}
  }

  /** Only page-table pages of `root` are added. */
  ghost predicate NodeKept(t: Store, u: Store, root: nat, n: Node) {
    && (n in t.node ==> n in u.node && u.node[n] == t.node[n])
    && (n in u.node && n !in t.node ==> n.root == root && !n.Top?)
  }

  ghost predicate NodesGrew(t: Store, u: Store, root: nat) {
    forall n {:trigger NodeKept(t, u, root, n)} :: NodeKept(t, u, root, n)
  }

  lemma NodesGrewTwice(t: Store, u: Store, v: Store, root: nat)
    requires NodesGrew(t, u, root) && NodesGrew(u, v, root)
    ensures NodesGrew(t, v, root)
  {
    forall n: Node ensures NodeKept(t, v, root, n) { assert NodeKept(t, u, root, n) && NodeKept(u, v, root, n); }
  }

  /** Page `p` is one of the `n` pages of `root` from page number `lo`. */
  predicate Hits(p: Page, root: nat, lo: nat, n: nat) {
    p.root == root && p.i < NPTE && p.j < NPTE && p.k < NPTE && lo <= Vpn(p) < lo + n
  }

  lemma HitsMore(p: Page, root: nat, lo: nat, n: nat, n1: nat, vpn: nat)
    requires vpn == lo + n < MAXVPN && n1 == n + 1
    ensures Hits(p, root, lo, n1) <==> Hits(p, root, lo, n) || p == PageAt(root, vpn)
    ensures Hits(p, root, vpn, 1) <==> p == PageAt(root, vpn)
    ensures !Hits(PageAt(root, vpn), root, lo, n)
  {
    VpnOfPageAt(root, vpn);
    if Hits(p, root, vpn, 1) {
      PageAtOfVpn(p);
    }
  }

  ghost predicate PageSame(t: Store, u: Store, p: Page) {
    (p in u.page <==> p in t.page) && (p in t.page ==> u.page[p] == t.page[p]) && (p in u.data <==> p in t.data)
  }

  /** From `t` to `u` these pages are mapped to the frames from `f` on. */
  ghost predicate PageMapped(t: Store, u: Store, root: nat, lo: nat, n: nat, f: nat, perm: Flags, take: bool, p: Page) {
    if Hits(p, root, lo, n)
    then p in u.page && u.page[p] == Pte(f + (Vpn(p) - lo), perm.(v := true)) && (p in u.data <==> take)
    else PageSame(t, u, p)
  }

  /** ... and their frames, if taken, keep their contents. */
  ghost predicate FrameMapped(t: Store, u: Store, n: nat, f: nat, take: bool, g: nat) {
    if take && f <= g < f + n
    then g in u.own && g in t.own && t.own[g] == Held && u.own[g].Data?
      && (g in t.mem ==> g in u.mem && u.mem[g] == t.mem[g])
    else FrameKept(t, u, g)
  }

  ghost predicate MapsTo(t: Store, u: Store, root: nat, lo: nat, n: nat, f: nat, perm: Flags, take: bool) {
    && (forall p {:trigger PageMapped(t, u, root, lo, n, f, perm, take, p)} ::
         PageMapped(t, u, root, lo, n, f, perm, take, p))
    && (forall g {:trigger FrameMapped(t, u, n, f, take, g)} :: FrameMapped(t, u, n, f, take, g))
    && NodesGrew(t, u, root)
  }

  /** From `t` to `u` these pages are unmapped, and their frames given up if they
      belonged to the page table. */
  ghost predicate PageGone(t: Store, u: Store, root: nat, lo: nat, n: nat, p: Page) {
    if Hits(p, root, lo, n) then p !in u.page && p !in u.data else PageSame(t, u, p)
  }

  ghost predicate OwnedBy(t: Store, f: nat, root: nat, lo: nat, n: nat) {
    f in t.own && t.own[f].Data? && Hits(t.own[f].page, root, lo, n)
  }

  ghost predicate FrameGone(t: Store, u: Store, root: nat, lo: nat, n: nat, f: nat) {
    if OwnedBy(t, f, root, lo, n) then f in u.own && !InUse(u, f) else FrameKept(t, u, f)
  }

  ghost predicate Unmaps(t: Store, u: Store, root: nat, lo: nat, n: nat) {
    && (forall p {:trigger PageGone(t, u, root, lo, n, p)} :: PageGone(t, u, root, lo, n, p))
    && (forall f {:trigger FrameGone(t, u, root, lo, n, f)} :: FrameGone(t, u, root, lo, n, f))
    && u.node == t.node
  }

  /** Frames given up by unmapping are on the free list: no page-table page was made. */
  lemma GoneIsFree(t: Store, u: Store, root: nat, lo: nat, n: nat, f: nat)
    requires Ok(t) && Ok(u) && Unmaps(t, u, root, lo, n) && OwnedBy(t, f, root, lo, n)
    ensures f in u.own && u.own[f].Free?
  {
    assert FrameGone(t, u, root, lo, n, f) && OwnOk(u, f);
    if u.own[f].Tree? {
      assert NodeOk(t, u.own[f].node);
    }
  }

  /** From `t` to `u` these pages are new, with frames that were free. */
  ghost predicate PageNew(t: Store, u: Store, root: nat, lo: nat, n: nat, p: Page) {
    if Hits(p, root, lo, n) then p in u.page && p in u.data && p !in t.page && p !in t.data else PageSame(t, u, p)
  }

  ghost predicate FrameNew(t: Store, u: Store, root: nat, lo: nat, n: nat, f: nat) {
    if OwnedBy(u, f, root, lo, n) then f in t.own && !InUse(t, f) else FrameKept(t, u, f)
  }

  ghost predicate Adds(t: Store, u: Store, root: nat, lo: nat, n: nat) {
    && (forall p {:trigger PageNew(t, u, root, lo, n, p)} :: PageNew(t, u, root, lo, n, p))
    && (forall f {:trigger FrameNew(t, u, root, lo, n, f)} :: FrameNew(t, u, root, lo, n, f))
    && NodesGrew(t, u, root)
  }

  /** Nothing happened that a user of page tables can see. */
  ghost predicate SameMaps(t: Store, u: Store, root: nat) {
    u.page == t.page && u.data == t.data && Kept(t, u) && NodesGrew(t, u, root)
  }

  lemma MapsNone(t: Store, root: nat, lo: nat, f: nat, perm: Flags, take: bool)
    ensures MapsTo(t, t, root, lo, 0, f, perm, take) && Unmaps(t, t, root, lo, 0)
  {
    forall p: Page ensures PageMapped(t, t, root, lo, 0, f, perm, take, p) && PageGone(t, t, root, lo, 0, p) {}
    forall g: nat ensures FrameMapped(t, t, 0, f, take, g) && FrameGone(t, t, root, lo, 0, g) {}
    forall m: Node ensures NodeKept(t, t, root, m) {}
  }

  lemma AddsNone(t: Store, root: nat, lo: nat)
    ensures Adds(t, t, root, lo, 0)
  {
    forall p: Page ensures PageNew(t, t, root, lo, 0, p) {}
    forall g: nat ensures FrameNew(t, t, root, lo, 0, g) {}
    forall m: Node ensures NodeKept(t, t, root, m) {}
  }

  lemma MapsOneMore(t: Store, u: Store, v: Store, root: nat, lo: nat, n: nat, n1: nat, vpn: nat, f: nat, g: nat,
                    perm: Flags, take: bool)
    requires vpn == lo + n < MAXVPN && n1 == n + 1 && g == f + n
    requires MapsTo(t, u, root, lo, n, f, perm, take) && MapsTo(u, v, root, vpn, 1, g, perm, take)
    ensures MapsTo(t, v, root, lo, n1, f, perm, take)
  {
    forall p: Page ensures PageMapped(t, v, root, lo, n1, f, perm, take, p) {
      assert PageMapped(t, u, root, lo, n, f, perm, take, p) && PageMapped(u, v, root, vpn, 1, g, perm, take, p);
      HitsMore(p, root, lo, n, n1, vpn);
      VpnOfPageAt(root, vpn);
    }
    forall h: nat ensures FrameMapped(t, v, n1, f, take, h) {
      assert FrameMapped(t, u, n, f, take, h) && FrameMapped(u, v, 1, g, take, h);
    }
    NodesGrewTwice(t, u, v, root);
  }

  lemma SameThenMaps(t: Store, u: Store, v: Store, root: nat, lo: nat, n: nat, f: nat, perm: Flags, take: bool)
    requires SameMaps(t, u, root) && MapsTo(u, v, root, lo, n, f, perm, take)
    ensures MapsTo(t, v, root, lo, n, f, perm, take)
  {
    forall p: Page ensures PageMapped(t, v, root, lo, n, f, perm, take, p) {
      assert PageMapped(u, v, root, lo, n, f, perm, take, p);
    }
    forall h: nat ensures FrameMapped(t, v, n, f, take, h) {
      assert FrameKept(t, u, h) && FrameMapped(u, v, n, f, take, h);
    }
    NodesGrewTwice(t, u, v, root);
  }

  lemma UnmapsOneMore(t: Store, u: Store, v: Store, root: nat, lo: nat, n: nat, n1: nat, vpn: nat)
    requires vpn == lo + n < MAXVPN && n1 == n + 1 && Unmaps(t, u, root, lo, n) && Unmaps(u, v, root, vpn, 1)
    ensures Unmaps(t, v, root, lo, n1)
  {
    forall p: Page ensures PageGone(t, v, root, lo, n1, p) {
      assert PageGone(t, u, root, lo, n, p) && PageGone(u, v, root, vpn, 1, p);
      HitsMore(p, root, lo, n, n1, vpn);
    }
    forall f: nat ensures FrameGone(t, v, root, lo, n1, f) {
      assert FrameGone(t, u, root, lo, n, f) && FrameGone(u, v, root, vpn, 1, f);
      if f in t.own && t.own[f].Data? {
        HitsMore(t.own[f].page, root, lo, n, n1, vpn);
      }
    }
  }

  lemma AddsOneMore(t: Store, u: Store, v: Store, root: nat, lo: nat, n: nat, n1: nat, vpn: nat)
    requires vpn == lo + n < MAXVPN && n1 == n + 1 && Adds(t, u, root, lo, n) && Adds(u, v, root, vpn, 1)
    ensures Adds(t, v, root, lo, n1)
  {
    forall p: Page ensures PageNew(t, v, root, lo, n1, p) {
      assert PageNew(t, u, root, lo, n, p) && PageNew(u, v, root, vpn, 1, p);
      HitsMore(p, root, lo, n, n1, vpn);
    }
    forall f: nat ensures FrameNew(t, v, root, lo, n1, f) {
      assert FrameNew(t, u, root, lo, n, f) && FrameNew(u, v, root, vpn, 1, f);
      if f in v.own && v.own[f].Data? {
        HitsMore(v.own[f].page, root, lo, n, n1, vpn);
      }
    }
    NodesGrewTwice(t, u, v, root);
  }

  /** Adding pages and removing them again restores everything but the page-table
      pages made on the way. */
  lemma AddsThenUnmaps(t: Store, u: Store, v: Store, root: nat, lo: nat, n: nat)
    requires Adds(t, u, root, lo, n) && Unmaps(u, v, root, lo, n)
    ensures SameMaps(t, v, root)
  {
    forall p: Page ensures PageSame(t, v, p) {
      assert PageNew(t, u, root, lo, n, p) && PageGone(u, v, root, lo, n, p);
    }
    forall f: nat ensures FrameKept(t, v, f) {
      assert FrameNew(t, u, root, lo, n, f) && FrameGone(u, v, root, lo, n, f);
    }
    forall m: Node ensures NodeKept(t, v, root, m) { assert NodeKept(t, u, root, m); }
    SamePages(t, v);
  }

  lemma SamePages(t: Store, u: Store)
    requires forall p {:trigger PageSame(t, u, p)} :: PageSame(t, u, p)
    ensures u.page == t.page && u.data == t.data
  {
    assert forall p :: p in u.page <==> p in t.page by {
      forall p: Page ensures p in u.page <==> p in t.page { assert PageSame(t, u, p); }
    }
    assert forall p :: p in t.page ==> u.page[p] == t.page[p] by {
      forall p: Page | p in t.page ensures u.page[p] == t.page[p] { assert PageSame(t, u, p); }
    }
    assert forall p :: p in u.data <==> p in t.data by {
      forall p: Page ensures p in u.data <==> p in t.data { assert PageSame(t, u, p); }
    }
  }

  lemma AddsThenSame(t: Store, u: Store, v: Store, root: nat, lo: nat, n: nat)
    requires Adds(t, u, root, lo, n) && SameMaps(u, v, root)
    ensures Adds(t, v, root, lo, n)
  {
    forall p: Page ensures PageNew(t, v, root, lo, n, p) { assert PageNew(t, u, root, lo, n, p); }
    forall f: nat ensures FrameNew(t, v, root, lo, n, f) {
      assert FrameNew(t, u, root, lo, n, f) && FrameKept(u, v, f);
    }
    NodesGrewTwice(t, u, v, root);
  }

  // ---------- Steps ----------

  function Head(free: seq<nat>): nat {
    if free == [] then 0 else free[|free| - 1]
  }

  /** kalloc's frame, filled with junk. */
  ghost function Taken(t: Store, junk: seq<byte>): Store
    requires t.free != []
  {
    var f := t.free[|t.free| - 1];
    t.(free := t.free[..|t.free| - 1], own := t.own[f := Held], mem := t.mem[f := Bytes(junk)])
  }

  lemma HeadIsNull(t: Store)
    requires Ok(t)
    ensures Head(t.free) == 0 <==> t.free == []
  {
    if t.free != [] {
      assert FreeOk(t, |t.free| - 1) && OwnOk(t, t.free[|t.free| - 1]);
    }
  }

  lemma TakenOk(t: Store, junk: seq<byte>)
    requires Ok(t) && t.free != []
    ensures Ok(Taken(t, junk)) && t.free[|t.free| - 1] in t.own && t.own[t.free[|t.free| - 1]] == Free(|t.free| - 1)
    ensures t.free[|t.free| - 1] in t.mem && t.mem[t.free[|t.free| - 1]] == Run(Head(t.free[..|t.free| - 1]))
  {
    var u := Taken(t, junk);
    var top := |t.free| - 1;
    assert FreeOk(t, top);
    forall n: Node ensures NodeOk(u, n) { assert NodeOk(t, n); }
    forall n: Node, k: nat ensures SlotOk(u, n, k) { assert SlotOk(t, n, k) && NodeOk(t, n); }
    forall p: Page ensures PageOk(u, p) && DataOk(u, p) { assert PageOk(t, p) && DataOk(t, p); }
    forall f: nat ensures OwnOk(u, f) { assert OwnOk(t, f); }
    forall d: nat ensures FreeOk(u, d) { assert FreeOk(t, d); }
  }

  /** kfree of a frame that its holder gives up. */
  ghost function Given(t: Store, f: nat): Store {
    t.(free := t.free + [f], own := t.own[f := Free(|t.free|)], mem := t.mem[f := Run(Head(t.free))])
  }

  lemma GivenOk(t: Store, f: nat)
    requires Ok(t) && f in t.own && t.own[f] == Held
    ensures Ok(Given(t, f))
  {
    var u := Given(t, f);
    assert OwnOk(t, f);
    forall n: Node ensures NodeOk(u, n) { assert NodeOk(t, n); }
    forall n: Node, k: nat ensures SlotOk(u, n, k) { assert SlotOk(t, n, k) && NodeOk(t, n); }
    forall p: Page ensures PageOk(u, p) && DataOk(u, p) { assert PageOk(t, p) && DataOk(t, p); }
    forall g: nat ensures OwnOk(u, g) { assert OwnOk(t, g); }
    forall d: nat ensures FreeOk(u, d) { assert FreeOk(t, d); }
  }

  /** Storing bytes in a frame that is held or holds a page's data. */
  ghost function Stored(t: Store, f: nat, data: seq<byte>): Store {
    t.(mem := t.mem[f := Bytes(data)])
  }

  lemma StoredOk(t: Store, f: nat, data: seq<byte>)
    requires Ok(t) && f in t.own && (t.own[f].Held? || t.own[f].Data?) && |data| == PGSIZE
    ensures Ok(Stored(t, f, data))
  {
    var u := Stored(t, f, data);
    forall n: Node ensures NodeOk(u, n) { assert NodeOk(t, n); }
    forall n: Node, k: nat ensures SlotOk(u, n, k) { assert SlotOk(t, n, k) && NodeOk(t, n); }
    forall p: Page ensures PageOk(u, p) && DataOk(u, p) { assert PageOk(t, p) && DataOk(t, p); }
    forall g: nat ensures OwnOk(u, g) { assert OwnOk(t, g); }
    forall d: nat ensures FreeOk(u, d) { assert FreeOk(t, d); }
  }

  /** A held frame becomes the root of a new, empty page table. */
  ghost function Planted(t: Store, f: nat, ptes: seq<Pte>): Store {
    t.(mem := t.mem[f := Table(ptes)], own := t.own[f := Tree(Top(f))], node := t.node[Top(f) := f])
  }

  ghost predicate Empty(ptes: seq<Pte>) {
    |ptes| == NPTE && forall k | 0 <= k < NPTE :: ptes[k] == NOPTE
  }

  /** No page-table page or page below `n`. */
  ghost predicate Bare(t: Store, n: Node) {
    match n
    case Top(r) => forall i :: Mid(r, i) !in t.node
    case Mid(r, i) => forall j :: Low(r, i, j) !in t.node
    case Low(r, i, j) => forall k :: Page(r, i, j, k) !in t.page
  }

  lemma PlantedOk(t: Store, f: nat, ptes: seq<Pte>)
    requires Ok(t) && f in t.own && t.own[f] == Held && Empty(ptes)
    ensures Ok(Planted(t, f, ptes)) && Top(f) !in t.node && Bare(t, Top(f))
  {
    var u := Planted(t, f, ptes);
    assert NodeOk(t, Top(f));
    forall i: nat ensures Mid(f, i) !in t.node { assert NodeOk(t, Mid(f, i)); }
    forall n: Node ensures NodeOk(u, n) { assert NodeOk(t, n); }
    forall n: Node, k: nat ensures SlotOk(u, n, k) { assert SlotOk(t, n, k) && NodeOk(t, n); }
    forall p: Page ensures PageOk(u, p) && DataOk(u, p) { assert PageOk(t, p) && DataOk(t, p); }
    forall g: nat ensures OwnOk(u, g) { assert OwnOk(t, g); }
    forall d: nat ensures FreeOk(u, d) { assert FreeOk(t, d); }
  }

  ghost function WithPte(t: Store, n: Node, k: nat, e: Pte): map<nat, Frame>
    requires n in t.node && t.node[n] in t.mem && t.mem[t.node[n]].Table? && k < |t.mem[t.node[n]].ptes|
  {
    t.mem[t.node[n] := Table(t.mem[t.node[n]].ptes[k := e])]
  }

  function Child(n: Node, k: nat): Node
    requires !n.Low?
  {
    if n.Top? then Mid(n.root, k) else Low(n.root, n.i, k)
  }

  /** walk hangs the held frame `f` under slot `k` of `n`. */
  ghost function Grafted(t: Store, n: Node, k: nat, f: nat, ptes: seq<Pte>): Store
    requires n in t.node && t.node[n] in t.mem && t.mem[t.node[n]].Table? && k < |t.mem[t.node[n]].ptes| && !n.Low?
  {
    t.(mem := t.mem[f := Table(ptes)][t.node[n] := Table(t.mem[t.node[n]].ptes[k := Pte(f, LINK)])],
       own := t.own[f := Tree(Child(n, k))], node := t.node[Child(n, k) := f])
  }

  lemma GraftedOk(t: Store, n: Node, k: nat, f: nat, ptes: seq<Pte>)
    requires Ok(t) && n in t.node && !n.Low? && k < NPTE && Child(n, k) !in t.node
    requires f in t.own && t.own[f] == Held && Empty(ptes)
    ensures t.node[n] in t.mem && t.mem[t.node[n]].Table? && |t.mem[t.node[n]].ptes| == NPTE
    ensures Ok(Grafted(t, n, k, f, ptes))
  {
    assert NodeOk(t, n);
    var u := Grafted(t, n, k, f, ptes);
    forall m: Node ensures NodeOk(u, m) { assert NodeOk(t, m); }
    forall m: Node, x: nat ensures SlotOk(u, m, x) {
      assert SlotOk(t, m, x) && NodeOk(t, m);
      if m == Child(n, k) {
        GraftedBare(t, n, k, x);
      }
    }
    forall p: Page ensures PageOk(u, p) && DataOk(u, p) { assert PageOk(t, p) && DataOk(t, p); }
    forall g: nat ensures OwnOk(u, g) { assert OwnOk(t, g); }
    forall d: nat ensures FreeOk(u, d) { assert FreeOk(t, d); }
  }

  lemma GraftKeeps(t: Store, junk: seq<byte>, n: Node, k: nat, f: nat, ptes: seq<Pte>)
    requires Ok(t) && t.free != [] && n in t.node && !n.Low? && k < NPTE && Child(n, k) !in t.node
    requires f == t.free[|t.free| - 1] && f in t.own && t.own[f].Free?
    requires var u := Taken(t, junk);
      Ok(u) && n in u.node && u.node[n] in u.mem && u.mem[u.node[n]].Table? && |u.mem[u.node[n]].ptes| == NPTE
    ensures var u := Grafted(Taken(t, junk), n, k, f, ptes); Kept(t, u) && NodesGrew(t, u, n.root)
  {
    var u := Grafted(Taken(t, junk), n, k, f, ptes);
    assert NodeOk(t, n);
    forall g: nat ensures FrameKept(t, u, g) { assert OwnOk(t, g); }
    forall m: Node ensures NodeKept(t, u, n.root, m) {}
  }

  /** Nothing hangs below a page-table page that is not there. */
  lemma GraftedBare(t: Store, n: Node, k: nat, x: nat)
    requires Ok(t) && !n.Low? && Child(n, k) !in t.node
    ensures n.Top? ==> Low(n.root, k, x) !in t.node
    ensures n.Mid? ==> Page(n.root, n.i, k, x) !in t.page
  {
    if n.Top? {
      assert NodeOk(t, Low(n.root, k, x));
    } else {
      assert PageOk(t, Page(n.root, n.i, k, x));
    }
  }

  function LowOf(p: Page): Node {
    Low(p.root, p.i, p.j)
  }

  /** mappages sets the PTE of page `p`; `take` says that the frame becomes the
      page's data. */
  ghost function Mapped(t: Store, p: Page, e: Pte, take: bool): Store
    requires LowOf(p) in t.node && t.node[LowOf(p)] in t.mem && t.mem[t.node[LowOf(p)]].Table?
    requires p.k < |t.mem[t.node[LowOf(p)]].ptes|
  {
    t.(mem := WithPte(t, LowOf(p), p.k, e), page := t.page[p := e],
       own := if take then t.own[e.ppn := Data(p)] else t.own, data := if take then t.data + {p} else t.data)
  }

  lemma MappedOk(t: Store, p: Page, e: Pte, take: bool)
    requires Ok(t) && LowOf(p) in t.node && p.k < NPTE && p !in t.page
    requires e.flags.v && e.flags.Leaf() && (e.flags.u ==> take)
    requires take ==>
      e.ppn in t.own && t.own[e.ppn] == Held && e.ppn in t.mem && t.mem[e.ppn].Bytes? && |t.mem[e.ppn].data| == PGSIZE
    ensures t.node[LowOf(p)] in t.mem && t.mem[t.node[LowOf(p)]].Table? && |t.mem[t.node[LowOf(p)]].ptes| == NPTE
    ensures Ok(Mapped(t, p, e, take))
  {
    var n := LowOf(p);
    assert NodeOk(t, n) && DataOk(t, p);
    var u := Mapped(t, p, e, take);
    forall m: Node ensures NodeOk(u, m) { assert NodeOk(t, m); }
    forall m: Node, x: nat ensures SlotOk(u, m, x) { assert SlotOk(t, m, x) && NodeOk(t, m); }
    forall q: Page ensures PageOk(u, q) && DataOk(u, q) { assert PageOk(t, q) && DataOk(t, q); }
    forall g: nat ensures OwnOk(u, g) { assert OwnOk(t, g); }
    forall d: nat ensures FreeOk(u, d) { assert FreeOk(t, d); }
  }

  /** Page `p` is given up; its PTE is still in memory. */
  ghost function Dropped(t: Store, p: Page): Store
    requires p in t.page
  {
    t.(page := t.page - {p}, data := t.data - {p}, stale := t.stale + {Slot(LowOf(p), p.k)},
       own := if p in t.data then t.own[t.page[p].ppn := Held] else t.own)
  }

  lemma DroppedOk(t: Store, p: Page)
    requires Ok(t) && p in t.page
    ensures Ok(Dropped(t, p)) && PteAt(t, LowOf(p), p.k) == t.page[p] && LowOf(p) in t.node && p.k < NPTE
  {
    var u := Dropped(t, p);
    assert PageOk(t, p) && DataOk(t, p) && SlotOk(t, LowOf(p), p.k) && NodeOk(t, LowOf(p));
    forall m: Node ensures NodeOk(u, m) { assert NodeOk(t, m); }
    forall m: Node, x: nat ensures SlotOk(u, m, x) { assert SlotOk(t, m, x) && NodeOk(t, m); }
    forall q: Page ensures PageOk(u, q) && DataOk(u, q) { assert PageOk(t, q) && DataOk(t, q); }
    forall g: nat ensures OwnOk(u, g) { assert OwnOk(t, g); }
    forall d: nat ensures FreeOk(u, d) { assert FreeOk(t, d); }
  }

  /** Page-table page `n` is given up; its parent's PTE is still in memory. */
  ghost function Pruned(t: Store, n: Node): Store
    requires n in t.node
  {
    t.(node := t.node - {n}, own := t.own[t.node[n] := Held], stale := t.stale + Above(n))
  }

  function Above(n: Node): set<Slot> {
    match n
    case Top(_) => {}
    case Mid(r, i) => {Slot(Top(r), i)}
    case Low(r, i, j) => {Slot(Mid(r, i), j)}
  }

  lemma PrunedOk(t: Store, n: Node)
    requires Ok(t) && n in t.node && Bare(t, n)
    ensures Ok(Pruned(t, n)) && t.node[n] in t.own && t.own[t.node[n]] == Tree(n)
  {
    var u := Pruned(t, n);
    assert NodeOk(t, n);
    forall m: Node ensures NodeOk(u, m) { assert NodeOk(t, m); }
    forall m: Node, x: nat ensures SlotOk(u, m, x) { assert SlotOk(t, m, x) && NodeOk(t, m); }
    forall q: Page ensures PageOk(u, q) && DataOk(u, q) { assert PageOk(t, q) && DataOk(t, q); }
    forall g: nat ensures OwnOk(u, g) { assert OwnOk(t, g); }
    forall d: nat ensures FreeOk(u, d) { assert FreeOk(t, d); }
  }

  /** Zeroing the PTE in slot `k` of `n`, which means nothing. */
  ghost function Cleared(t: Store, n: Node, k: nat): Store
    requires n in t.node && t.node[n] in t.mem && t.mem[t.node[n]].Table? && k < |t.mem[t.node[n]].ptes|
  {
    t.(mem := WithPte(t, n, k, NOPTE), stale := t.stale - {Slot(n, k)})
  }

  lemma ClearedOk(t: Store, n: Node, k: nat)
    requires Ok(t) && n in t.node && k < NPTE && Dead(t, n, k) && Slot(n, k) in t.stale
    requires if n.Low? then Page(n.root, n.i, n.j, k) !in t.page else Child(n, k) !in t.node
    ensures t.node[n] in t.mem && t.mem[t.node[n]].Table? && |t.mem[t.node[n]].ptes| == NPTE
    ensures Ok(Cleared(t, n, k))
  {
    assert NodeOk(t, n);
    var u := Cleared(t, n, k);
    forall m: Node ensures NodeOk(u, m) { assert NodeOk(t, m); }
    forall m: Node, x: nat ensures SlotOk(u, m, x) { assert SlotOk(t, m, x) && NodeOk(t, m); }
    forall q: Page ensures PageOk(u, q) && DataOk(u, q) { assert PageOk(t, q) && DataOk(t, q); }
    forall g: nat ensures OwnOk(u, g) { assert OwnOk(t, g); }
    forall d: nat ensures FreeOk(u, d) { assert FreeOk(t, d); }
  }

  lemma MappedMaps(t: Store, u: Store, root: nat, vpn: nat, f: nat, perm: Flags, take: bool)
    requires Ok(t) && vpn < MAXVPN && LowOf(PageAt(root, vpn)) in t.node && PageAt(root, vpn) !in t.page
    requires t.node[LowOf(PageAt(root, vpn))] in t.mem && t.mem[t.node[LowOf(PageAt(root, vpn))]].Table?
    requires PX0(vpn) < |t.mem[t.node[LowOf(PageAt(root, vpn))]].ptes|
    requires take ==> f in t.own && t.own[f] == Held
    requires u == Mapped(t, PageAt(root, vpn), Pte(f, perm.(v := true)), take)
    ensures MapsTo(t, u, root, vpn, 1, f, perm, take)
  {
    var at := PageAt(root, vpn);
    assert NodeOk(t, LowOf(at)) && DataOk(t, at);
    VpnOfPageAt(root, vpn);
    forall p: Page ensures PageMapped(t, u, root, vpn, 1, f, perm, take, p) { HitsMore(p, root, vpn, 0, 1, vpn); }
    forall g: nat ensures FrameMapped(t, u, 1, f, take, g) { assert OwnOk(t, g); }
    forall m: Node ensures NodeKept(t, u, root, m) {}
  }

  lemma MapsThenSame(t: Store, u: Store, v: Store, root: nat, lo: nat, n: nat, f: nat, perm: Flags, take: bool)
    requires MapsTo(t, u, root, lo, n, f, perm, take) && SameMaps(u, v, root)
    ensures MapsTo(t, v, root, lo, n, f, perm, take)
  {
    forall p: Page ensures PageMapped(t, v, root, lo, n, f, perm, take, p) {
      assert PageMapped(t, u, root, lo, n, f, perm, take, p);
    }
    forall h: nat ensures FrameMapped(t, v, n, f, take, h) {
      assert FrameKept(u, v, h) && FrameMapped(t, u, n, f, take, h);
    }
    NodesGrewTwice(t, u, v, root);
  }

  /** The pages and frames that mappages has yet to reach are as they were. */
  lemma StillUnmapped(t: Store, u: Store, root: nat, lo: nat, n: nat, f: nat, perm: Flags, take: bool, vpn: nat)
    requires MapsTo(t, u, root, lo, n, f, perm, take) && lo + n <= vpn < MAXVPN && PageAt(root, vpn) !in t.page
    ensures PageAt(root, vpn) !in u.page
  {
    assert PageMapped(t, u, root, lo, n, f, perm, take, PageAt(root, vpn));
    VpnOfPageAt(root, vpn);
  }

  lemma StillHeld(t: Store, u: Store, root: nat, lo: nat, n: nat, f: nat, perm: Flags, take: bool, g: nat)
    requires MapsTo(t, u, root, lo, n, f, perm, take) && f + n <= g
    requires g in t.own && t.own[g] == Held && g in t.mem
    ensures g in u.own && u.own[g] == Held && g in u.mem && u.mem[g] == t.mem[g]
  {
    assert FrameMapped(t, u, n, f, take, g);
  }

  /** uvmunmap's work on one page amounts to unmapping it. */
  lemma UnmapsOne(t: Store, u: Store, root: nat, vpn: nat)
    requires Ok(t) && vpn < MAXVPN && PageAt(root, vpn) in t.page
    requires var p := PageAt(root, vpn);
             var w := if p in t.data then Given(Dropped(t, p), t.page[p].ppn) else Dropped(t, p);
             && LowOf(p) in w.node && w.node[LowOf(p)] in w.mem && w.mem[w.node[LowOf(p)]].Table?
             && p.k < |w.mem[w.node[LowOf(p)]].ptes|
             && u == Cleared(w, LowOf(p), p.k)
    ensures Unmaps(t, u, root, vpn, 1)
  {
    var at := PageAt(root, vpn);
    assert PageOk(t, at) && DataOk(t, at) && NodeOk(t, LowOf(at)) && OwnOk(t, t.page[at].ppn);
    forall p: Page ensures PageGone(t, u, root, vpn, 1, p) { HitsMore(p, root, vpn, 0, 1, vpn); }
    forall f: nat ensures FrameGone(t, u, root, vpn, 1, f) {
      assert OwnOk(t, f);
      if f in t.own && t.own[f].Data? {
        HitsMore(t.own[f].page, root, vpn, 0, 1, vpn);
      }
    }
  }

  /** Pages of a range that uvmunmap has yet to reach are as they were. */
  lemma StillMapped(t: Store, u: Store, root: nat, lo: nat, n: nat, vpn: nat)
    requires Unmaps(t, u, root, lo, n) && lo + n <= vpn < MAXVPN
    ensures PageSame(t, u, PageAt(root, vpn))
  {
    assert PageGone(t, u, root, lo, n, PageAt(root, vpn));
    VpnOfPageAt(root, vpn);
  }

  /** The page-table pages at or below `n`, and the pages below it. */
  predicate Under(n: Node, m: Node) {
    match n
    case Top(r) => m.root == r
    case Mid(r, i) => (m.Mid? || m.Low?) && m.root == r && m.i == i
    case Low(r, i, j) => m == n
  }

  ghost predicate PageUnder(n: Node, p: Page) {
    match n
    case Top(r) => p.root == r
    case Mid(r, i) => p.root == r && p.i == i
    case Low(r, i, j) => p.root == r && p.i == i && p.j == j
  }

  ghost predicate NoPages(t: Store, n: Node) {
    forall p | p in t.page :: !PageUnder(n, p)
  }

  const WHOLE: nat := NPTE + 1

  /** The page-table pages under the first `k` children of `n`; with WHOLE, `n` itself
      too. */
  ghost predicate Below(n: Node, k: nat, m: Node) {
    Under(n, m) && if k > NPTE then true else !n.Low? && m != n && (if n.Top? then m.i < k else m.Low? && m.j < k)
  }

  /** From `t` to `u` these page-table pages are gone. */
  ghost predicate NodeGone(t: Store, u: Store, n: Node, k: nat, m: Node) {
    if Below(n, k, m) then m !in u.node
    else (m in u.node <==> m in t.node) && (m in t.node ==> u.node[m] == t.node[m])
  }

  ghost predicate FrameFreed(t: Store, u: Store, n: Node, k: nat, f: nat) {
    && FrameKept(t, u, f)
    && (f in t.own && t.own[f].Tree? && Below(n, k, t.own[f].node) ==> u.own[f].Free?)
    && (f in t.own && t.own[f].Free? ==> u.own[f].Free?)
  }

  ghost predicate Frees(t: Store, u: Store, n: Node, k: nat) {
    && (forall m {:trigger NodeGone(t, u, n, k, m)} :: NodeGone(t, u, n, k, m))
    && (forall f {:trigger FrameFreed(t, u, n, k, f)} :: FrameFreed(t, u, n, k, f))
    && u.page == t.page && u.data == t.data
  }

  lemma FreesNone(t: Store, n: Node)
    ensures Frees(t, t, n, 0)
  {
    forall m: Node ensures NodeGone(t, t, n, 0, m) {}
    forall f: nat ensures FrameFreed(t, t, n, 0, f) {}
  }

  /** Nothing hangs below a page-table page that is not there. */
  lemma FreesAbsent(t: Store, u: Store, c: Node)
    requires Ok(t) && c !in t.node && !c.Top? && u == t
    ensures Frees(t, u, c, WHOLE)
  {
    forall m: Node ensures NodeGone(t, u, c, WHOLE, m) { assert NodeOk(t, m); }
    forall f: nat ensures FrameFreed(t, u, c, WHOLE, f) {
      assert OwnOk(t, f);
      if f in t.own && t.own[f].Tree? {
        assert NodeOk(t, t.own[f].node);
      }
    }
  }

  lemma FreesChild(t: Store, u: Store, v: Store, n: Node, i: nat, i1: nat)
    requires i < NPTE && i1 == i + 1 && Frees(t, u, n, i) && Ok(t) && Ok(u)
    requires if n.Low? then v == u else Frees(u, v, Child(n, i), WHOLE)
    ensures Frees(t, v, n, i1)
  {
    forall m: Node ensures NodeGone(t, v, n, i1, m) {
      assert NodeGone(t, u, n, i, m) && (!n.Low? ==> NodeGone(u, v, Child(n, i), WHOLE, m));
    }
    forall f: nat ensures FrameFreed(t, v, n, i1, f) {
      assert FrameFreed(t, u, n, i, f) && (!n.Low? ==> FrameFreed(u, v, Child(n, i), WHOLE, f));
      if f in t.own && t.own[f].Tree? {
        assert OwnOk(t, f) && NodeGone(t, u, n, i, t.own[f].node) && NodeOk(u, t.own[f].node);
      }
    }
  }

  lemma FreesPages(t: Store, u: Store, n: Node, k: nat)
    requires Frees(t, u, n, k)
    ensures u.page == t.page && u.data == t.data
  {
  }

  lemma FreesCleared(t: Store, w: Store, u: Store, n: Node, i: nat)
    requires Ok(w) && !n.Low? && Frees(t, w, Child(n, i), WHOLE) && n in w.node && w.node[n] in w.mem
      && w.mem[w.node[n]].Table?
    requires i < |w.mem[w.node[n]].ptes| && u == Cleared(w, n, i)
    ensures Frees(t, u, Child(n, i), WHOLE)
  {
    var c := Child(n, i);
    assert NodeOk(w, n);
    forall m: Node ensures NodeGone(t, u, c, WHOLE, m) { assert NodeGone(t, w, c, WHOLE, m); }
    forall f: nat ensures FrameFreed(t, u, c, WHOLE, f) { assert FrameFreed(t, w, c, WHOLE, f); }
  }

  /** When every child of `n` is gone, nothing is left below it. */
  lemma FreesBare(t: Store, u: Store, n: Node)
    requires Ok(t) && Frees(t, u, n, NPTE) && NoPages(t, n)
    ensures Bare(u, n)
  {
    match n {
      case Top(r) =>
        forall i: nat ensures Mid(r, i) !in u.node
          { assert NodeGone(t, u, n, NPTE, Mid(r, i)) && NodeOk(t, Mid(r, i)); }
      case Mid(r, i) =>
        forall j: nat ensures Low(r, i, j) !in u.node
          { assert NodeGone(t, u, n, NPTE, Low(r, i, j)) && NodeOk(t, Low(r, i, j)); }
      case Low(r, i, j) =>
        forall k: nat ensures Page(r, i, j, k) !in u.page { assert PageUnder(n, Page(r, i, j, k)); }
    }
  }

  lemma FreesWhole(t: Store, u: Store, v: Store, n: Node)
    requires Ok(t) && Ok(u) && Frees(t, u, n, NPTE) && NoPages(t, n) && n in u.node && u.node[n] in u.own
      && u.own[u.node[n]] == Tree(n)
    requires v == Given(Pruned(u, n), u.node[n])
    ensures Frees(t, v, n, WHOLE)
  {
    FreesBare(t, u, n);
    forall m: Node ensures NodeGone(t, v, n, WHOLE, m) {
      assert NodeGone(t, u, n, NPTE, m);
      if Under(n, m) && m != n {
        UnderGone(t, u, n, m);
      }
    }
    forall f: nat ensures FrameFreed(t, v, n, WHOLE, f) {
      assert FrameFreed(t, u, n, NPTE, f);
      if f in t.own && t.own[f].Tree? {
        assert OwnOk(t, f) && NodeGone(t, u, n, NPTE, t.own[f].node) && NodeOk(u, t.own[f].node);
        if Under(n, t.own[f].node) && t.own[f].node != n {
          UnderGone(t, u, n, t.own[f].node);
        }
      }
    }
  }

  /** After the loop only `n` is left of what is at or below it. */
  lemma UnderGone(t: Store, u: Store, n: Node, m: Node)
    requires Ok(t) && Frees(t, u, n, NPTE) && Under(n, m) && m != n
    ensures m !in u.node && (m in t.node ==> Below(n, NPTE, m))
  {
    assert NodeGone(t, u, n, NPTE, m) && NodeOk(t, m);
    if n.Top? && m.Low? {
      assert NodeOk(t, Mid(m.root, m.i));
    }
  }

  // ---------- New pages ----------

  lemma AddsOneFrame(t: Store, w: Store, u: Store, root: nat, vpn: nat, f: nat, perm: Flags, g: nat)
    requires Ok(t) && Ok(u) && vpn < MAXVPN && PageAt(root, vpn) !in t.page
    requires f in t.own && t.own[f].Free? && w.own == t.own[f := Held] && f in w.mem
    requires forall x {:trigger x in w.mem} | x != f ::
      (x in w.mem <==> x in t.mem) && (x in t.mem ==> w.mem[x] == t.mem[x])
    requires MapsTo(w, u, root, vpn, 1, f, perm, true)
    ensures FrameNew(t, u, root, vpn, 1, g)
  {
    hide Ok;
    var at := PageAt(root, vpn);
    VpnOfPageAt(root, vpn);
    HitsMore(at, root, vpn, 0, 1, vpn);
    assert PageMapped(w, u, root, vpn, 1, f, perm, true, at) && at in u.data && u.page[at].ppn == f;
    OwnedFrames(u, at, g);
    assert FrameMapped(w, u, 1, f, true, g);
    if g in u.own && u.own[g].Data? {
      HitsMore(u.own[g].page, root, vpn, 0, 1, vpn);
    }
    assert OwnedBy(u, g, root, vpn, 1) <==> g == f;
    assert g != f ==> (g in w.mem <==> g in t.mem);
  }

  lemma OwnedFrames(t: Store, p: Page, g: nat)
    requires Ok(t) && p in t.data
    ensures p in t.page && t.page[p].ppn in t.own && t.own[t.page[p].ppn] == Data(p)
    ensures g in t.own && t.own[g].Data? ==> t.own[g].page in t.page && t.page[t.own[g].page].ppn == g
  {
    assert DataOk(t, p) && OwnOk(t, g);
  }

  /** kalloc, fill and mappages of one page amount to adding it. */
  lemma AddsOne(t: Store, w: Store, u: Store, root: nat, vpn: nat, f: nat, perm: Flags)
    requires Ok(t) && Ok(u) && vpn < MAXVPN && PageAt(root, vpn) !in t.page
    requires f in t.own && t.own[f].Free? && w.own == t.own[f := Held] && f in w.mem
    requires w.page == t.page && w.data == t.data && w.node == t.node
    requires forall g {:trigger g in w.mem} | g != f ::
      (g in w.mem <==> g in t.mem) && (g in t.mem ==> w.mem[g] == t.mem[g])
    requires MapsTo(w, u, root, vpn, 1, f, perm, true)
    ensures Adds(t, u, root, vpn, 1)
    ensures PageAt(root, vpn) in u.page && u.page[PageAt(root, vpn)] == Pte(f, perm.(v := true)) && f in u.mem
      && u.mem[f] == w.mem[f]
  {
    var at := PageAt(root, vpn);
    VpnOfPageAt(root, vpn);
    assert PageMapped(w, u, root, vpn, 1, f, perm, true, at) && FrameMapped(w, u, 1, f, true, f) && DataOk(t, at)
      && DataOk(u, at);
    forall p: Page ensures PageNew(t, u, root, vpn, 1, p) {
      assert PageMapped(w, u, root, vpn, 1, f, perm, true, p) && DataOk(t, p);
      HitsMore(p, root, vpn, 0, 1, vpn);
    }
    forall g: nat ensures FrameNew(t, u, root, vpn, 1, g) { AddsOneFrame(t, w, u, root, vpn, f, perm, g); }
    forall m: Node ensures NodeKept(t, u, root, m) { assert NodeKept(w, u, root, m); }
  }

  /** ... and undoing it after mappages failed changes nothing. */
  lemma AddsFailed(t: Store, w: Store, x: Store, u: Store, root: nat, f: nat)
    requires f in t.own && t.own[f].Free? && w.own == t.own[f := Held]
    requires w.page == t.page && w.data == t.data && w.node == t.node
    requires forall g {:trigger g in w.mem} | g != f ::
      (g in w.mem <==> g in t.mem) && (g in t.mem ==> w.mem[g] == t.mem[g])
    requires SameMaps(w, x, root) && u == Given(x, f)
    ensures SameMaps(t, u, root)
  {
    forall g: nat ensures FrameKept(t, u, g) { assert FrameKept(w, x, g); }
    forall m: Node ensures NodeKept(t, u, root, m) { assert NodeKept(w, x, root, m); }
  }
}
