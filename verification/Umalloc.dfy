/** The user-level allocator (user/umalloc.c), described in section 8.7 of The C
    Programming Language, 2nd edition.  Addresses count units of one header. */
module Umalloc {
  import Blocks

  const UNIT: nat := 16   // sizeof(Header)

  datatype Block = Block(addr: nat, size: nat) {
    function End(): nat {
      addr + size
    }
  }

  // ---------- Sizes ----------

  /** malloc's nunits; the sum is computed in 64 bits. */
  function NUnits(nbytes: Blocks.word): (n: nat)
    ensures 1 <= n && nbytes <= (n - 1) * UNIT < nbytes + UNIT
  {
    (nbytes + UNIT - 1) / UNIT + 1
  }

  lemma UnitsBound(nbytes: Blocks.word)
    ensures NUnits(nbytes) <= 0x1000_0001
  {
  }

  /** morecore's nu: what is asked for, but at least 4096 units. */
  function CoreUnits(nu: nat): (r: nat)
    ensures nu <= r && 4096 <= r && (r == nu || r == 4096)
  {
    if nu < 4096 then 4096 else nu
  }

  /** What sbrk, which takes an int, is asked for: nu * sizeof(Header) cut to 32 bits
      and read as a signed number. */
  function SbrkArgument(nu: nat): int {
    var low := nu * UNIT % 0x1_0000_0000;
    if low < 0x8000_0000 then low else low - 0x1_0000_0000
  }

  const TOOMANY: nat := 0x800_0000

  /** morecore asks for as much memory as it then hands out exactly if the request is
      below 2^27 units. */
  lemma SbrkExact(nu: nat)
    ensures SbrkArgument(nu) == nu * UNIT <==> nu < TOOMANY
  {
  }

  /** And else, from 2^27 units to what the largest request takes, for less. */
  lemma SbrkShort(nu: nat)
    requires TOOMANY <= nu <= 0x1000_0001
    ensures SbrkArgument(nu) < nu * UNIT
  {
  }

  lemma SbrkUnits(nu: nat)
    requires nu < TOOMANY
    ensures SbrkArgument(nu) / UNIT == nu
  {
    SbrkExact(nu);
  }

  /** For the largest request it asks for one header's worth. */
  lemma LargestRequest()
    ensures NUnits(0xFFFF_FFFF) == 0x1000_0001 && SbrkArgument(CoreUnits(NUnits(0xFFFF_FFFF))) == 16
  {
  }

  // ---------- The free list as a sequence ----------

  ghost function Range(lo: nat, n: nat): set<nat> {
    if n == 0 then {} else Range(lo, n - 1) + {lo + n - 1}
  }

  lemma {:induction false} RangeIs(lo: nat, n: nat)
    ensures |Range(lo, n)| == n && forall x :: x in Range(lo, n) <==> lo <= x < lo + n
  {
    if n != 0 {
      RangeIs(lo, n - 1);
    }
  }

  /** The units of these blocks. */
  ghost function Units(bs: seq<Block>): set<nat> {
    if bs == [] then {} else Units(bs[..|bs| - 1]) + Range(bs[|bs| - 1].addr, bs[|bs| - 1].size)
  }

  ghost function Total(bs: seq<Block>): nat {
    if bs == [] then 0 else Total(bs[..|bs| - 1]) + bs[|bs| - 1].size
  }

  /** In address order, with a gap before the next one: fully coalesced. */
  ghost predicate Apart(bs: seq<Block>) {
    && (forall i | 0 <= i < |bs| :: 0 < bs[i].size)
    && (forall i, j | 0 <= i < j < |bs| :: bs[i].End() < bs[j].addr)
  }

  lemma {:induction false} InUnits(bs: seq<Block>, i: nat, x: nat)
    requires i < |bs| && bs[i].addr <= x < bs[i].End()
    ensures x in Units(bs)
  {
    if i < |bs| - 1 {
      InUnits(bs[..|bs| - 1], i, x);
    } else {
      RangeIs(bs[i].addr, bs[i].size);
    }
  }

  lemma {:induction false} UnitsIn(bs: seq<Block>, x: nat) returns (i: nat)
    requires x in Units(bs)
    ensures i < |bs| && bs[i].addr <= x < bs[i].End()
  {
    RangeIs(bs[|bs| - 1].addr, bs[|bs| - 1].size);
    if x in Range(bs[|bs| - 1].addr, bs[|bs| - 1].size) {
      i := |bs| - 1;
    } else {
      i := UnitsIn(bs[..|bs| - 1], x);
    }
  }

  lemma {:induction false} UnitsConcat(a: seq<Block>, b: seq<Block>)
    ensures Units(a + b) == Units(a) + Units(b)
  {
    if b == [] {
      assert a + b == a;
    } else {
      UnitsConcat(a, b[..|b| - 1]);
      assert (a + b)[..|a + b| - 1] == a + b[..|b| - 1];
    }
  }

  /** Coalesced blocks do not share units, so their sizes add up. */
  lemma {:induction false} UnitsTotal(bs: seq<Block>)
    requires Apart(bs)
    ensures |Units(bs)| == Total(bs)
  {
    if bs != [] {
      var n := |bs| - 1;
      UnitsTotal(bs[..n]);
      RangeIs(bs[n].addr, bs[n].size);
      forall x | x in Units(bs[..n]) ensures x < bs[n].addr {
        var i := UnitsIn(bs[..n], x);
      }
      assert Units(bs[..n]) !! Range(bs[n].addr, bs[n].size);
    }
  }

  /** Block `b`, joined with the block at index `k` if they touch. */
  function JoinUp(bs: seq<Block>, k: nat, b: Block): (Block, seq<Block>)
    requires k <= |bs|
  {
    if k < |bs| && b.End() == bs[k].addr then (Block(b.addr, b.size + bs[k].size), bs[k + 1..]) else (b, bs[k..])
  }

  /** The free list after `b` is put in before index `k`. */
  function Inserted(bs: seq<Block>, k: nat, b: Block): seq<Block>
    requires k <= |bs|
  {
    var (c, rest) := JoinUp(bs, k, b);
    if 0 < k && bs[k - 1].End() == b.addr
    then bs[..k - 1] + [Block(bs[k - 1].addr, bs[k - 1].size + c.size)] + rest
    else bs[..k] + [c] + rest
  }

  ghost predicate FitsAt(bs: seq<Block>, k: nat, b: Block) {
    k <= |bs| && 0 < b.size && (0 < k ==> bs[k - 1].End() <= b.addr) && (k < |bs| ==> b.End() <= bs[k].addr)
  }

  lemma ApartConcat(a: seq<Block>, b: seq<Block>)
    requires Apart(a) && Apart(b) && (a != [] && b != [] ==> a[|a| - 1].End() < b[0].addr)
    ensures Apart(a + b)
  {
    var c, n := a + b, |a|;
    forall i: nat, j: nat | i < j < |c| ensures c[i].End() < c[j].addr {
      if i < n <= j {
        assert a[i].End() <= a[n - 1].End() && b[0].addr <= b[j - n].addr;
        assert c[i] == a[i] && c[j] == b[j - n];
      } else if n <= i {
        assert c[i] == b[i - n] && c[j] == b[j - n];
      } else {
        assert c[i] == a[i] && c[j] == a[j];
      }
    }
    forall i: nat | i < |c| ensures 0 < c[i].size {
      assert c[i] == if i < n then a[i] else b[i - n];
    }
  }

  lemma ApartSlice(bs: seq<Block>, lo: nat, hi: nat)
    requires Apart(bs) && lo <= hi <= |bs|
    ensures Apart(bs[lo..hi])
  {
  }

  lemma JoinUpApart(bs: seq<Block>, k: nat, b: Block, d: Block)
    requires Apart(bs) && FitsAt(bs, k, b) && 0 < d.size && d.End() == JoinUp(bs, k, b).0.End()
    ensures Apart([d] + JoinUp(bs, k, b).1)
  {
    var up := if k < |bs| && b.End() == bs[k].addr then k + 1 else k;
    ApartSlice(bs, up, |bs|);
    ApartConcat([d], bs[up..]);
  }

  /** Blocks `left`, then one that begins later, then the rest. */
  lemma ApartAround(bs: seq<Block>, n: nat, mid: seq<Block>)
    requires Apart(bs) && n <= |bs| && Apart(mid) && mid != [] && (0 < n ==> bs[n - 1].End() < mid[0].addr)
    ensures Apart(bs[..n] + mid)
  {
    ApartSlice(bs, 0, n);
    hide Apart;
    ApartConcat(bs[..n], mid);
  }

  lemma InsertedApart(bs: seq<Block>, k: nat, b: Block)
    requires Apart(bs) && FitsAt(bs, k, b)
    ensures Apart(Inserted(bs, k, b))
  {
    var (c, rest) := JoinUp(bs, k, b);
    assert 1 < k ==> bs[k - 2].End() < bs[k - 1].addr;
    assert c.addr == b.addr && 0 < c.size;
    assert Inserted(bs, k, b) == if 0 < k && bs[k - 1].End() == b.addr
                                 then bs[..k - 1] + ([Block(bs[k - 1].addr, bs[k - 1].size + c.size)] + rest)
                                 else bs[..k] + ([c] + rest);
    hide Apart, JoinUp, Inserted;
    if 0 < k && bs[k - 1].End() == b.addr {
      var d := Block(bs[k - 1].addr, bs[k - 1].size + c.size);
      JoinUpApart(bs, k, b, d);
      ApartAround(bs, k - 1, [d] + rest);
    } else {
      JoinUpApart(bs, k, b, c);
      ApartAround(bs, k, [c] + rest);
    }
  }

  lemma {:induction false} RangeJoin(lo: nat, n: nat, m: nat)
    ensures Range(lo, n + m) == Range(lo, n) + Range(lo + n, m)
  {
    if m != 0 {
      RangeJoin(lo, n, m - 1);
    }
  }

  lemma UnitsOne(b: Block)
    ensures Units([b]) == Range(b.addr, b.size)
  {
    assert [b][..0] == [];
  }

  lemma JoinUpUnits(bs: seq<Block>, k: nat, b: Block)
    requires k <= |bs|
    ensures Units([JoinUp(bs, k, b).0] + JoinUp(bs, k, b).1) == Range(b.addr, b.size) + Units(bs[k..])
  {
    hide Units, Range;
    var (c, rest) := JoinUp(bs, k, b);
    UnitsConcat([c], rest);
    UnitsOne(c);
    if k < |bs| && b.End() == bs[k].addr {
      UnitsConcat([bs[k]], rest);
      assert [bs[k]] + rest == bs[k..];
      UnitsOne(bs[k]);
      RangeJoin(b.addr, b.size, bs[k].size);
    }
  }

  lemma UnitsAround(a: seq<Block>, b: Block, c: seq<Block>)
    ensures Units(a + [b] + c) == Units(a) + Range(b.addr, b.size) + Units(c)
  {
    UnitsConcat(a + [b], c);
    UnitsConcat(a, [b]);
    UnitsOne(b);
  }

  /** Inserting a block adds exactly its units. */
  lemma InsertedUnits(bs: seq<Block>, k: nat, b: Block)
    requires k <= |bs|
    ensures Units(Inserted(bs, k, b)) == Units(bs) + Range(b.addr, b.size)
  {
    hide Units, Range;
    var (c, rest) := JoinUp(bs, k, b);
    UnitsSplit(bs, k, b);
    UnitsAround(bs[..k], c, rest);
    if 0 < k && bs[k - 1].End() == b.addr {
      UnitsDown(bs[..k - 1], bs[k - 1], c, rest);
      assert bs[..k - 1] + [bs[k - 1]] == bs[..k];
    }
  }

  lemma UnitsSplit(bs: seq<Block>, k: nat, b: Block)
    requires k <= |bs|
    ensures var (c, rest) := JoinUp(bs, k, b);
            Units(bs[..k]) + (Range(c.addr, c.size) + Units(rest)) == Units(bs) + Range(b.addr, b.size)
  {
    hide Units, Range;
    var (c, rest) := JoinUp(bs, k, b);
    JoinUpUnits(bs, k, b);
    UnitsConcat([c], rest);
    UnitsOne(c);
    UnitsConcat(bs[..k], bs[k..]);
    assert bs[..k] + bs[k..] == bs;
  }

  /** Joining block `c` to the one below it. */
  lemma UnitsDown(bs: seq<Block>, b: Block, c: Block, rest: seq<Block>)
    requires b.End() == c.addr
    ensures Units(bs + [Block(b.addr, b.size + c.size)] + rest) == Units(bs + [b]) + Range(c.addr, c.size) + Units(rest)
  {
    hide Units, Range;
    UnitsAround(bs, Block(b.addr, b.size + c.size), rest);
    UnitsConcat(bs, [b]);
    UnitsOne(b);
    RangeJoin(b.addr, b.size, c.size);
  }

  /** The free list after malloc takes `n` units off the end of block `i`. */
  function Carved(bs: seq<Block>, i: nat, n: nat): seq<Block>
    requires i < |bs| && n <= bs[i].size
  {
    if bs[i].size == n then bs[..i] + bs[i + 1..] else bs[i := Block(bs[i].addr, bs[i].size - n)]
  }

  lemma CarvedApart(bs: seq<Block>, i: nat, n: nat)
    requires Apart(bs) && i < |bs| && n <= bs[i].size
    ensures Apart(Carved(bs, i, n))
  {
  }

  lemma CarvedUnits(bs: seq<Block>, i: nat, n: nat)
    requires i < |bs| && n <= bs[i].size
    ensures Units(Carved(bs, i, n)) + Range(bs[i].End() - n, n) == Units(bs)
  {
    hide Units, Range;
    var b, left, right := bs[i], bs[..i], bs[i + 1..];
    assert bs == left + [b] + right;
    UnitsAround(left, b, right);
    if b.size == n {
      UnitsConcat(left, right);
    } else {
      var c := Block(b.addr, b.size - n);
      assert Carved(bs, i, n) == left + [c] + right;
      UnitsAround(left, c, right);
      RangeJoin(b.addr, b.size - n, n);
    }
  }

  lemma CarvedAway(bs: seq<Block>, i: nat, n: nat)
    requires Apart(bs) && i < |bs| && n <= bs[i].size
    ensures Units(Carved(bs, i, n)) !! Range(bs[i].End() - n, n)
  {
    var cs := Carved(bs, i, n);
    RangeIs(bs[i].End() - n, n);
    forall x | x in Units(cs) ensures x !in Range(bs[i].End() - n, n) {
      var j := UnitsIn(cs, x);
    }
  }

  // ---------- The linked list ----------

  /** The `i`th header of the circle: base, then the free blocks. */
  function Node(base: nat, bs: seq<Block>, i: nat): nat
    requires i <= |bs|
  {
    if i == 0 then base else bs[i - 1].addr
  }

  function Next(bs: seq<Block>, i: nat): nat {
    if i < |bs| then i + 1 else 0
  }

  ghost predicate LinkOk(ptr: map<nat, nat>, size: map<nat, nat>, base: nat, bs: seq<Block>, i: nat) {
    i <= |bs| ==>
      && Node(base, bs, i) in ptr && ptr[Node(base, bs, i)] == Node(base, bs, Next(bs, i))
      && Node(base, bs, i) in size && size[Node(base, bs, i)] == if i == 0 then 0 else bs[i - 1].size
  }

  /** Circular, in address order with one wrap, fully coalesced. */
  ghost predicate ListOk(ptr: map<nat, nat>, size: map<nat, nat>, base: nat, bs: seq<Block>) {
    && Apart(bs) && (bs != [] ==> base < bs[0].addr)
    && forall i {:trigger LinkOk(ptr, size, base, bs, i)} :: LinkOk(ptr, size, base, bs, i)
  }

  lemma NodesRise(base: nat, bs: seq<Block>, i: nat, j: nat)
    requires Apart(bs) && (bs != [] ==> base < bs[0].addr) && i < j <= |bs|
    ensures Node(base, bs, i) < Node(base, bs, j)
  {
  }

  /** `bp` lies between node `k` and the next. */
  ghost predicate Between(base: nat, bs: seq<Block>, k: nat, bp: nat) {
    k <= |bs| && Node(base, bs, k) < bp && (k < |bs| ==> bp < Node(base, bs, k + 1))
  }

  lemma {:induction false} FindPosition(base: nat, bs: seq<Block>, bp: nat) returns (k: nat)
    requires Apart(bs) && base < bp && forall i | 0 <= i < |bs| :: bs[i].addr != bp
    ensures Between(base, bs, k, bp)
  {
    if bs == [] || bs[|bs| - 1].addr < bp {
      k := |bs|;
    } else {
      k := FindPosition(base, bs[..|bs| - 1], bp);
    }
  }

  lemma OnePosition(base: nat, bs: seq<Block>, k: nat, i: nat, bp: nat)
    requires Apart(bs) && (bs != [] ==> base < bs[0].addr) && Between(base, bs, k, bp) && Between(base, bs, i, bp)
    ensures i == k
  {
    forall x, y | 0 <= x < y <= |bs| ensures Node(base, bs, x) < Node(base, bs, y) { NodesRise(base, bs, x, y); }
  }

  lemma NodesDistinct(base: nat, bs: seq<Block>)
    requires Apart(bs) && (bs != [] ==> base < bs[0].addr)
    ensures forall x, y | 0 <= x < y <= |bs| :: Node(base, bs, x) < Node(base, bs, y)
  {
    forall x, y | 0 <= x < y <= |bs| ensures Node(base, bs, x) < Node(base, bs, y) { NodesRise(base, bs, x, y); }
  }

  lemma NodeFacts(ptr: map<nat, nat>, size: map<nat, nat>, base: nat, bs: seq<Block>, i: nat)
    requires ListOk(ptr, size, base, bs) && 1 <= i <= |bs| && 0 < base
    ensures Apart(bs) && base < bs[i - 1].addr && Node(base, bs, i - 1) != 0 && Node(base, bs, i) == bs[i - 1].addr
    ensures var p := bs[i - 1].addr;
            p in ptr && ptr[p] == Node(base, bs, Next(bs, i)) && p in size && size[p] == bs[i - 1].size
  {
    assert LinkOk(ptr, size, base, bs, i);
  }

  /** Headers outside the list do not matter. */
  lemma ListIgnores(ptr: map<nat, nat>, size: map<nat, nat>, base: nat, bs: seq<Block>, a: nat, v: nat, n: nat)
    requires ListOk(ptr, size, base, bs) && forall i | 0 <= i <= |bs| :: Node(base, bs, i) != a
    ensures ListOk(ptr[a := v], size[a := n], base, bs) && ListOk(ptr, size[a := n], base, bs)
  {
    var ptr1, size1 := ptr[a := v], size[a := n];
    forall i: nat ensures LinkOk(ptr1, size1, base, bs, i) && LinkOk(ptr, size1, base, bs, i) {
      assert LinkOk(ptr, size, base, bs, i);
    }
  }

  /** `cs` is `bs` without the block at index `k`. */
  ghost predicate TakenOut(bs: seq<Block>, k: nat, cs: seq<Block>) {
    && k < |bs| && |cs| == |bs| - 1
    && (forall x | 0 <= x < k :: cs[x] == bs[x]) && (forall x | k <= x < |cs| :: cs[x] == bs[x + 1])
  }

  lemma UnlinkedAt(ptr: map<nat, nat>, size: map<nat, nat>, base: nat, bs: seq<Block>, k: nat, cs: seq<Block>, i: nat)
    requires ListOk(ptr, size, base, bs) && TakenOut(bs, k, cs)
    ensures LinkOk(ptr[Node(base, bs, k) := Node(base, bs, Next(bs, k + 1))], size, base, cs, i)
  {
    hide Apart;
    if i <= |cs| {
      var j := if i <= k then i else i + 1;
      assert LinkOk(ptr, size, base, bs, j) && Node(base, cs, i) == Node(base, bs, j);
      if i < k {
        NodesRise(base, bs, i, k);
        assert Node(base, cs, i + 1) == Node(base, bs, i + 1);
      } else if i == k {
        assert Node(base, cs, Next(cs, i)) == Node(base, bs, Next(bs, k + 1));
      } else {
        NodesRise(base, bs, k, j);
        assert Node(base, cs, Next(cs, i)) == Node(base, bs, Next(bs, j));
      }
    }
  }

  /** Making node `k` point past its successor takes that block off the list. */
  lemma Unlinked(ptr: map<nat, nat>, size: map<nat, nat>, base: nat, bs: seq<Block>, k: nat)
    requires ListOk(ptr, size, base, bs) && k < |bs|
    ensures ListOk(ptr[Node(base, bs, k) := Node(base, bs, Next(bs, k + 1))], size, base, bs[..k] + bs[k + 1..])
  {
    hide Apart, LinkOk;
    var cs := bs[..k] + bs[k + 1..];
    CarvedApart(bs, k, bs[k].size);
    assert TakenOut(bs, k, cs);
    if 1 < |bs| {
      NodesRise(base, bs, 0, 2);
    }
    var ptr1 := ptr[Node(base, bs, k) := Node(base, bs, Next(bs, k + 1))];
    forall i: nat ensures LinkOk(ptr1, size, base, cs, i) { UnlinkedAt(ptr, size, base, bs, k, cs, i); }
  }

  /** `cs` is `bs` with `c` put in before index `k`. */
  ghost predicate PutIn(bs: seq<Block>, k: nat, c: Block, cs: seq<Block>) {
    && k <= |bs| && |cs| == |bs| + 1 && cs[k] == c
    && (forall x | 0 <= x < k :: cs[x] == bs[x]) && (forall x | k < x < |cs| :: cs[x] == bs[x - 1])
  }

  lemma LinkedAt(ptr: map<nat, nat>, size: map<nat, nat>, base: nat, bs: seq<Block>, k: nat, c: Block, cs: seq<Block>,
                 i: nat)
    requires ListOk(ptr, size, base, bs) && base < c.addr && PutIn(bs, k, c, cs) && Apart(cs)
    ensures LinkOk(ptr[c.addr := Node(base, bs, Next(bs, k))][Node(base, bs, k) := c.addr], size[c.addr := c.size],
      base, cs, i)
  {
    hide Apart;
    if i <= |cs| {
      assert LinkOk(ptr, size, base, bs, if i <= k then i else i - 1);
      assert base < cs[0].addr;
      NodesRise(base, cs, k, k + 1);
      if i < k {
        NodesRise(base, cs, i, k);
        NodesRise(base, cs, i, k + 1);
      } else if i > k + 1 {
        NodesRise(base, cs, k, i);
        NodesRise(base, cs, k + 1, i);
      }
    }
  }

  /** Putting block `c` after node `k`. */
  lemma Linked(ptr: map<nat, nat>, size: map<nat, nat>, base: nat, bs: seq<Block>, k: nat, c: Block)
    requires ListOk(ptr, size, base, bs) && k <= |bs| && base < c.addr && Apart(bs[..k] + [c] + bs[k..])
    ensures ListOk(ptr[c.addr := Node(base, bs, Next(bs, k))][Node(base, bs, k) := c.addr], size[c.addr := c.size],
      base, bs[..k] + [c] + bs[k..])
  {
    hide Apart, LinkOk;
    var cs := bs[..k] + [c] + bs[k..];
    var ptr1, size1 := ptr[c.addr := Node(base, bs, Next(bs, k))][Node(base, bs, k) := c.addr], size[c.addr := c.size];
    assert PutIn(bs, k, c, cs);
    forall i: nat ensures LinkOk(ptr1, size1, base, cs, i) { LinkedAt(ptr, size, base, bs, k, c, cs, i); }
  }

  /** Changing the size of block `i`. */
  lemma Resized(ptr: map<nat, nat>, size: map<nat, nat>, base: nat, bs: seq<Block>, i: nat, n: nat)
    requires ListOk(ptr, size, base, bs) && i < |bs| && Apart(bs[i := Block(bs[i].addr, n)])
    ensures ListOk(ptr, size[bs[i].addr := n], base, bs[i := Block(bs[i].addr, n)])
  {
    var cs := bs[i := Block(bs[i].addr, n)];
    NodesDistinct(base, bs);
    hide Apart;
    var size1 := size[bs[i].addr := n];
    forall j: nat ensures LinkOk(ptr, size1, base, cs, j) { assert LinkOk(ptr, size, base, bs, j); }
  }

  /** What free leaves in the headers, once it has found `p`. */
  function FreePtr(ptr: map<nat, nat>, size: map<nat, nat>, p: nat, b: Block): map<nat, nat>
    requires p in ptr && p in size && (b.End() == ptr[p] ==> ptr[p] in ptr)
  {
    var after := if b.End() == ptr[p] then ptr[ptr[p]] else ptr[p];
    ptr[b.addr := after][p := if p + size[p] == b.addr then after else b.addr]
  }

  function FreeSize(ptr: map<nat, nat>, size: map<nat, nat>, p: nat, b: Block): map<nat, nat>
    requires p in ptr && p in size && (b.End() == ptr[p] ==> ptr[p] in size)
  {
    var c := if b.End() == ptr[p] then b.size + size[ptr[p]] else b.size;
    if p + size[p] == b.addr then size[b.addr := c][p := size[p] + c] else size[b.addr := c]
  }

  lemma InsertedSteps(bs: seq<Block>, k: nat, b: Block, bs1: seq<Block>, c: Block)
    requires k <= |bs| && bs1 == (if k < |bs| && b.End() == bs[k].addr then bs[..k] + bs[k + 1..] else bs)
      && c == JoinUp(bs, k, b).0
    ensures k <= |bs1|
    ensures Inserted(bs, k, b) == if 0 < k && bs[k - 1].End() == b.addr
      then bs1[k - 1 := Block(bs[k - 1].addr, bs[k - 1].size + c.size)]
                                  else bs1[..k] + [c] + bs1[k..]
  {
    assert bs1[k..] == JoinUp(bs, k, b).1 && bs1[..k] == bs[..k];
  }

  /** The first of free's two joins: the block after `p`, if `b` reaches it, leaves
      the list. */
  lemma JoinsUp(ptr: map<nat, nat>, size: map<nat, nat>, base: nat, bs: seq<Block>, k: nat, b: Block)
    requires ListOk(ptr, size, base, bs) && base < b.addr && k <= |bs|
    ensures var p := Node(base, bs, k); var up := k < |bs| && b.End() == bs[k].addr;
            && p in ptr && p in size && (up <==> b.End() == ptr[p])
            && (up ==> ptr[p] in ptr && ptr[p] in size && size[ptr[p]] == bs[k].size)
            && (k != 0 ==> size[p] == bs[k - 1].size) && (k == 0 ==> size[p] == 0)
            && var bs1 := if up then bs[..k] + bs[k + 1..] else bs;
            && ListOk(if up then ptr[p := ptr[ptr[p]]] else ptr, size, base, bs1)
            && k <= |bs1| && Node(base, bs1, k) == p && Node(base, bs1, Next(bs1, k)) == if up then ptr[ptr[p]]
                 else ptr[p]
  {
    assert LinkOk(ptr, size, base, bs, k) && LinkOk(ptr, size, base, bs, k + 1);
    if k < |bs| && b.End() == bs[k].addr {
      Unlinked(ptr, size, base, bs, k);
    }
  }

  /** The second: the block before `b` takes in `c`, or `c` becomes a block of its own. */
  lemma JoinsDown(ptr: map<nat, nat>, size: map<nat, nat>, base: nat, bs: seq<Block>, k: nat, c: Block, d: Block,
                  v: nat)
    requires ListOk(ptr, size, base, bs) && 0 < k <= |bs| && bs[k - 1].End() == c.addr && 0 < c.size
    requires d == Block(bs[k - 1].addr, bs[k - 1].size + c.size) && Apart(bs[k - 1 := d])
    ensures ListOk(ptr[c.addr := v], size[c.addr := c.size][d.addr := d.size], base, bs[k - 1 := d])
  {
    var cs := bs[k - 1 := d];
    assert 0 < bs[k - 1].size;
    Resized(ptr, size, base, bs, k - 1, d.size);
    NodesDistinct(base, cs);
    forall i | 0 <= i <= |cs| ensures Node(base, cs, i) != c.addr {
      assert Node(base, cs, k) == d.addr && (i > k ==> d.End() < cs[i - 1].addr);
    }
    hide Apart;
    ListIgnores(ptr, size[d.addr := d.size], base, cs, c.addr, v, c.size);
    assert size[c.addr := c.size][d.addr := d.size] == size[d.addr := d.size][c.addr := c.size];
  }

  lemma FreeMaps(ptr: map<nat, nat>, size: map<nat, nat>, p: nat, b: Block)
    requires p in ptr && p in size && (b.End() == ptr[p] ==> ptr[p] in ptr && ptr[p] in size) && p != b.addr
    ensures var up := b.End() == ptr[p];
            var ptr1: map<nat, nat> := if up then ptr[p := ptr[ptr[p]]] else ptr;
            var after: nat := if up then ptr[ptr[p]] else ptr[p];
            var c: nat := if up then b.size + size[ptr[p]] else b.size;
            var ptr2, size2 := ptr1[b.addr := after], size[b.addr := c];
            if p + size[p] == b.addr
            then FreePtr(ptr, size, p, b) == ptr2 && FreeSize(ptr, size, p, b) == size2[p := size[p] + c]
            else FreePtr(ptr, size, p, b) == ptr2[p := b.addr] && FreeSize(ptr, size, p, b) == size2
  {
  }

  /** The list, the header fields and the block after the first join. */
  lemma AfterJoinUp(ptr: map<nat, nat>, size: map<nat, nat>, base: nat, bs: seq<Block>, k: nat, b: Block)
    returns (bs1: seq<Block>, ptr1: map<nat, nat>, after: nat, c: Block)
    requires ListOk(ptr, size, base, bs) && base < b.addr && FitsAt(bs, k, b)
    ensures ListOk(ptr1, size, base, bs1) && k <= |bs1| && Node(base, bs1, k) == Node(base, bs, k)
      && Node(base, bs1, Next(bs1, k)) == after
    ensures c.addr == b.addr && 0 < c.size && (0 < k ==> bs1[k - 1] == bs[k - 1])
    ensures Inserted(bs, k, b) == if 0 < k && bs[k - 1].End() == b.addr
      then bs1[k - 1 := Block(bs[k - 1].addr, bs[k - 1].size + c.size)]
                                  else bs1[..k] + [c] + bs1[k..]
    ensures var p := Node(base, bs, k);
            && p in ptr && p in size && size[p] == (if k == 0 then 0 else bs[k - 1].size)
            && (b.End() == ptr[p] ==> ptr[p] in ptr && ptr[p] in size)
            && ptr1 == (if b.End() == ptr[p] then ptr[p := ptr[ptr[p]]] else ptr)
            && after == (if b.End() == ptr[p] then ptr[ptr[p]] else ptr[p])
            && c.size == (if b.End() == ptr[p] then b.size + size[ptr[p]] else b.size)
  {
    JoinsUp(ptr, size, base, bs, k, b);
    hide ListOk, Apart;
    var p := Node(base, bs, k);
    var up := k < |bs| && b.End() == bs[k].addr;
    bs1 := if up then bs[..k] + bs[k + 1..] else bs;
    ptr1 := if up then ptr[p := ptr[ptr[p]]] else ptr;
    after := if up then ptr[ptr[p]] else ptr[p];
    c := JoinUp(bs, k, b).0;
    InsertedSteps(bs, k, b, bs1, c);
  }

  lemma FreeLinks(ptr: map<nat, nat>, size: map<nat, nat>, base: nat, bs: seq<Block>, k: nat, b: Block)
    requires ListOk(ptr, size, base, bs) && base < b.addr && FitsAt(bs, k, b)
    ensures Node(base, bs, k) in ptr && Node(base, bs, k) in size
    ensures b.End() == ptr[Node(base, bs, k)] ==> ptr[Node(base, bs, k)] in ptr && ptr[Node(base, bs, k)] in size
    ensures ListOk(FreePtr(ptr, size, Node(base, bs, k), b), FreeSize(ptr, size, Node(base, bs, k), b), base,
      Inserted(bs, k, b))
  {
    InsertedApart(bs, k, b);
    assert k == 0 || bs[k - 1].addr < b.addr;
    hide ListOk, Apart, Inserted, FreePtr, FreeSize, LinkOk;
    var bs1, ptr1, after, c := AfterJoinUp(ptr, size, base, bs, k, b);
    FreeMaps(ptr, size, Node(base, bs, k), b);
    if 0 < k && bs[k - 1].End() == b.addr {
      JoinsDown(ptr1, size, base, bs1, k, c, Block(bs[k - 1].addr, bs[k - 1].size + c.size), after);
    } else {
      Linked(ptr1, size, base, bs1, k, c);
    }
  }

  // ---------- The allocator ----------

  /** Header `a` begins a block that malloc handed out. */
  ghost predicate LiveOk(size: map<nat, nat>, base: nat, live: map<nat, nat>, owner: map<nat, nat>, a: nat) {
    a in live ==>
      && 0 < live[a] && base < a && a in size && size[a] == live[a]
      && forall x {:trigger x in owner} | a <= x < a + live[a] :: x in owner && owner[x] == a
  }

  ghost predicate OwnerOk(live: map<nat, nat>, owner: map<nat, nat>, x: nat) {
    x in owner ==> owner[x] in live && owner[x] <= x < owner[x] + live[owner[x]]
  }

  /** `owner` maps each unit of a live block to its header, so live blocks do not
      overlap. */
  ghost predicate LiveAll(size: map<nat, nat>, base: nat, live: map<nat, nat>, owner: map<nat, nat>) {
    && (forall a {:trigger LiveOk(size, base, live, owner, a)} :: LiveOk(size, base, live, owner, a))
    && (forall x {:trigger OwnerOk(live, owner, x)} :: OwnerOk(live, owner, x))
  }

  ghost function OwnerMap(a: nat, n: nat): map<nat, nat> {
    map x | x in Range(a, n) :: a
  }

  /** The memory that sbrk granted is exactly the free units and the live units. */
  ghost predicate Shared(base: nat, bs: seq<Block>, owner: map<nat, nat>, granted: set<nat>) {
    granted == Units(bs) + owner.Keys && Units(bs) !! owner.Keys && forall x | x in granted :: base < x
  }

  lemma SharedFreed(base: nat, bs: seq<Block>, owner: map<nat, nat>, granted: set<nat>, bs1: seq<Block>,
                    units: set<nat>)
    requires Shared(base, bs, owner, granted) && units <= owner.Keys && Units(bs1) == Units(bs) + units
    ensures Shared(base, bs1, owner - units, granted)
  {
    hide Units;
    assert (owner - units).Keys == owner.Keys - units;
  }

  /** ... so the sizes of the free blocks and the live units add up to it. */
  lemma Conserved(base: nat, bs: seq<Block>, owner: map<nat, nat>, granted: set<nat>)
    requires Apart(bs) && Shared(base, bs, owner, granted)
    ensures Total(bs) + |owner| == |granted|
  {
    UnitsTotal(bs);
    assert |Units(bs) + owner.Keys| == |Units(bs)| + |owner.Keys|;
  }

  lemma LiveAdded(size: map<nat, nat>, base: nat, live: map<nat, nat>, owner: map<nat, nat>, size1: map<nat, nat>,
                  a: nat, n: nat)
    requires LiveAll(size, base, live, owner) && 0 < n && base < a && Range(a, n) !! owner.Keys
    requires a in size1 && size1[a] == n && forall c | c in live :: c in size && c in size1 && size1[c] == size[c]
    ensures a !in live && LiveAll(size1, base, live[a := n], owner + OwnerMap(a, n))
  {
    RangeIs(a, n);
    assert LiveOk(size, base, live, owner, a);
    var live1, owner1 := live[a := n], owner + OwnerMap(a, n);
    forall c: nat ensures LiveOk(size1, base, live1, owner1, c) { assert LiveOk(size, base, live, owner, c); }
    forall x: nat ensures OwnerOk(live1, owner1, x) { assert OwnerOk(live, owner, x); }
  }

  lemma LiveRemoved(size: map<nat, nat>, base: nat, live: map<nat, nat>, owner: map<nat, nat>, size1: map<nat, nat>,
                    a: nat)
    requires LiveAll(size, base, live, owner) && a in live
    requires forall c | c in live && c != a :: c in size && c in size1 && size1[c] == size[c]
    ensures LiveAll(size1, base, live - {a}, owner - Range(a, live[a])) && Range(a, live[a]) <= owner.Keys
  {
    RangeIs(a, live[a]);
    assert LiveOk(size, base, live, owner, a);
    var live1, owner1 := live - {a}, owner - Range(a, live[a]);
    forall c: nat ensures LiveOk(size1, base, live1, owner1, c) {
      assert LiveOk(size, base, live, owner, c);
      if c in live1 {
        forall x | c <= x < c + live1[c] ensures x in owner1 && owner1[x] == c {
          assert owner[x] == c;
          assert owner[x] == a || x !in Range(a, live[a]);
        }
      }
    }
    forall x: nat ensures OwnerOk(live1, owner1, x) { assert OwnerOk(live, owner, x); }
  }

  /** A block disjoint from the free ones fits in the gap where its address lies. */
  lemma GapFits(base: nat, bs: seq<Block>, k: nat, b: Block)
    requires Apart(bs) && Between(base, bs, k, b.addr) && 0 < b.size && Units(bs) !! Range(b.addr, b.size)
    ensures FitsAt(bs, k, b)
  {
    RangeIs(b.addr, b.size);
    if 0 < k && b.addr < bs[k - 1].End() {
      InUnits(bs, k - 1, b.addr);
    } else if k < |bs| && bs[k].addr < b.End() {
      InUnits(bs, k, bs[k].addr);
    }
  }

  lemma NotAFreeBlock(bs: seq<Block>, bp: nat)
    requires Apart(bs) && bp !in Units(bs)
    ensures forall i | 0 <= i < |bs| :: bs[i].addr != bp
  {
    forall i | 0 <= i < |bs| ensures bs[i].addr != bp { InUnits(bs, i, bs[i].addr); }
  }

  /** free does not touch the headers of other live blocks. */
  lemma FreeKeepsLive(ptr: map<nat, nat>, size: map<nat, nat>, base: nat, bs: seq<Block>, live: map<nat, nat>,
                      owner: map<nat, nat>, p: nat, b: Block, k: nat)
    requires LiveAll(size, base, live, owner) && Apart(bs) && Units(bs) !! owner.Keys && k <= |bs|
      && p == Node(base, bs, k)
    requires p in ptr && p in size && (b.End() == ptr[p] ==> ptr[p] in size)
    ensures forall c | c in live && c != b.addr ::
      c in size && c in FreeSize(ptr, size, p, b) && FreeSize(ptr, size, p, b)[c] == size[c]
  {
    forall c | c in live && c != b.addr
      ensures c in size && c in FreeSize(ptr, size, p, b) && FreeSize(ptr, size, p, b)[c] == size[c]
    {
      assert LiveOk(size, base, live, owner, c);
      NotAFreeBlock(bs, c);
    }
  }

  /** Going round the circle from after `at`, node `j` comes before node `i`. */
  predicate Passed(at: nat, i: nat, j: nat) {
    if i > at then at < j < i else at < j || j < i
  }

  /** Everything about freeing block `bp`, with `k` the gap it belongs in. */
  lemma FreeReady(ptr: map<nat, nat>, size: map<nat, nat>, base: nat, bs: seq<Block>, live: map<nat, nat>,
                  owner: map<nat, nat>, granted: set<nat>, bp: nat)
    returns (k: nat, p: nat, b: Block)
    requires 0 < base && LiveAll(size, base, live, owner) && Shared(base, bs, owner, granted)
      && ListOk(ptr, size, base, bs) && bp in live
    ensures base < bp && k <= |bs| && Between(base, bs, k, bp) && p == Node(base, bs, k) && p != 0 && p != bp
    ensures bp in size && b == Block(bp, size[bp]) && b.size == live[bp]
    ensures p in ptr && p in size && (b.End() == ptr[p] ==> ptr[p] in ptr && ptr[p] in size && ptr[p] != bp)
    ensures ListOk(FreePtr(ptr, size, p, b), FreeSize(ptr, size, p, b), base, Inserted(bs, k, b))
    ensures LiveAll(FreeSize(ptr, size, p, b), base, live - {bp}, owner - Range(bp, b.size))
    ensures Shared(base, Inserted(bs, k, b), owner - Range(bp, b.size), granted)
    ensures k <= |Inserted(bs, k, b)| && Node(base, Inserted(bs, k, b), k) == p
  {
    b := Block(bp, live[bp]);
    assert LiveOk(size, base, live, owner, bp);
    NotAFreeBlock(bs, bp);
    k := FindPosition(base, bs, bp);
    p := Node(base, bs, k);
    assert Range(bp, b.size) <= owner.Keys by { RangeIs(bp, b.size); }
    hide Units, LiveAll;
    GapFits(base, bs, k, b);
    FreeLinks(ptr, size, base, bs, k, b);
    InsertedKeepsNode(base, bs, k, b);
    hide Inserted, LinkOk, FreePtr, FreeSize;
    InsertedUnits(bs, k, b);
    FreeKeepsLive(ptr, size, base, bs, live, owner, p, b, k);
    hide ListOk, Apart;
    LiveRemoved(size, base, live, owner, FreeSize(ptr, size, p, b), bp);
    SharedFreed(base, bs, owner, granted, Inserted(bs, k, b), Range(bp, b.size));
  }

  class Heap {
    const base: nat
    var ptr: map<nat, nat>     // header fields, by address
    var size: map<nat, nat>
    var freep: nat             // 0 is the null pointer
    ghost var bs: seq<Block>   // the free blocks
    ghost var at: nat          // where freep is in the circle
    ghost var live: map<nat, nat>
    ghost var owner: map<nat, nat>
    ghost var granted: set<nat>

    ghost predicate Valid()
      reads this
    {
      && 0 < base && LiveAll(size, base, live, owner) && Shared(base, bs, owner, granted)
      && if freep == 0 then bs == [] else ListOk(ptr, size, base, bs) && at <= |bs| && freep == Node(base, bs, at)
    }

    constructor (base: nat)
      requires 0 < base
      ensures Valid() && freep == 0 && live == map[] && granted == {} && this.base == base
    {
      this.base := base;
      ptr, size, freep := map[], map[], 0;
      bs, at, live, owner, granted := [], 0, map[], map[], {};
    }

    /** free's search, from wherever freep is. */
    method FindGap(bp: nat, ghost k: nat) returns (p: nat)
      requires Valid() && freep != 0 && Between(base, bs, k, bp) && base < bp
      ensures p == Node(base, bs, k)
    {
      p := freep;
      ghost var i: nat := at;
      NodesDistinct(base, bs);
      assert LinkOk(ptr, size, base, bs, i);
      while !(bp > p && bp < ptr[p])
        invariant i <= |bs| && p == Node(base, bs, i) && LinkOk(ptr, size, base, bs, i)
        decreases if i <= k then k - i else k - i + |bs| + 1
      {
        if p >= ptr[p] && (bp > p || bp < ptr[p]) {
          break;
        }
        assert LinkOk(ptr, size, base, bs, Next(bs, i));
        p := ptr[p];
        i := Next(bs, i);
      }
      OnePosition(base, bs, k, i, bp);
    }

    /** free's pointer updates. */
    method Splice(p: nat, bp: nat, ghost b: Block)
      requires p in ptr && p in size && bp in size && b == Block(bp, size[bp]) && p != bp
      requires b.End() == ptr[p] ==> ptr[p] in ptr && ptr[p] in size && ptr[p] != bp
      modifies this`ptr, this`size, this`freep
      ensures ptr == FreePtr(old(ptr), old(size), p, b) && size == FreeSize(old(ptr), old(size), p, b) && freep == p
    {
      if bp + size[bp] == ptr[p] {
        size := size[bp := size[bp] + size[ptr[p]]];
        ptr := ptr[bp := ptr[ptr[p]]];
      } else {
        ptr := ptr[bp := ptr[p]];
      }
      if p + size[p] == bp {
        size := size[p := size[p] + size[bp]];
        ptr := ptr[p := ptr[bp]];
      } else {
        ptr := ptr[p := bp];
      }
      freep := p;
    }

    /** free puts the block back, joined with its neighbours. */
    method FreeBlock(bp: nat) returns (ghost k: nat)
      requires Valid() && freep != 0 && bp in live
      modifies this
      ensures Valid() && freep != 0 && live == old(live) - {bp} && granted == old(granted)
      ensures k <= |old(bs)| && bs == Inserted(old(bs), k, Block(bp, old(live)[bp])) && freep == Node(base, old(bs), k)
    {
      hide ListOk, LiveAll, Shared, Node, Inserted, FreePtr, FreeSize, Range, Between;
      ghost var b;
      ghost var q;
      k, q, b := FreeReady(ptr, size, base, bs, live, owner, granted, bp);
      var p := FindGap(bp, k);
      Splice(p, bp, b);
      at, bs, live, owner := k, Inserted(bs, k, b), live - {bp}, owner - Range(bp, b.size);
    }

    /** morecore gets memory from sbrk, whose result is `sbrk`, or 0 if it fails.
        `short` says that sbrk granted less than morecore goes on to put on the list;
        the model stops before that. */
    method MoreCore(nunits: nat, sbrk: nat) returns (p: nat, short: bool)
      requires Valid() && freep != 0 && nunits <= 0x1000_0001
      requires sbrk != 0 ==> base < sbrk && forall x | x in granted :: x < sbrk
      modifies this
      ensures Valid() && freep != 0 && live == old(live) && (p == 0 <==> sbrk == 0 || short)
      ensures short <==> sbrk != 0 && TOOMANY <= nunits
      ensures short ==> SbrkArgument(CoreUnits(nunits)) < CoreUnits(nunits) * UNIT
      ensures p == 0 ==> unchanged(this)
      ensures p != 0 ==> p == freep && granted == old(granted) + Range(sbrk, CoreUnits(nunits))
      ensures p != 0 ==> !NoFit(bs, nunits)
    {
      var nu := if nunits < 4096 then 4096 else nunits;
      p, short := 0, false;
      if sbrk == 0 {
        return;
      }
      if SbrkArgument(nu) < nu * UNIT {
        SbrkExact(nu);
        short := true;
        return;
      }
      if TOOMANY <= nu {
        SbrkShort(nu);
      }
      hide LiveAll, Shared, ListOk, Inserted, Range, OwnerMap, Units, SbrkArgument, Node;
      ghost var got := SbrkArgument(nu) / UNIT;   // what the system grants
      SbrkUnits(nu);
      GrantedLive(ptr, size, base, bs, live, owner, granted, sbrk, got);
      size := size[sbrk := nu];
      live, owner, granted := live[sbrk := nu], owner + OwnerMap(sbrk, got), granted + Range(sbrk, got);
      ghost var bs0, live0 := bs, old(live);
      assert live - {sbrk} == live0;
      ghost var k := FreeBlock(sbrk);
      ghost var i := InsertedHas(bs0, k, Block(sbrk, nu));
      p := freep;
    }

    /** malloc's search: one round of the circle from wherever freep is, up to the first
        block that is large enough. */
    method Search(nunits: nat) returns (found: bool, prevp: nat, p: nat, ghost i: nat)
      requires Valid() && freep != 0 && 0 < nunits
      ensures found ==>
        1 <= i <= |bs| && p == Node(base, bs, i) && prevp == Node(base, bs, i - 1) && nunits <= bs[i - 1].size
      ensures found ==> forall j | 0 <= j < |bs| && Passed(at, i, j + 1) :: bs[j].size < nunits
      ensures !found ==> NoFit(bs, nunits)
    {
      hide Apart, LiveAll, Shared, Units, Range;
      NodesDistinct(base, bs);
      prevp := freep;
      ghost var h: nat := at;
      assert LinkOk(ptr, size, base, bs, at);
      p := ptr[prevp];
      i := Next(bs, at);
      while true
        invariant h <= |bs| && i == Next(bs, h) && prevp == Node(base, bs, h) && p == Node(base, bs, i)
        invariant forall j | 0 <= j < |bs| && Passed(at, i, j + 1) :: bs[j].size < nunits
        decreases if i <= at then at - i else at - i + |bs| + 1
      {
        assert LinkOk(ptr, size, base, bs, i);
        if size[p] >= nunits {
          return true, prevp, p, i;
        }
        if p == freep {
          assert i == at;
          forall j | 0 <= j < |bs| ensures bs[j].size < nunits { assert j + 1 == at || Passed(at, i, j + 1); }
          return false, prevp, p, i;
        }
        prevp := p;
        h := i;
        p := ptr[p];
        i := Next(bs, i);
      }
    }

    /** malloc's header updates: the end of the block, or all of it. */
    method Cut(prevp: nat, p: nat, nunits: nat, ghost b: Block) returns (a: nat)
      requires p in ptr && p in size && b == Block(p, size[p]) && nunits <= b.size
      modifies this`ptr, this`size, this`freep
      ensures a == b.End() - nunits && size == TakeSize(old(size), b, nunits) && freep == prevp
      ensures ptr == if b.size == nunits then old(ptr)[prevp := old(ptr)[p]] else old(ptr)
    {
      a := p;
      if size[p] == nunits {
        ptr := ptr[prevp := ptr[p]];
      } else {
        size := size[p := size[p] - nunits];
        a := p + size[p];
        size := size[a := nunits];
      }
      freep := prevp;
    }

    /** malloc's work on the block it found. */
    method Take(prevp: nat, p: nat, nunits: nat, ghost i: nat) returns (a: nat)
      requires Valid() && freep != 0 && 0 < nunits
      requires 1 <= i <= |bs| && p == Node(base, bs, i) && prevp == Node(base, bs, i - 1) && nunits <= bs[i - 1].size
      modifies this
      ensures Valid() && freep != 0 && granted == old(granted) && a !in old(live) && live == old(live)[a := nunits]
      ensures a == old(bs)[i - 1].End() - nunits && bs == Carved(old(bs), i - 1, nunits)
    {
      hide ListOk, LiveAll, Shared, Carved, OwnerMap, LinkOk, Node, Apart, Units, Range, TakeSize;
      ghost var b := bs[i - 1];
      NodeFacts(ptr, size, base, bs, i);
      TakeLinks(ptr, size, base, bs, i - 1, nunits);
      TakeLive(size, base, bs, live, owner, granted, i - 1, nunits);
      a := Cut(prevp, p, nunits, b);
      bs, at := Carved(bs, i - 1, nunits), i - 1;
      live, owner := live[a := nunits], owner + OwnerMap(a, nunits);
    }

    /** malloc's first call: base is a list of its own. */
    method Start()
      requires Valid()
      modifies this`ptr, this`size, this`freep, this`at
      ensures Valid() && freep != 0
    {
      if freep == 0 {
        hide LiveAll, Shared, ListOk;
        ptr := ptr[base := base];
        freep := base;
        size := size[base := 0];
        at := 0;
        StartOk(ptr, old(size), size, base, live, owner);
      }
    }

    /** malloc returns a block that holds the requested bytes and overlaps no other; it
        fails only if no free block is large enough and sbrk fails.  `short` says that
        morecore has to grow the heap by 2^27 units or more, and is granted less than it
        puts on the list. */
    method Malloc(nbytes: Blocks.word, sbrk: nat) returns (ap: nat, short: bool)
      requires Valid()
      requires sbrk != 0 && NoFit(bs, NUnits(nbytes)) ==> base < sbrk && forall x | x in granted :: x < sbrk
      modifies this
      ensures Valid() && freep != 0
      ensures short <==> sbrk != 0 && NoFit(old(bs), NUnits(nbytes)) && TOOMANY <= NUnits(nbytes)
      ensures short ==> ap == 0 && SbrkArgument(CoreUnits(NUnits(nbytes))) < CoreUnits(NUnits(nbytes)) * UNIT
      ensures ap == 0 ==> live == old(live) && granted == old(granted) && bs == old(bs) && NoFit(bs, NUnits(nbytes))
      ensures ap == 0 && !short ==> sbrk == 0
      ensures ap != 0 ==> ap - 1 !in old(live) && live == old(live)[ap - 1 := NUnits(nbytes)]
      ensures ap != 0 ==> granted == old(granted)
                          || (granted == old(granted) + Range(sbrk, CoreUnits(NUnits(nbytes)))
                               && NoFit(old(bs), NUnits(nbytes)))
    {
      hide LiveAll, Shared, ListOk, Range, Carved, NUnits, Node, SbrkArgument;
      var nunits := NUnits(nbytes);
      UnitsBound(nbytes);
      short := false;
      Start();
      var found, prevp, p, i := Search(nunits);
      if !found {
        p, short := MoreCore(nunits, sbrk);
        if p == 0 {
          ap := 0;
          return;
        }
        found, prevp, p, i := Search(nunits);
      }
      var a := Take(prevp, p, nunits, i);
      ap := a + 1;
    }
  }

  /** No block has `n` units. */
  ghost predicate NoFit(bs: seq<Block>, n: nat) {
    forall j | 0 <= j < |bs| :: bs[j].size < n
  }

  lemma StartOk(ptr: map<nat, nat>, size: map<nat, nat>, size1: map<nat, nat>, base: nat, live: map<nat, nat>,
                owner: map<nat, nat>)
    requires LiveAll(size, base, live, owner) && base in ptr && ptr[base] == base && size1 == size[base := 0]
    ensures LiveAll(size1, base, live, owner) && ListOk(ptr, size1, base, [])
  {
    forall a: nat ensures LiveOk(size1, base, live, owner, a) { assert LiveOk(size, base, live, owner, a); }
    forall i: nat ensures LinkOk(ptr, size1, base, [], i) {}
  }

  lemma InsertedHas(bs: seq<Block>, k: nat, b: Block) returns (i: nat)
    requires k <= |bs|
    ensures i < |Inserted(bs, k, b)| && b.size <= Inserted(bs, k, b)[i].size
  {
    i := if 0 < k && bs[k - 1].End() == b.addr then k - 1 else k;
  }

  lemma OwnerKeys(owner: map<nat, nat>, a: nat, n: nat)
    ensures (owner + OwnerMap(a, n)).Keys == owner.Keys + Range(a, n)
  {
    hide Range;
  }

  /** Live headers are not free ones. */
  lemma LiveHeaders(size: map<nat, nat>, base: nat, bs: seq<Block>, live: map<nat, nat>, owner: map<nat, nat>,
                    granted: set<nat>)
    requires LiveAll(size, base, live, owner) && Shared(base, bs, owner, granted)
    ensures forall c | c in live :: c in size && c in granted && c !in Units(bs)
  {
    forall c | c in live ensures c in size && c in granted
      && c !in Units(bs) { assert LiveOk(size, base, live, owner, c); }
  }

  lemma SharedGranted(base: nat, bs: seq<Block>, owner: map<nat, nat>, granted: set<nat>, a: nat, n: nat)
    requires Shared(base, bs, owner, granted) && base < a && forall x | x in granted :: x < a
    ensures Shared(base, bs, owner + OwnerMap(a, n), granted + Range(a, n)) && Range(a, n) !! owner.Keys
  {
    hide Units, Range, OwnerMap;
    RangeIs(a, n);
    OwnerKeys(owner, a, n);
    MoreUnits(Units(bs), owner.Keys, granted, Range(a, n));
  }

  lemma MoreUnits(free: set<nat>, live: set<nat>, granted: set<nat>, more: set<nat>)
    requires granted == free + live && free !! live && more !! granted
    ensures granted + more == free + (live + more) && free !! (live + more) && more !! live
  {
  }

  /** Memory from sbrk is like a live block until free puts it on the list. */
  lemma GrantedLive(ptr: map<nat, nat>, size: map<nat, nat>, base: nat, bs: seq<Block>, live: map<nat, nat>,
                    owner: map<nat, nat>, granted: set<nat>, a: nat, n: nat)
    requires LiveAll(size, base, live, owner) && Shared(base, bs, owner, granted) && ListOk(ptr, size, base, bs)
    requires base < a && 0 < n && forall x | x in granted :: x < a
    ensures a !in live && LiveAll(size[a := n], base, live[a := n], owner + OwnerMap(a, n))
      && ListOk(ptr, size[a := n], base, bs)
    ensures Shared(base, bs, owner + OwnerMap(a, n), granted + Range(a, n))
  {
    forall i | 0 <= i <= |bs| ensures Node(base, bs, i) != a {
      if 0 < i {
        InUnits(bs, i - 1, bs[i - 1].addr);
      }
    }
    SharedGranted(base, bs, owner, granted, a, n);
    LiveHeaders(size, base, bs, live, owner, granted);
    hide LiveAll, Shared, ListOk, Units, OwnerMap, Range, Node;
    ListIgnores(ptr, size, base, bs, a, 0, n);
    LiveAdded(size, base, live, owner, size[a := n], a, n);
  }

  lemma SharedTaken(base: nat, bs: seq<Block>, owner: map<nat, nat>, granted: set<nat>, cs: seq<Block>, a: nat, n: nat)
    requires Shared(base, bs, owner, granted) && Units(cs) + Range(a, n) == Units(bs) && Units(cs) !! Range(a, n)
    ensures Shared(base, cs, owner + OwnerMap(a, n), granted) && Range(a, n) !! owner.Keys
  {
    hide Units, Range, OwnerMap;
    OwnerKeys(owner, a, n);
  }

  /** The headers after malloc takes `n` units off the end of block `i`. */
  ghost function TakeSize(size: map<nat, nat>, b: Block, n: nat): map<nat, nat>
    requires n <= b.size
  {
    if b.size == n then size else size[b.addr := b.size - n][b.End() - n := n]
  }

  lemma TakeLive(size: map<nat, nat>, base: nat, bs: seq<Block>, live: map<nat, nat>, owner: map<nat, nat>,
                 granted: set<nat>, i: nat, n: nat)
    requires LiveAll(size, base, live, owner) && Shared(base, bs, owner, granted) && Apart(bs)
    requires i < |bs| && 0 < n <= bs[i].size && bs[i].addr in size && size[bs[i].addr] == bs[i].size
      && base < bs[i].addr
    ensures var a := bs[i].End() - n;
            && a !in live && LiveAll(TakeSize(size, bs[i], n), base, live[a := n], owner + OwnerMap(a, n))
            && Shared(base, Carved(bs, i, n), owner + OwnerMap(a, n), granted)
  {
    hide LiveAll, Shared, Units, OwnerMap, Range, Carved, Apart;
    var b, a := bs[i], bs[i].End() - n;
    CarvedUnits(bs, i, n);
    CarvedAway(bs, i, n);
    SharedTaken(base, bs, owner, granted, Carved(bs, i, n), a, n);
    LiveHeaders(size, base, bs, live, owner, granted);
    InUnits(bs, i, a);
    InUnits(bs, i, b.addr);
    TakeKeepsSizes(size, b, n, live, Units(bs));
    hide TakeSize;
    LiveAdded(size, base, live, owner, TakeSize(size, b, n), a, n);
  }

  lemma TakeKeepsSizes(size: map<nat, nat>, b: Block, n: nat, live: map<nat, nat>, units: set<nat>)
    requires 0 < n <= b.size && b.addr in size && size[b.addr] == b.size && b.addr in units && b.End() - n in units
    requires forall c | c in live :: c in size && c !in units
    ensures b.End() - n in TakeSize(size, b, n) && TakeSize(size, b, n)[b.End() - n] == n
    ensures forall c | c in live :: c in size && c in TakeSize(size, b, n) && TakeSize(size, b, n)[c] == size[c]
  {
  }

  lemma TakeLinks(ptr: map<nat, nat>, size: map<nat, nat>, base: nat, bs: seq<Block>, i: nat, n: nat)
    requires ListOk(ptr, size, base, bs) && i < |bs| && 0 < n <= bs[i].size
    ensures ListOk(if bs[i].size == n then ptr[Node(base, bs, i) := Node(base, bs, Next(bs, i + 1))] else ptr,
                   TakeSize(size, bs[i], n), base, Carved(bs, i, n))
    ensures i <= |Carved(bs, i, n)| && Node(base, Carved(bs, i, n), i) == Node(base, bs, i)
  {
    if bs[i].size == n {
      Unlinked(ptr, size, base, bs, i);
    } else {
      CarvedApart(bs, i, n);
      Resized(ptr, size, base, bs, i, bs[i].size - n);
      var cs, a := Carved(bs, i, n), bs[i].End() - n;
      forall j | 0 <= j <= |cs| ensures Node(base, cs, j) != a {
        assert j > i + 1 ==> bs[i].End() < bs[j - 1].addr;
        assert 0 < j < i + 1 ==> bs[j - 1].End() < bs[i].addr;
      }
      ListIgnores(ptr, size[bs[i].addr := bs[i].size - n], base, cs, a, 0, n);
    }
  }

  lemma InsertedKeepsNode(base: nat, bs: seq<Block>, k: nat, b: Block)
    requires k <= |bs|
    ensures k <= |Inserted(bs, k, b)| && Node(base, Inserted(bs, k, b), k) == Node(base, bs, k)
  {
  }
}
