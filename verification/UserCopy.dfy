/** Copying between the kernel and user memory (kernel/vm.c walkaddr, copyout, copyin
    and copyinstr). */
module UserCopy {
  import opened Blocks
  import opened PageTable
  import opened Vm

  /** The byte at user address `va`. */
  ghost function UserByte(t: Store, root: nat, va: nat): byte {
    var p := PageAt(root, va / PGSIZE);
    if p in t.page && t.page[p].ppn in t.mem && t.mem[t.page[p].ppn].Bytes? && |t.mem[t.page[p].ppn].data| == PGSIZE
    then t.mem[t.page[p].ppn].data[va % PGSIZE] else 0
  }

  ghost predicate Readable(t: Store, root: nat, vpn: nat) {
    vpn < MAXVPN && PageAt(root, vpn) in t.page && t.page[PageAt(root, vpn)].flags.u
  }

  ghost predicate Writable(t: Store, root: nat, vpn: nat) {
    Readable(t, root, vpn) && t.page[PageAt(root, vpn)].flags.w
  }

  /** How many of `len` bytes from `va` on lie in the page of `va`. */
  function Chunk(va: nat, len: nat): nat {
    if len < PGSIZE - va % PGSIZE then len else PGSIZE - va % PGSIZE
  }

  // ---------- Reading ----------

  /** walkaddr: the frame of a user page, or 0. */
  method WalkAddr(m: Memory, root: nat, vpn: nat) returns (f: nat)
    requires m.Valid() && Top(root) in m.node
    modifies m
    ensures unchanged(m) && (f != 0 <==> Readable(m.S(), root, vpn))
    ensures f != 0 ==> f == m.page[PageAt(root, vpn)].ppn && PageAt(root, vpn) in m.data
    ensures f != 0 ==> f in m.mem && m.mem[f].Bytes? && |m.mem[f].data| == PGSIZE
  {
    f := 0;
    if vpn >= MAXVPN {
      return;
    }
    ghost var t, p := m.S(), PageAt(root, vpn);
    assert PageOk(t, p) && DataOk(t, p) && SlotOk(t, LowOf(p), p.k) && NodeOk(t, LowOf(p));
    VpnOfPageAt(root, vpn);
    var pt := m.Walk(root, vpn, false);
    if pt == 0 {
      return;
    }
    var e := m.mem[pt].ptes[PX0(vpn)];
    if !e.flags.v || !e.flags.u {
      return;
    }
    assert OwnOk(t, e.ppn);
    f := e.ppn;
  }

  lemma PageArith(va: nat, i: nat)
    requires va % PGSIZE + i < PGSIZE
    ensures (va + i) / PGSIZE == va / PGSIZE && (va + i) % PGSIZE == va % PGSIZE + i
  {
  }

  lemma NextPage(va: nat, len: nat)
    ensures Chunk(va, len) < len ==> (va + Chunk(va, len)) == (va / PGSIZE + 1) * PGSIZE
  {
  }

  /** The bytes of user memory from `va` on are `data`. */
  ghost predicate BytesAre(t: Store, root: nat, va: nat, data: seq<byte>) {
    forall i | 0 <= i < |data| :: UserByte(t, root, va + i) == data[i]
  }

  lemma BytesMore(t: Store, root: nat, va: nat, data: seq<byte>, at: nat, more: seq<byte>)
    requires BytesAre(t, root, va, data) && at == va + |data| && BytesAre(t, root, at, more)
    ensures BytesAre(t, root, va, data + more)
  {
    forall i | 0 <= i < |data + more| ensures UserByte(t, root, va + i) == (data + more)[i] {
      if i >= |data| {
        assert more[i - |data|] == UserByte(t, root, at + (i - |data|));
      }
    }
  }

  lemma PageBytes(t: Store, root: nat, va: nat, n: nat)
    requires Ok(t) && va % PGSIZE + n <= PGSIZE && PageAt(root, va / PGSIZE) in t.data
    ensures PageAt(root, va / PGSIZE) in t.page && t.page[PageAt(root, va / PGSIZE)].ppn in t.mem
    ensures t.mem[t.page[PageAt(root, va / PGSIZE)].ppn].Bytes?
      && |t.mem[t.page[PageAt(root, va / PGSIZE)].ppn].data| == PGSIZE
    ensures BytesAre(t, root, va, t.mem[t.page[PageAt(root, va / PGSIZE)].ppn].data[va % PGSIZE..va % PGSIZE + n])
  {
    assert DataOk(t, PageAt(root, va / PGSIZE));
    var bytes := t.mem[t.page[PageAt(root, va / PGSIZE)].ppn].data[va % PGSIZE..va % PGSIZE + n];
    forall i | 0 <= i < n ensures UserByte(t, root, va + i) == bytes[i] { PageArith(va, i); }
  }

  /** copyin: the bytes at `srcva`, up to the first page that the user may not read. */
  method CopyIn(m: Memory, root: nat, srcva: nat, len: nat) returns (r: int, dst: seq<byte>)
    requires m.Valid() && Top(root) in m.node
    modifies m
    ensures unchanged(m) && (r == 0 || r == -1) && BytesAre(m.S(), root, srcva, dst)
    ensures if r == 0 then |dst| == len else |dst| < len && !Readable(m.S(), root, (srcva + |dst|) / PGSIZE)
  {
    dst := [];
    var va, left := srcva, len;
    ghost var t := m.S();
    while left > 0
      invariant unchanged(m) && (left > 0 ==> va == srcva + |dst|) && |dst| + left == len
        && BytesAre(t, root, srcva, dst)
    {
      var va0 := va / PGSIZE;
      var f := WalkAddr(m, root, va0);
      if f == 0 {
        r := -1;
        return;
      }
      var n := Chunk(va, left);
      var bytes := m.mem[f].data[va % PGSIZE..va % PGSIZE + n];
      PageBytes(t, root, va, n);
      BytesMore(t, root, srcva, dst, va, bytes);
      NextPage(va, left);
      dst := dst + bytes;
      left := left - n;
      va := (va0 + 1) * PGSIZE;
    }
    r := 0;
  }

  ghost predicate NoNul(data: seq<byte>) {
    forall i | 0 <= i < |data| :: data[i] != 0
  }

  /** copyinstr: the string at `srcva`, if it ends within `max` bytes and every page up
      to its NUL is readable; `dst` leaves out the NUL. */
  method CopyInStr(m: Memory, root: nat, srcva: nat, max: nat) returns (r: int, dst: seq<byte>)
    requires m.Valid() && Top(root) in m.node
    modifies m
    ensures unchanged(m) && (r == 0 || r == -1) && BytesAre(m.S(), root, srcva, dst) && NoNul(dst)
    ensures if r == 0 then |dst| < max && UserByte(m.S(), root, srcva + |dst|) == 0
            else |dst| == max || (|dst| < max && !Readable(m.S(), root, (srcva + |dst|) / PGSIZE))
  {
    dst := [];
    var va, left, gotNull := srcva, max, false;
    ghost var t := m.S();
    while !gotNull && left > 0
      invariant unchanged(m) && |dst| + left == max && 0 <= left && BytesAre(t, root, srcva, dst) && NoNul(dst)
      invariant !gotNull && left > 0 ==> va == srcva + |dst|
      invariant gotNull ==> |dst| < max && UserByte(t, root, srcva + |dst|) == 0
      decreases !gotNull, left
    {
      var va0 := va / PGSIZE;
      var f := WalkAddr(m, root, va0);
      if f == 0 {
        r := -1;
        return;
      }
      var n := Chunk(va, left);
      var bytes := m.mem[f].data[va % PGSIZE..va % PGSIZE + n];
      PageBytes(t, root, va, n);
      NextPage(va, left);
      var part;
      part, gotNull := UpToNul(bytes);
      BytesMore(t, root, srcva, dst, va, part);
      if gotNull {
        assert bytes[|part|] == UserByte(t, root, va + |part|);
      }
      dst := dst + part;
      left := left - |part|;
      va := (va0 + 1) * PGSIZE;
    }
    r := if gotNull then 0 else -1;
  }

  /** copyinstr's inner loop. */
  method UpToNul(bytes: seq<byte>) returns (part: seq<byte>, gotNull: bool)
    ensures part <= bytes && NoNul(part)
    ensures if gotNull then |part| < |bytes| && bytes[|part|] == 0 else part == bytes
  {
    part, gotNull := [], false;
    while |part| < |bytes|
      invariant part <= bytes && NoNul(part)
    {
      if bytes[|part|] == 0 {
        gotNull := true;
        return;
      }
      part := part + [bytes[|part|]];
    }
  }

  // ---------- Writing ----------

  ghost predicate InRange(root: nat, va: nat, n: nat, r: nat, x: nat) {
    r == root && va <= x < va + n
  }

  /** The byte at `x` of page table `r` after writing `data` at `va` of `root`. */
  ghost predicate ByteAfter(t: Store, u: Store, root: nat, va: nat, data: seq<byte>, r: nat, x: nat) {
    x / PGSIZE < MAXVPN && PageAt(r, x / PGSIZE) in t.data ==>
      UserByte(u, r, x) == if InRange(root, va, |data|, r, x) then data[x - va] else UserByte(t, r, x)
  }

  /** From `t` to `u` the bytes `data` were written at `va`, and nothing else. */
  ghost predicate Wrote(t: Store, u: Store, root: nat, va: nat, data: seq<byte>) {
    && u == t.(mem := u.mem)
    && (forall r, x {:trigger ByteAfter(t, u, root, va, data, r, x)} :: ByteAfter(t, u, root, va, data, r, x))
    && (forall f | f in t.mem && !(f in t.own && t.own[f].Data?) :: f in u.mem && u.mem[f] == t.mem[f])
  }

  lemma WroteNothing(t: Store, root: nat, va: nat)
    ensures Wrote(t, t, root, va, [])
  {
    forall r: nat, x: nat ensures ByteAfter(t, t, root, va, [], r, x) {}
  }

  lemma WroteMore(t: Store, u: Store, v: Store, root: nat, va: nat, data: seq<byte>, at: nat, more: seq<byte>,
                  all: seq<byte>)
    requires Wrote(t, u, root, va, data) && at == va + |data| && Wrote(u, v, root, at, more) && all == data + more
    ensures Wrote(t, v, root, va, all)
  {
    forall r: nat, x: nat ensures ByteAfter(t, v, root, va, all, r, x) {
      assert ByteAfter(t, u, root, va, data, r, x) && ByteAfter(u, v, root, at, more, r, x);
    }
  }

  /** memmove into the frame of a page. */
  lemma WroteInPage(t: Store, u: Store, root: nat, va: nat, bytes: seq<byte>, page: seq<byte>)
    requires Ok(t) && va / PGSIZE < MAXVPN && va % PGSIZE + |bytes| <= PGSIZE && PageAt(root, va / PGSIZE) in t.data
    requires PageAt(root, va / PGSIZE) in t.page && t.page[PageAt(root, va / PGSIZE)].ppn in t.mem
    requires t.mem[t.page[PageAt(root, va / PGSIZE)].ppn].Bytes?
      && |t.mem[t.page[PageAt(root, va / PGSIZE)].ppn].data| == PGSIZE
    requires var d, o := t.mem[t.page[PageAt(root, va / PGSIZE)].ppn].data, va % PGSIZE;
             page == d[..o] + bytes + d[o + |bytes|..]
    requires u == Stored(t, t.page[PageAt(root, va / PGSIZE)].ppn, page)
    ensures Ok(u) && Wrote(t, u, root, va, bytes)
  {
    var vpn := va / PGSIZE;
    var p := PageAt(root, vpn);
    assert DataOk(t, p);
    StoredOk(t, t.page[p].ppn, page);
    forall r: nat, x: nat ensures ByteAfter(t, u, root, va, bytes, r, x) {
      assert DataOk(t, PageAt(r, x / PGSIZE));
      if x / PGSIZE < MAXVPN && PageAt(r, x / PGSIZE) == p {
        VpnOfPageAt(root, vpn);
        VpnOfPageAt(r, x / PGSIZE);
        SamePageOffset(va, x, |bytes|);
      } else if InRange(root, va, |bytes|, r, x) {
        PageArith(va, x - va);
      }
    }
  }

  lemma SamePageOffset(va: nat, x: nat, n: nat)
    requires x / PGSIZE == va / PGSIZE && va % PGSIZE + n <= PGSIZE
    ensures va <= x < va + n <==> va % PGSIZE <= x % PGSIZE < va % PGSIZE + n
    ensures x - va == x % PGSIZE - va % PGSIZE
  {
  }

  ghost predicate WritableAt(t: Store, root: nat, va: nat, i: nat) {
    Writable(t, root, (va + i) / PGSIZE)
  }

  /** The user may write all of these bytes. */
  ghost predicate AllWritable(t: Store, root: nat, va: nat, n: nat) {
    forall i {:trigger WritableAt(t, root, va, i)} | 0 <= i < n :: WritableAt(t, root, va, i)
  }

  lemma MoreWritable(t: Store, u: Store, root: nat, va: nat, n: nat, at: nat, k: nat)
    requires u.page == t.page && AllWritable(t, root, va, n) && at == va + n
    requires Writable(t, root, at / PGSIZE) && at % PGSIZE + k <= PGSIZE
    ensures AllWritable(u, root, va, n + k)
  {
    forall i | 0 <= i < n + k ensures WritableAt(u, root, va, i) {
      if i < n {
        assert WritableAt(t, root, va, i);
      } else {
        PageArith(at, i - n);
      }
    }
  }

  /** copyout writes `src` at `dstva`, up to the first page that the user may not write. */
  method CopyOut(m: Memory, root: nat, dstva: nat, src: seq<byte>) returns (r: int, ghost done: nat)
    requires m.Valid() && Top(root) in m.node
    modifies m
    ensures m.Valid() && (r == 0 || r == -1) && done <= |src| && Wrote(old(m.S()), m.S(), root, dstva, src[..done])
    ensures if r == 0 then done == |src| else done < |src| && !Writable(m.S(), root, (dstva + done) / PGSIZE)
    ensures AllWritable(old(m.S()), root, dstva, done)
  {
    var va, left := dstva, src;
    ghost var t := m.S();
    done := 0;
    WroteNothing(t, root, dstva);
    while |left| > 0
      invariant m.Valid() && Top(root) in m.node && (|left| > 0 ==> va == dstva + done) && done <= |src|
        && left == src[done..]
      invariant Wrote(t, m.S(), root, dstva, src[..done])
      invariant AllWritable(t, root, dstva, done)
    {
      ghost var u := m.S();
      var va0 := va / PGSIZE;
      var f := WriteAddr(m, root, va0);
      if f == 0 {
        r := -1;
        return;
      }
      var n := Chunk(va, |left|);
      var page := m.mem[f].data;
      var o := va % PGSIZE;
      page := page[..o] + left[..n] + page[o + n..];
      m.mem := m.mem[f := Bytes(page)];
      WroteInPage(u, m.S(), root, va, left[..n], page);
      WroteMore(t, u, m.S(), root, dstva, src[..done], va, left[..n], src[..done + n]);
      MoreWritable(t, t, root, dstva, done, va, n);
      NextPage(va, |left|);
      done := done + n;
      left := left[n..];
      va := (va0 + 1) * PGSIZE;
    }
    r := 0;
  }

  /** copyout's check of one page. */
  method WriteAddr(m: Memory, root: nat, vpn: nat) returns (f: nat)
    requires m.Valid() && Top(root) in m.node
    modifies m
    ensures unchanged(m) && (f != 0 <==> Writable(m.S(), root, vpn))
    ensures f != 0 ==> f == m.page[PageAt(root, vpn)].ppn && PageAt(root, vpn) in m.data
    ensures f != 0 ==> f in m.mem && m.mem[f].Bytes? && |m.mem[f].data| == PGSIZE
  {
    f := 0;
    if vpn >= MAXVPN {
      return;
    }
    ghost var t, p := m.S(), PageAt(root, vpn);
    assert PageOk(t, p) && DataOk(t, p) && SlotOk(t, LowOf(p), p.k) && NodeOk(t, LowOf(p));
    VpnOfPageAt(root, vpn);
    var pt := m.Walk(root, vpn, false);
    if pt == 0 {
      return;
    }
    var e := m.mem[pt].ptes[PX0(vpn)];
    if !e.flags.v || !e.flags.u || !e.flags.w {
      return;
    }
    assert OwnOk(t, e.ppn);
    f := e.ppn;
  }

  /** copyout succeeds exactly if the user may write every byte, and then copyin reads
      back what it wrote. */
  method OutAndIn(m: Memory, root: nat, va: nat, src: seq<byte>) returns (r: int, dst: seq<byte>)
    requires m.Valid() && Top(root) in m.node
    modifies m
    ensures m.Valid() && (r == 0 <==> AllWritable(old(m.S()), root, va, |src|)) && (r == 0 ==> dst == src)
  {
    dst := [];
    ghost var done;
    r, done := CopyOut(m, root, va, src);
    ghost var t, u := old(m.S()), m.S();
    if r == 0 {
      assert src[..done] == src;
      r, dst := CopyIn(m, root, va, |src|);
      assert |dst| < |src| ==> WritableAt(t, root, va, |dst|);
      forall i | 0 <= i < |dst| ensures dst[i] == src[i] {
        assert WritableAt(t, root, va, i);
        assert PageOk(t, PageAt(root, (va + i) / PGSIZE)) && ByteAfter(t, u, root, va, src, root, va + i);
      }
    } else {
      assert !WritableAt(t, root, va, done);
    }
  }
}
