/** Pipes (kernel/pipe.c).  Each method is one stay inside pi->lock: from acquire, or
    from waking up, to release, or to going to sleep.  What other processes do between
    two of them is other calls, in any order. */
module Pipe {
  import opened Arithmetic
  import opened Blocks

  const PIPESIZE: nat := 512
  const WORD: nat := 0x1_0000_0000

  /** The wrapping counters tell empty and full pipes from others. */
  lemma Counters(w: nat, r: nat)
    requires r <= w <= r + PIPESIZE
    ensures r % WORD == w % WORD <==> r == w
    ensures w % WORD == (r % WORD + PIPESIZE) % WORD <==> w == r + PIPESIZE
    ensures (w % WORD - r % WORD) % WORD == w - r
  {
    Shift(w - r, r);
    Shift(PIPESIZE, r);
    Shift(w - r, r / WORD - w / WORD);
  }

  /** r + d has the same low bits as r's low bits plus d. */
  lemma Shift(d: nat, r: int)
    ensures (r + d) % WORD == (r % WORD + d) % WORD
    ensures d < WORD ==> (d + WORD * r) % WORD == d
  {
    var q := r / WORD;
    AddMultiple(r % WORD + d, q, WORD);
    AddMultiple(d, r, WORD);
  }

  /** They index the same cells as unbounded ones would, because PIPESIZE divides 2^32. */
  lemma SameCell(n: nat)
    ensures n % WORD % PIPESIZE == n % PIPESIZE
  {
    var q := n / WORD;
    var m := n % WORD;
    assert n == m + PIPESIZE * (WORD / PIPESIZE * q);
    AddMultiple(m, WORD / PIPESIZE * q, PIPESIZE);
  }

  lemma Bump(n: nat)
    ensures (n % WORD + 1) % WORD == (n + 1) % WORD
  {
    Shift(1, n);
  }

  /** How a stay inside the lock ends. */
  datatype Outcome = Returns | Closed | Sleeps

  class Buffer {
    const data: array<byte>
    var nread: word
    var nwrite: word
    var readopen: bool
    var writeopen: bool
    ghost var inserted: seq<byte>    // all bytes ever put in
    ghost var delivered: seq<byte>   // all bytes ever taken out

    /** The bytes taken out are a prefix of those put in, and the rest is in the ring. */
    ghost predicate Valid()
      reads this, data
    {
      && data.Length == PIPESIZE && delivered <= inserted && |inserted| <= |delivered| + PIPESIZE
      && nread == |delivered| % WORD && nwrite == |inserted| % WORD
      && forall k {:trigger inserted[k]} | |delivered| <= k < |inserted| :: data[k % PIPESIZE] == inserted[k]
    }

    /** pipealloc */
    constructor ()
      ensures Valid() && fresh(data) && inserted == [] == delivered && readopen && writeopen
    {
      data := new byte[PIPESIZE];
      readopen, writeopen := true, true;
      nwrite, nread := 0, 0;
      inserted, delivered := [], [];
    }

    /** pi->data[pi->nwrite++ % PIPESIZE] = ch */
    method Put(ch: byte)
      requires Valid() && |inserted| < |delivered| + PIPESIZE
      modifies this`nwrite, this`inserted, data
      ensures Valid() && inserted == old(inserted) + [ch]
    {
      ghost var w := |inserted|;
      SameCell(w);
      Bump(w);
      data[nwrite % PIPESIZE] := ch;
      nwrite := (nwrite + 1) % WORD;
      forall k | |delivered| <= k < w ensures data[k % PIPESIZE] == inserted[k] { Different(k, w, PIPESIZE); }
      inserted := inserted + [ch];
    }

    /** ch = pi->data[pi->nread++ % PIPESIZE] */
    method Get() returns (ch: byte)
      requires Valid() && |delivered| < |inserted|
      modifies this`nread, this`delivered
      ensures Valid() && ch == inserted[|old(delivered)|] && delivered == old(delivered) + [ch]
    {
      ghost var r := |delivered|;
      SameCell(r);
      Bump(r);
      ch := data[nread % PIPESIZE];
      nread := (nread + 1) % WORD;
      assert ch == inserted[r];
      delivered := delivered + [ch];
    }

    /** pipewrite from byte `start` on, until it returns or sleeps; `src` is as much of
        the source as copyin can read, and killed(j) says whether the process has been
        killed when it is at byte `j`.  `i` bytes are then in the pipe, in order, also if
        it returns -1 because the process was killed in between. */
    method Write(src: seq<byte>, start: nat, n: int, killed: nat -> bool) returns (i: nat, how: Outcome)
      requires Valid() && start <= |src| && (start <= n || start == 0)
      modifies this`nwrite, this`inserted, data
      ensures Valid() && start <= i <= |src| && (i <= n || i == start) && inserted == old(inserted) + src[start..i]
      ensures how == Closed <==> i < n && (!readopen || killed(i))
      ensures how == Sleeps <==> i < n && readopen && !killed(i) && |inserted| == |delivered| + PIPESIZE
      ensures how == Returns ==> i >= n || i == |src|
      ensures start < i ==> readopen && forall j: nat | start <= j < i :: !killed(j)
    {
      i := start;
      while i < n
        invariant start <= i <= |src| && (i <= n || i == start) && Valid() && inserted == old(inserted) + src[start..i]
        invariant start < i ==> readopen && forall j: nat | start <= j < i :: !killed(j)
      {
        if !readopen || killed(i) {
          how := Closed;
          return;
        }
        Counters(|inserted|, |delivered|);
        if nwrite == (nread + PIPESIZE) % WORD {
          how := Sleeps;
          return;
        }
        if i == |src| {
          break;
        }
        Put(src[i]);
        i := i + 1;
      }
      how := Returns;
    }

    /** piperead, until it returns or sleeps; `room` is how many bytes copyout can store.
        It returns the next bytes of the pipe.  The byte that copyout fails on is taken
        out of the pipe all the same: it is `lost`. */
    method Read(n: int, room: nat, killed: bool) returns (got: seq<byte>, how: Outcome, ghost lost: seq<byte>)
      requires Valid()
      modifies this`nread, this`delivered
      ensures Valid() && delivered == old(delivered) + got + lost && |lost| <= 1 && |got| <= room
        && (0 <= n ==> |got| + |lost| <= n)
      ensures how == Returns <==> |old(delivered)| < |inserted| || !writeopen
      ensures how != Returns ==>
        got == [] == lost && |inserted| == |delivered| && writeopen && (how == Closed <==> killed)
      ensures how == Returns ==> |got| >= n || |got| == room || |inserted| == |delivered|
      ensures how == Returns ==> (lost != [] <==> |got| == room < n && |old(delivered)| + |got| < |inserted|)
    {
      got, lost := [], [];
      Counters(|inserted|, |delivered|);
      if nread == nwrite && writeopen {
        how := if killed then Closed else Sleeps;
        return;
      }
      while |got| < n
        invariant Valid() && lost == [] && delivered == old(delivered) + got && |got| <= room && (0 <= n ==> |got| <= n)
      {
        Counters(|inserted|, |delivered|);
        if nread == nwrite {
          break;
        }
        var ch := Get();
        if |got| == room {
          lost := [ch];
          break;
        }
        got := got + [ch];
      }
      how := Returns;
    }

    /** pipeclose; `freed` says that the pipe's page is given back. */
    method Close(writable: bool) returns (freed: bool)
      requires Valid()
      modifies this`readopen, this`writeopen
      ensures Valid() && readopen == (old(readopen) && writable) && writeopen == (old(writeopen) && !writable)
      ensures freed <==> !readopen && !writeopen
    {
      if writable {
        writeopen := false;
      } else {
        readopen := false;
      }
      freed := !readopen && !writeopen;
    }
  }

  /** What a valid buffer means for the counters and for the order of the bytes. */
  lemma Fifo(b: Buffer)
    requires b.Valid()
    ensures b.delivered <= b.inserted
    ensures (b.nwrite - b.nread) % WORD == |b.inserted| - |b.delivered| <= PIPESIZE
  {
    Counters(|b.inserted|, |b.delivered|);
  }
}
