/** Directories (kernel/fs.c dirlookup and dirlink, kernel/string.c strncmp and strncpy). */
module Directory {
  import opened Arithmetic
  import opened Blocks
  import opened Records
  import opened Fs
  import opened Inodes
  import opened FileIO

  const DIRSIZ: nat := 14
  const DIRENT: nat := 16

  // ---------- C strings ----------

  /** The byte at index `i` of a C string, which a NUL ends. */
  function At(s: seq<byte>, i: nat): byte {
    if i < |s| then s[i] else 0
  }

  function ClipLength(s: seq<byte>, n: nat): (m: nat)
    ensures m <= n && m <= |s| && (m == n || At(s, m) == 0) && forall i | 0 <= i < m :: s[i] != 0
  {
    if n == 0 || At(s, 0) == 0 then 0 else 1 + ClipLength(s[1..], n - 1)
  }

  lemma {:induction false} ClipLengthIs(s: seq<byte>, n: nat, m: nat)
    requires m <= n && (m == n || At(s, m) == 0) && forall i | 0 <= i < m :: At(s, i) != 0
    ensures ClipLength(s, n) == m
  {
    if 0 < m {
      assert At(s, 0) != 0;
      forall i: nat ensures At(s[1..], i) == At(s, i + 1) {}
      ClipLengthIs(s[1..], n - 1, m - 1);
    }
  }

  /** A C string up to its NUL, and at most `n` bytes of it. */
  function Clip(s: seq<byte>, n: nat): seq<byte> {
    s[..ClipLength(s, n)]
  }

  /** strncmp: 0 exactly if the clipped strings are equal, else the difference of the
      first bytes that differ, which are at `at`. */
  method StrNCmp(p: seq<byte>, q: seq<byte>, n: nat) returns (r: int, ghost at: nat)
    ensures r == 0 <==> Clip(p, n) == Clip(q, n)
    ensures r != 0 ==>
      at < n && at <= |p| && at <= |q| && p[..at] == q[..at] && r == At(p, at) as int - At(q, at) as int
  {
    var i := 0;
    while i < n && At(p, i) != 0 && At(p, i) == At(q, i)
      invariant i <= n && i <= |p| && i <= |q| && p[..i] == q[..i]
      invariant forall j | 0 <= j < i :: p[j] != 0
    {
      i := i + 1;
    }
    at := i;
    r := if i == n then 0 else At(p, i) as int - At(q, i) as int;
    var a, b := ClipLength(p, n), ClipLength(q, n);
    assert a >= i && b >= i;
    if r == 0 {
      assert a == i && b == i;
    } else if i < a && i < b {
      assert Clip(p, n)[i] != Clip(q, n)[i];
    }
  }

  /** strncpy: the clipped string, padded with NULs to the size of the buffer. */
  method StrNCpy(s: array<byte>, t: seq<byte>)
    modifies s
    ensures Clip(s[..], s.Length) == Clip(t, s.Length)
    ensures forall i | |Clip(t, s.Length)| <= i < s.Length :: s[i] == 0
  {
    var n := s.Length;
    var i, ended := 0, false;
    while i < n && !ended
      invariant i <= n && (ended ==> 0 < i && At(t, i - 1) == 0)
      invariant forall j | 0 <= j < i :: s[j] == At(t, j)
      invariant forall j | 0 <= j < (if ended then i - 1 else i) :: At(t, j) != 0
    {
      s[i] := At(t, i);
      ended := s[i] == 0;
      i := i + 1;
    }
    ghost var m := if ended then i - 1 else i;
    ClipLengthIs(t, n, m);
    while i < n
      invariant m <= i <= n
      invariant forall j | 0 <= j < i :: s[j] == if j < m then t[j] else 0
    {
      s[i] := 0;
      i := i + 1;
    }
    ClipLengthIs(s[..], n, m);
  }

  // ---------- Entries ----------

  /** An entry with inum 0 is free. */
  datatype Entry = Entry(inum: nat, name: seq<byte>)

  function EntryOf(de: seq<byte>): Entry
    requires |de| == DIRENT
  {
    Entry(de[0] as int + 0x100 * de[1] as int, Clip(de[2..], DIRSIZ))
  }

  function Entries(c: seq<byte>): (es: seq<Entry>)
    ensures |es| == |c| / DIRENT
  {
    seq(|c| / DIRENT, k requires 0 <= k < |c| / DIRENT => EntryOf(c[DIRENT * k..DIRENT * k + DIRENT]))
  }

  ghost predicate Unique(es: seq<Entry>) {
    forall j, k | 0 <= j < k < |es| && es[j].inum != 0 && es[k].inum != 0 :: es[j].name != es[k].name
  }

  /** The directory as a map from names to inode numbers. */
  ghost function MapOf(es: seq<Entry>): map<seq<byte>, nat> {
    if es == [] then map[]
    else
      var m, e := MapOf(es[..|es| - 1]), es[|es| - 1];
      if e.inum == 0 then m else m[e.name := e.inum]
  }

  lemma {:induction false} MapHas(es: seq<Entry>, k: nat)
    requires Unique(es) && k < |es| && es[k].inum != 0
    ensures es[k].name in MapOf(es) && MapOf(es)[es[k].name] == es[k].inum
  {
    if k < |es| - 1 {
      MapHas(es[..|es| - 1], k);
    }
  }

  lemma {:induction false} MapLacks(es: seq<Entry>, name: seq<byte>)
    requires forall k | 0 <= k < |es| && es[k].inum != 0 :: es[k].name != name
    ensures name !in MapOf(es)
  {
    if es != [] {
      MapLacks(es[..|es| - 1], name);
    }
  }

  lemma {:induction false} MapIgnores(es: seq<Entry>, k: nat, e: Entry)
    requires k < |es| && es[k].inum == 0 == e.inum
    ensures MapOf(es[k := e]) == MapOf(es)
  {
    var n := |es| - 1;
    if k < n {
      MapIgnores(es[..n], k, e);
      assert es[k := e][..n] == es[..n][k := e];
    } else {
      assert es[k := e][..n] == es[..n];
    }
  }

  /** Filling a free entry adds its binding and no other. */
  lemma {:induction false} MapFill(es: seq<Entry>, k: nat, e: Entry)
    requires k < |es| && es[k].inum == 0 && e.inum != 0
    requires forall j | 0 <= j < |es| && es[j].inum != 0 :: es[j].name != e.name
    ensures MapOf(es[k := e]) == MapOf(es)[e.name := e.inum]
  {
    var n := |es| - 1;
    if k < n {
      MapFill(es[..n], k, e);
      assert es[k := e][..n] == es[..n][k := e];
    } else {
      assert es[k := e][..n] == es[..n];
    }
  }

  /** The entries that result from filling entry `k`, which is free or the next. */
  function Filled(es: seq<Entry>, k: nat, e: Entry): seq<Entry>
    requires k <= |es|
  {
    if k < |es| then es[k := e] else es + [e]
  }

  /** What dirlink does to the directory. */
  lemma Linked(es: seq<Entry>, k: nat, e: Entry)
    requires Unique(es) && k <= |es| && (k < |es| ==> es[k].inum == 0)
    requires e.name !in MapOf(es)
    ensures Unique(Filled(es, k, e))
    ensures MapOf(Filled(es, k, e)) == if e.inum == 0 then MapOf(es) else MapOf(es)[e.name := e.inum]
  {
    forall j | 0 <= j < |es| && es[j].inum != 0 ensures es[j].name != e.name { MapHas(es, j); }
    if k == |es| {
      assert (es + [e])[..k] == es;
    } else if e.inum == 0 {
      MapIgnores(es, k, e);
    } else {
      MapFill(es, k, e);
    }
  }

  lemma OtherEntryAfter(c: seq<byte>, k: nat, de: seq<byte>, j: nat)
    requires |de| == DIRENT && DIRENT * k <= |c| && DIRENT * j + DIRENT <= |c| && j != k
    ensures Overwrite(c, DIRENT * k, de)[DIRENT * j..DIRENT * j + DIRENT] == c[DIRENT * j..DIRENT * j + DIRENT]
  {
    var c1, o := Overwrite(c, DIRENT * k, de), DIRENT * j;
    var a, b := c1[o..o + DIRENT], c[o..o + DIRENT];
    forall i | 0 <= i < DIRENT ensures a[i] == b[i] {
      assert c1[o + i] == c[o + i];
    }
  }

  lemma ThisEntryAfter(c: seq<byte>, k: nat, de: seq<byte>)
    requires |de| == DIRENT && DIRENT * k <= |c|
    ensures Overwrite(c, DIRENT * k, de)[DIRENT * k..DIRENT * k + DIRENT] == de
  {
    var c1, o := Overwrite(c, DIRENT * k, de), DIRENT * k;
    var a := c1[o..o + DIRENT];
    forall i | 0 <= i < DIRENT ensures a[i] == de[i] {
      assert c1[o + i] == de[i];
    }
  }

  /** The entries after storing one of them. */
  lemma EntriesAfter(c: seq<byte>, n: nat, k: nat, de: seq<byte>)
    requires |c| == DIRENT * n && k <= n && |de| == DIRENT
    ensures |Overwrite(c, DIRENT * k, de)| % DIRENT == 0
    ensures Entries(Overwrite(c, DIRENT * k, de)) == Filled(Entries(c), k, EntryOf(de))
  {
    hide EntryOf;
    var c1 := Overwrite(c, DIRENT * k, de);
    var es1 := Filled(Entries(c), k, EntryOf(de));
    assert |Entries(c1)| == |es1|;
    forall j | 0 <= j < |es1| ensures Entries(c1)[j] == es1[j] {
      if j == k {
        ThisEntryAfter(c, k, de);
      } else {
        OtherEntryAfter(c, k, de, j);
      }
    }
  }

  /** The entries of directory `dp` and the map they make. */
  ghost function DirEntries(fs: FileSystem, dp: nat): seq<Entry>
    reads fs
  {
    Entries(FileContent(fs, dp))
  }

  ghost function Dir(fs: FileSystem, dp: nat): map<seq<byte>, nat>
    reads fs
  {
    MapOf(DirEntries(fs, dp))
  }

  ghost predicate DirOk(fs: FileSystem, dp: nat)
    reads fs
  {
    dp in fs.inodes && dp in fs.slots && fs.inodes[dp].size % DIRENT == 0 && Unique(DirEntries(fs, dp))
  }

  // ---------- dirlookup and dirlink ----------

  /** Read entry `k`. */
  method ReadEntry(fs: FileSystem, dp: nat, off: nat, ghost k: nat) returns (de: seq<byte>)
    requires fs.Valid() && DirOk(fs, dp) && off == DIRENT * k && k < |DirEntries(fs, dp)|
    modifies fs
    ensures unchanged(fs) && |de| == DIRENT && EntryOf(de) == DirEntries(fs, dp)[k]
  {
    hide MapOk, TreeOk, LooseOk, EntryOf, ContentOf;
    SizeBound(fs.sb, fs.S(), dp);
    var r;
    r, de := ReadI(fs, dp, off, DIRENT, DIRENT);
  }

  /** dirlookup finds a name exactly if the directory's map binds it; 0 is the null
      result. */
  method DirLookup(fs: FileSystem, dp: nat, name: seq<byte>) returns (inum: nat, poff: nat, ghost k: nat)
    requires fs.Valid() && DirOk(fs, dp)
    modifies fs
    ensures unchanged(fs)
    ensures inum == 0 ==> Clip(name, DIRSIZ) !in Dir(fs, dp)
    ensures inum != 0 ==> Clip(name, DIRSIZ) in Dir(fs, dp) && Dir(fs, dp)[Clip(name, DIRSIZ)] == inum
    ensures inum != 0 ==>
      poff == DIRENT * k && k < |DirEntries(fs, dp)| && DirEntries(fs, dp)[k] == Entry(inum, Clip(name, DIRSIZ))
  {
    ghost var es := DirEntries(fs, dp);
    ghost var want := Clip(name, DIRSIZ);
    assert fs.inodes[dp].size == DIRENT * |es| && Unique(es);
    hide DirEntries, DirOk, FileSystem.Valid, Clip;
    poff, k := 0, 0;
    while poff < fs.inodes[dp].size
      invariant unchanged(fs) && poff == DIRENT * k && k <= |es|
      invariant forall j | 0 <= j < k && es[j].inum != 0 :: es[j].name != want
    {
      var de := ReadEntry(fs, dp, poff, k);
      var e := EntryOf(de);
      if e.inum != 0 {
        var c, at := StrNCmp(name, de[2..], DIRSIZ);
        if c == 0 {
          MapHas(es, k);
          inum := e.inum;
          return;
        }
      }
      poff := poff + DIRENT;
      k := k + 1;
    }
    MapLacks(es, want);
    inum := 0;
  }

  lemma InumBytes(inum: word)
    ensures inum % 0x100 + 0x100 * (inum / 0x100 % 0x100) == inum % 0x1_0000
  {
    var a := inum / 0x100;
    var b := a / 0x100;
    assert inum == 0x100 * a + inum % 0x100 && a == 0x100 * b + a % 0x100;
    Quotient(inum, 0x1_0000, b, 0x100 * (a % 0x100) + inum % 0x100);
  }

  /** The bytes of a dirent: the inum is stored in 16 bits. */
  method MakeEntry(name: seq<byte>, inum: word) returns (de: seq<byte>)
    ensures |de| == DIRENT && EntryOf(de) == Entry(inum % 0x1_0000, Clip(name, DIRSIZ))
  {
    var buf := new byte[DIRSIZ];
    StrNCpy(buf, name);
    var lo: byte, hi: byte := inum % 0x100, inum / 0x100 % 0x100;
    InumBytes(inum);
    hide Clip;
    de := [lo, hi] + buf[..];
    assert de[2..] == buf[..];
  }

  /** Find a free entry, or the end of the directory. */
  method FindSlot(fs: FileSystem, dp: nat) returns (off: nat, ghost k: nat)
    requires fs.Valid() && DirOk(fs, dp)
    modifies fs
    ensures unchanged(fs) && off == DIRENT * k && k <= |DirEntries(fs, dp)|
    ensures k < |DirEntries(fs, dp)| ==> DirEntries(fs, dp)[k].inum == 0
    ensures forall j | 0 <= j < k :: DirEntries(fs, dp)[j].inum != 0
  {
    ghost var es := DirEntries(fs, dp);
    assert fs.inodes[dp].size == DIRENT * |es|;
    hide DirEntries, DirOk, FileSystem.Valid;
    off, k := 0, 0;
    while off < fs.inodes[dp].size
      invariant unchanged(fs) && off == DIRENT * k && k <= |es|
      invariant forall j | 0 <= j < k :: es[j].inum != 0
    {
      var de := ReadEntry(fs, dp, off, k);
      if EntryOf(de).inum == 0 {
        return;
      }
      off := off + DIRENT;
      k := k + 1;
    }
  }

  lemma WithinBlock(k: nat, w: nat)
    requires 0 < w < DIRENT
    ensures (DIRENT * k + w) % BSIZE != 0
  {
    var x := DIRENT * k + w;
    var m := k - BSIZE / DIRENT * (x / BSIZE);
    assert x % BSIZE == DIRENT * m + w;
  }

  lemma SizeBound(sb: Super, t: Store, i: nat)
    requires TreeOk(sb, t) && i in t.inodes
    ensures i in t.slots && |ContentOf(t, i)| == t.inodes[i].size <= MAXFILE * BSIZE
  {
    assert FileOk(t, i);
  }

  /** The contents after entry `k` has been written, or nothing has. */
  lemma EntryWritten(c: seq<byte>, k: nat, de: seq<byte>)
    requires |c| % DIRENT == 0 && k <= |c| / DIRENT && |de| == DIRENT
    ensures DIRENT * k <= |c| && Overwrite(c, DIRENT * k, de[..0]) == c
    ensures var c1 := Overwrite(c, DIRENT * k, de[..DIRENT]);
            |c1| % DIRENT == 0 && Entries(c1) == Filled(Entries(c), k, EntryOf(de))
  {
    assert de[..DIRENT] == de;
    EntriesAfter(c, |c| / DIRENT, k, de);
  }

  /** The write of a whole entry can stop only at the end of the directory. */
  lemma StopsAtEnd(sb: Super, t: Store, dp: nat, off: nat, full: bool, q: nat)
    requires TreeOk(sb, t) && dp in t.inodes && dp in t.slots && Stopped(full, t.slots[dp], off, DIRENT, DIRENT, q)
    ensures full && q == 0 && t.inodes[dp].size <= off
  {
    SizeHasBlocks(sb, t, dp);
    assert off >= t.inodes[dp].size || HasBlock(t.slots[dp], off / BSIZE);
  }

  /** Write entry `k`.  Entries do not straddle blocks, so the write is all or nothing. */
  method WriteEntry(fs: FileSystem, dp: nat, off: nat, ghost k: nat, de: seq<byte>) returns (r: int)
    requires fs.Valid() && DirOk(fs, dp) && off == DIRENT * k && k <= |DirEntries(fs, dp)| && |de| == DIRENT
    modifies fs
    ensures fs.Valid() && dp in fs.inodes && dp in fs.slots && OthersSame(old(fs.S()), fs.S(), dp)
      && (r == 0 || r == -1)
    ensures fs.inodes[dp].size % DIRENT == 0 && SameInode(old(fs.inodes)[dp], fs.inodes[dp])
    ensures r == 0 ==> DirEntries(fs, dp) == Filled(old(DirEntries(fs, dp)), k, EntryOf(de))
    ensures r == -1 ==> FileContent(fs, dp) == old(FileContent(fs, dp))
    ensures r == -1 ==>
      k == |old(DirEntries(fs, dp))| && (|FileContent(fs, dp)| == MAXFILE * BSIZE || fs.Exhausted())
    ensures Journaled(old(fs.Saved()).disk, old(fs.logged), fs.Saved().disk, fs.logged)
  {
    hide MapOk, TreeOk, LooseOk, Journaled, OthersSame, Logs, Touched, Settled, FileSystem.Exhausted, Entries, EntryOf,
      ContentOf, Stopped, Passed, SameBytes, Written, Overwrite, Grouped;
    ghost var c := FileContent(fs, dp);
    SizeBound(fs.sb, fs.S(), dp);
    var w, q := WriteI(fs, dp, off, DIRENT, de);
    ContentLength(fs.S(), dp);
    EntryWritten(c, k, de);
    if 0 < w < DIRENT {
      WithinBlock(k, w);
    } else if w != -1 {
      if w == 0 {
        StopsAtEnd(fs.sb, old(fs.S()), dp, off, fs.Exhausted(), q);
      }
      WrittenWhole(FileContent(fs, dp), c, off, de, w);
    }
    r := if w == DIRENT then 0 else -1;
  }

  ghost predicate AllUsed(es: seq<Entry>) {
    forall j | 0 <= j < |es| :: es[j].inum != 0
  }

  /** dirlink: adds exactly the binding asked for, in a free entry if there is one, or
      fails and leaves every entry as it was.  The inode number is cut to 16 bits, and if those are 0 the new entry
      counts as free. */
  method DirLink(fs: FileSystem, dp: nat, name: seq<byte>, inum: word) returns (r: int)
    requires fs.Valid() && DirOk(fs, dp)
    modifies fs
    ensures fs.Valid() && DirOk(fs, dp) && OthersSame(old(fs.S()), fs.S(), dp) && (r == 0 || r == -1)
    ensures SameInode(old(fs.inodes)[dp], fs.inodes[dp])
    ensures r == 0 ==> Clip(name, DIRSIZ) !in old(Dir(fs, dp))
    ensures r == 0 && inum % 0x1_0000 != 0 ==> Dir(fs, dp) == old(Dir(fs, dp))[Clip(name, DIRSIZ) := inum % 0x1_0000]
    ensures r == 0 && inum % 0x1_0000 == 0 ==> Dir(fs, dp) == old(Dir(fs, dp))
    ensures r == -1 ==> FileContent(fs, dp) == old(FileContent(fs, dp))
    ensures r == -1 ==>
      || Clip(name, DIRSIZ) in old(Dir(fs, dp))
      || (AllUsed(old(DirEntries(fs, dp))) && (|FileContent(fs, dp)| == MAXFILE * BSIZE || fs.Exhausted()))
    ensures r == 0 ==>
      |DirEntries(fs, dp)| == |old(DirEntries(fs, dp))| + if AllUsed(old(DirEntries(fs, dp))) then 1 else 0
    ensures Journaled(old(fs.Saved()).disk, old(fs.logged), fs.Saved().disk, fs.logged)
  {
    forall x: nat ensures OtherSame(fs.S(), fs.S(), dp, x) {}
    var found, _, _ := DirLookup(fs, dp, name);
    if found != 0 {
      r := -1;
      return;
    }
    var off, k := FindSlot(fs, dp);
    var de := MakeEntry(name, inum);
    Linked(DirEntries(fs, dp), k, EntryOf(de));
    r := WriteEntry(fs, dp, off, k, de);
  }
}
