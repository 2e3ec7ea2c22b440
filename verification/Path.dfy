/** Path names (kernel/fs.c skipelem and namex). */
module Path {
  import opened Blocks
  import opened Inodes
  import opened FileIO
  import opened Directory

  const SLASH: byte := 47
  const ROOTINO: nat := 1

  // ---------- Components ----------

  /** A path is a C string without its NUL. */
  ghost predicate NulFree(s: seq<byte>) {
    forall i | 0 <= i < |s| :: s[i] != 0
  }

  ghost predicate SlashFree(s: seq<byte>) {
    forall i | 0 <= i < |s| :: s[i] != SLASH
  }

  /** The nonempty components of a path, given the component that `prefix` begins. */
  ghost function Split(prefix: seq<byte>, path: seq<byte>): seq<seq<byte>>
    decreases |path|
  {
    var done := if prefix == [] then [] else [prefix];
    if path == [] then done
    else if path[0] == SLASH then done + Split([], path[1..])
    else Split(prefix + [path[0]], path[1..])
  }

  ghost function Components(path: seq<byte>): seq<seq<byte>> {
    Split([], path)
  }

  lemma {:induction false} SplitSlashes(path: seq<byte>, k: nat)
    requires k <= |path| && forall i | 0 <= i < k :: path[i] == SLASH
    ensures Components(path) == Components(path[k..])
    decreases k
  {
    if k == 0 {
      assert path[0..] == path;
    } else {
      SplitSlashes(path[1..], k - 1);
      assert path[1..][k - 1..] == path[k..];
    }
  }

  lemma {:induction false} SplitElement(prefix: seq<byte>, path: seq<byte>, k: nat)
    requires k <= |path| && SlashFree(path[..k]) && (k < |path| ==> path[k] == SLASH) && 0 < |prefix| + k
    ensures Split(prefix, path) == [prefix + path[..k]] + Components(path[k..])
    decreases k
  {
    if k == 0 {
      assert prefix + path[..0] == prefix && path[0..] == path;
    } else {
      assert path[0] == path[..k][0] && path[1..][..k - 1] == path[..k][1..];
      SplitElement(prefix + [path[0]], path[1..], k - 1);
      assert prefix + [path[0]] + path[1..][..k - 1] == prefix + path[..k];
      assert path[1..][k - 1..] == path[k..];
    }
  }

  /** The components are the parts between the slashes: a path made by putting
      slashes before components splits into them again. */
  ghost function Join(cs: seq<seq<byte>>): seq<byte> {
    if cs == [] then [] else [SLASH] + cs[0] + Join(cs[1..])
  }

  lemma Parts(x: byte, a: seq<byte>, b: seq<byte>)
    ensures var p := [x] + a + b; p[0] == x && p[1..] == a + b && p[1..][..|a|] == a && p[1..][|a|..] == b
  {
    var p := [x] + a + b;
    assert p[1..] == a + b;
  }

  lemma {:induction false} SplitJoin(cs: seq<seq<byte>>)
    requires forall i | 0 <= i < |cs| :: cs[i] != [] && SlashFree(cs[i])
    ensures Components(Join(cs)) == cs
  {
    if cs != [] {
      var path := Join(cs);
      Parts(SLASH, cs[0], Join(cs[1..]));
      assert 1 < |cs| ==> Join(cs[1..])[0] == SLASH && path[1..][|cs[0]|] == Join(cs[1..])[0];
      SplitSlashes(path, 1);
      SplitElement([], path[1..], |cs[0]|);
      SplitJoin(cs[1..]);
      assert [] + cs[0] == cs[0] && [cs[0]] + cs[1..] == cs;
    }
  }

  // ---------- skipelem ----------

  lemma ClipNulFree(s: seq<byte>, n: nat)
    requires NulFree(s)
    ensures Clip(s, n) == if |s| < n then s else s[..n]
    ensures NulFree(Clip(s, n)) && Clip(Clip(s, n), n) == Clip(s, n)
  {
    var t := Clip(s, n);
    assert t[..|t|] == t;
  }

  method SkipSlashes(path: seq<byte>, i: nat) returns (j: nat)
    requires i <= |path|
    ensures i <= j <= |path| && (j < |path| ==> path[j] != SLASH)
    ensures Components(path[i..]) == Components(path[j..])
  {
    hide Components;
    j := i;
    while j < |path| && path[j] == SLASH
      invariant i <= j <= |path| && Components(path[i..]) == Components(path[j..])
    {
      SplitSlashes(path[j..], 1);
      assert path[j..][1..] == path[j + 1..];
      j := j + 1;
    }
  }

  method ElementEnd(path: seq<byte>, s: nat) returns (j: nat)
    requires s < |path| && path[s] != SLASH
    ensures s < j <= |path| && Components(path[s..]) == [path[s..j]] + Components(path[j..])
  {
    j := s;
    while j < |path| && path[j] != SLASH
      invariant s <= j <= |path| && (j == s ==> path[s] != SLASH) && SlashFree(path[s..j])
    {
      assert path[s..j + 1] == path[s..j] + [path[j]];
      j := j + 1;
    }
    ghost var rest := path[s..];
    assert rest[..j - s] == path[s..j] && rest[j - s..] == path[j..];
    SplitElement([], rest, j - s);
    assert [] + rest[..j - s] == path[s..j];
  }

  /** skipelem takes off the first component and the slashes after it, and gives up
      exactly if there is none. */
  method SkipElem(path: seq<byte>) returns (found: bool, rest: seq<byte>, name: seq<byte>)
    requires NulFree(path)
    ensures found <==> Components(path) != []
    ensures found ==> NulFree(rest) && |rest| < |path| && (rest == [] <==> Components(rest) == [])
    ensures found ==> Components(path)[1..] == Components(rest) && name == Clip(Components(path)[0], DIRSIZ)
    ensures found ==> NulFree(Components(path)[0])
  {
    var s := SkipSlashes(path, 0);
    assert path[0..] == path;
    rest, name := [], [];
    if s == |path| {
      return false, rest, name;
    }
    var i := ElementEnd(path, s);
    var len := i - s;
    name := if len >= DIRSIZ then path[s..s + DIRSIZ] else path[s..i];
    ghost var elem := path[s..i];
    ClipNulFree(elem, DIRSIZ);
    assert name == Clip(elem, DIRSIZ);
    var j := SkipSlashes(path, i);
    if j < |path| {
      var _ := ElementEnd(path, j);
    }
    rest := path[j..];
    found := true;
  }

  // ---------- namex ----------

  /** Every directory is well formed and its entries name existing inodes. */
  ghost predicate DirsOk(fs: FileSystem, dirs: set<nat>)
    reads fs
  {
    forall d | d in dirs :: DirOk(fs, d) && forall nm | nm in Dir(fs, d) :: Dir(fs, d)[nm] in fs.inodes
  }

  /** Where following the components leads; 0 is nowhere. */
  ghost function Resolve(fs: FileSystem, dirs: set<nat>, ip: nat, cs: seq<seq<byte>>): nat
    reads fs
    decreases |cs|
  {
    if cs == [] then ip
    else if ip in dirs && Clip(cs[0], DIRSIZ) in Dir(fs, ip)
    then Resolve(fs, dirs, Dir(fs, ip)[Clip(cs[0], DIRSIZ)], cs[1..])
    else 0
  }

  /** What namex should return, and for nameiparent also the last name. */
  ghost predicate Names(fs: FileSystem, dirs: set<nat>, ip: nat, cs: seq<seq<byte>>, parent: bool, r: nat,
                        name: seq<byte>)
    reads fs
  {
    if !parent then r == Resolve(fs, dirs, ip, cs)
    else if cs == [] then r == 0
    else
      var dir := Resolve(fs, dirs, ip, cs[..|cs| - 1]);
      r == (if dir in dirs then dir else 0) && (r != 0 ==> name == Clip(cs[|cs| - 1], DIRSIZ))
  }

  /** The cases of namex's loop, with `cs` the components left. */
  lemma NamesStep(fs: FileSystem, dirs: set<nat>, ip: nat, cs: seq<seq<byte>>, parent: bool, r: nat, name: seq<byte>)
    requires cs != [] && 0 !in dirs
    ensures ip !in dirs ==> Names(fs, dirs, ip, cs, parent, 0, name)
    ensures parent && |cs| == 1 && ip in dirs ==> Names(fs, dirs, ip, cs, parent, ip, Clip(cs[0], DIRSIZ))
    ensures !(parent && |cs| == 1) && Clip(cs[0], DIRSIZ) !in Dir(fs, ip) ==> Names(fs, dirs, ip, cs, parent, 0, name)
    ensures !(parent && |cs| == 1) && ip in dirs && Clip(cs[0], DIRSIZ) in Dir(fs, ip)
            && Names(fs, dirs, Dir(fs, ip)[Clip(cs[0], DIRSIZ)], cs[1..], parent, r, name)
            ==> Names(fs, dirs, ip, cs, parent, r, name)
  {
    hide Clip, Dir;
    var n := |cs| - 1;
    if n > 0 {
      assert cs[..n][1..] == cs[1..][..n - 1] && cs[..n][0] == cs[0];
    }
  }

  /** namex, where `dirs` are the inodes of type T_DIR, `cwd` is the current directory
      and result 0 is the null pointer. */
  method NameX(fs: FileSystem, dirs: set<nat>, path: seq<byte>, cwd: nat, parent: bool)
    returns (r: nat, name: seq<byte>)
    requires fs.Valid() && NulFree(path) && DirsOk(fs, dirs) && cwd in fs.inodes && ROOTINO in fs.inodes
    requires 0 !in fs.inodes
    modifies fs
    ensures unchanged(fs)
    ensures Names(fs, dirs, if path != [] && path[0] == SLASH then ROOTINO else cwd, Components(path), parent, r, name)
  {
    var ip := if path != [] && path[0] == SLASH then ROOTINO else cwd;
    ghost var start, cs := ip, Components(path);
    assert 0 !in dirs;
    hide Components, Resolve, Clip, Dir, FileSystem.Valid, NulFree, DirOk;
    var found, rest := true, path;
    name := [];
    while true
      invariant unchanged(fs) && NulFree(rest) && ip in fs.inodes
      invariant forall n, x :: Names(fs, dirs, ip, Components(rest), parent, n, x) ==>
        Names(fs, dirs, start, cs, parent, n, x)
      decreases |rest|
    {
      ghost var left, ip0 := Components(rest), ip;
      found, rest, name := SkipElem(rest);
      if !found {
        r := if parent then 0 else ip;
        assert r == Resolve(fs, dirs, ip, left) || parent;
        assert Names(fs, dirs, ip, left, parent, r, name);
        return;
      }
      NamesStep(fs, dirs, ip, left, parent, 0, name);
      if ip !in dirs {
        r := 0;
        return;
      }
      if parent && rest == [] {
        r := ip;
        return;
      }
      ClipNulFree(left[0], DIRSIZ);
      var next, _, _ := DirLookup(fs, ip, name);
      if next == 0 {
        r := 0;
        return;
      }
      ip := next;
      forall n, x | Names(fs, dirs, ip, Components(rest), parent, n, x)
        ensures Names(fs, dirs, start, cs, parent, n, x)
      {
        NamesStep(fs, dirs, ip0, left, parent, n, x);
      }
    }
  }
}
