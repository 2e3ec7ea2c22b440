/** The breadth-first search of user/graphs.c. */
module Bfs {

  const INF: int := 100000
  const MAX_VERT: nat := 200

  type Matrix = seq<seq<int>>

  predicate Square(m: Matrix) {
    forall i | 0 <= i < |m| :: |m[i]| == |m|
  }

  predicate Edge(m: Matrix, a: nat, b: nat) {
    a < |m| && b < |m[a]| && m[a][b] != 0
  }

  /** There is a walk of exactly `k` edges from `u` to `v`. */
  ghost predicate Walk(m: Matrix, u: nat, v: nat, k: nat)
    decreases k
  {
    if k == 0 then u == v else exists w: nat :: Walk(m, u, w, k - 1) && Edge(m, w, v)
  }

  ghost predicate Reachable(m: Matrix, u: nat, v: nat) {
    exists k: nat :: 1 <= k && Walk(m, u, v, k)
  }

  /** `d` is the length of a shortest nonempty walk. */
  ghost predicate Shortest(m: Matrix, u: nat, v: nat, d: int) {
    1 <= d && Walk(m, u, v, d) && forall k: nat | 1 <= k && Walk(m, u, v, k) :: d <= k
  }

  /** The condition under which the search finds shortest walks: an edge from u to itself
      changes distancia[u] while u's successors are being visited, so there must be no
      successor left to visit then. */
  ghost predicate Safe(m: Matrix, u: nat) {
    Edge(m, u, u) ==> forall j: nat | u < j :: !Edge(m, u, j)
  }

  // ---------- What is found ----------

  /** The search so far: the queue `fila`, of which the first `head` entries have been
      taken, and the distances; vertex j was found exactly if it is in `at`, which is
      where it is in the queue. */
  datatype Search = Search(fila: seq<nat>, dist: seq<int>, seen: seq<bool>, head: nat, at: map<nat, nat>)

  ghost predicate EntryOk(m: Matrix, s: Search, i: nat) {
    1 <= i < |s.fila| ==> s.fila[i] < |m| && s.fila[i] in s.at && s.at[s.fila[i]] == i
  }

  ghost predicate VertexOk(m: Matrix, s: Search, u: nat, j: nat) {
    j < |m| && j < |s.seen| && j < |s.dist| ==>
      && (s.seen[j] <==> j in s.at)
      && if j in s.at then 1 <= s.at[j] < |s.fila| && s.fila[s.at[j]] == j && Reachable(m, u, j)
         else s.dist[j] == if j == u then 0 else INF
  }

  /** Vertex `j`, if it is a successor of entry `i`, has been found. */
  ghost predicate DoneOk(m: Matrix, s: Search, i: nat, j: nat) {
    i < |s.fila| && j < |m| && Edge(m, s.fila[i], j) ==> j in s.at
  }

  /** `k` says how many successors of the head entry have been looked at. */
  ghost predicate Inv(m: Matrix, s: Search, u: nat, k: nat) {
    && Square(m) && u < |m| <= |s.dist| == |s.seen| && s.fila != [] && s.fila[0] == u
    && (forall i {:trigger EntryOk(m, s, i)} :: EntryOk(m, s, i))
    && (forall j {:trigger VertexOk(m, s, u, j)} :: VertexOk(m, s, u, j))
    && (forall i: nat, j: nat {:trigger DoneOk(m, s, i, j)} | i < s.head || (i == s.head && j < k) ::
         DoneOk(m, s, i, j))
    && |s.at| + 1 == |s.fila| && forall j | j in s.at :: j < |m|
  }

  /** Vertex `j` is found from the head entry, with its distance as it is then. */
  ghost function Found(s: Search, j: nat): Search
    requires j < |s.dist| && j < |s.seen| && s.head < |s.fila| && s.fila[s.head] < |s.dist|
  {
    s.(seen := s.seen[j := true], dist := s.dist[j := s.dist[s.fila[s.head]] + 1], fila := s.fila + [j],
      at := s.at[j := |s.fila|])
  }

  lemma HeadVertex(m: Matrix, s: Search, u: nat, k: nat)
    requires Inv(m, s, u, k) && s.head < |s.fila|
    ensures s.fila[s.head] < |m|
  {
    assert EntryOk(m, s, s.head);
  }

  lemma Onward(m: Matrix, u: nat, w: nat, v: nat)
    requires (w == u || Reachable(m, u, w)) && Edge(m, w, v)
    ensures Reachable(m, u, v)
  {
    if w == u {
      assert Walk(m, u, u, 0) && Walk(m, u, v, 1);
    } else {
      var k: nat :| 1 <= k && Walk(m, u, w, k);
      assert Walk(m, u, v, k + 1);
    }
  }

  lemma FoundInv(m: Matrix, s: Search, u: nat, j: nat, j1: nat)
    requires Inv(m, s, u, j) && s.head < |s.fila| && j < |m| && j1 == j + 1 && j !in s.at && Edge(m, s.fila[s.head], j)
    ensures s.fila[s.head] < |m| && Inv(m, Found(s, j), u, j1)
  {
    HeadVertex(m, s, u, j);
    var t := Found(s, j);
    var w := s.fila[s.head];
    assert EntryOk(m, s, s.head) && VertexOk(m, s, u, w);
    Onward(m, u, w, j);
    forall i: nat ensures EntryOk(m, t, i) { assert EntryOk(m, s, i); }
    forall v: nat ensures VertexOk(m, t, u, v) { assert VertexOk(m, s, u, v); }
    forall i: nat, v: nat | i < t.head || (i == t.head && v < j1) ensures DoneOk(m, t, i, v) {
      if i != s.head || v != j {
        assert DoneOk(m, s, i, v);
      }
    }
  }

  lemma SkipInv(m: Matrix, s: Search, u: nat, j: nat, j1: nat)
    requires Inv(m, s, u, j) && s.head < |s.fila| && j < |m| && j1 == j + 1
      && (j in s.at || !Edge(m, s.fila[s.head], j))
    ensures Inv(m, s, u, j1)
  {
    forall i: nat, v: nat | i < s.head || (i == s.head && v < j1) ensures DoneOk(m, s, i, v) {
      if i != s.head || v != j {
        assert DoneOk(m, s, i, v);
      }
    }
  }

  /** The head entry is done. */
  lemma NextInv(m: Matrix, s: Search, u: nat)
    requires Inv(m, s, u, |m|)
    ensures Inv(m, s.(head := s.head + 1), u, 0)
  {
    var t := s.(head := s.head + 1);
    forall i: nat ensures EntryOk(m, t, i) { assert EntryOk(m, s, i); }
    forall v: nat ensures VertexOk(m, t, u, v) { assert VertexOk(m, s, u, v); }
    forall i: nat, v: nat | i < t.head ensures DoneOk(m, t, i, v) { assert DoneOk(m, s, i, v); }
  }

  /** When the queue is empty, every vertex that a nonempty walk reaches is found. */
  lemma {:induction false} AllFound(m: Matrix, s: Search, u: nat, v: nat, k: nat)
    requires Inv(m, s, u, 0) && s.head == |s.fila| && 1 <= k && Walk(m, u, v, k)
    ensures v in s.at && v < |m|
    decreases k
  {
    var w: nat :| Walk(m, u, w, k - 1) && Edge(m, w, v);
    if k == 1 {
      assert DoneOk(m, s, 0, v);
    } else {
      AllFound(m, s, u, w, k - 1);
      assert VertexOk(m, s, u, w) && DoneOk(m, s, s.at[w], v);
    }
  }

  // ---------- Distances, if the graph is safe ----------

  /** The distance that entry `i` of the queue stands for; the first is u itself. */
  ghost function Depth(s: Search, i: nat): int {
    if i == 0 then 0 else if i < |s.fila| && s.fila[i] < |s.dist| then s.dist[s.fila[i]] else -1
  }

  ghost predicate DistOk(m: Matrix, s: Search, u: nat, j: nat) {
    j in s.at && j < |s.dist| ==> 1 <= s.dist[j] && Walk(m, u, j, s.dist[j])
  }

  /** A successor of entry `i` was found in time. */
  ghost predicate TimeOk(m: Matrix, s: Search, i: nat, j: nat) {
    i < |s.fila| && j < |m| && j < |s.dist| && Edge(m, s.fila[i], j) ==> s.dist[j] <= Depth(s, i) + 1
  }

  ghost predicate OrderOk(s: Search, i: nat, j: nat) {
    i <= j < |s.fila| ==> Depth(s, i) <= Depth(s, j)
  }

  /** Entries come in order of distance, none more than one beyond the head. */
  ghost predicate Levels(s: Search) {
    && (forall i, j {:trigger OrderOk(s, i, j)} :: OrderOk(s, i, j))
    && (s.head < |s.fila| ==> Depth(s, |s.fila| - 1) <= Depth(s, s.head) + 1)
  }

  ghost predicate Good(m: Matrix, s: Search, u: nat, k: nat) {
    && Levels(s)
    && (forall j {:trigger DistOk(m, s, u, j)} :: DistOk(m, s, u, j))
    && (forall i: nat, j: nat {:trigger TimeOk(m, s, i, j)} | i < s.head || (i == s.head && j < k) ::
         TimeOk(m, s, i, j))
    && (s.head == 0 && u in s.at ==> u < k && Edge(m, u, u))
  }

  /** When the head entry has a successor to find, its vertex is at the distance it
      stands for. */
  lemma HeadDistance(m: Matrix, s: Search, u: nat, j: nat)
    requires Safe(m, u) && Inv(m, s, u, j) && Good(m, s, u, j) && s.head < |s.fila| && Edge(m, s.fila[s.head], j)
    ensures s.fila[s.head] < |m| && s.dist[s.fila[s.head]] == Depth(s, s.head) && 0 <= Depth(s, s.head)
    ensures Walk(m, u, s.fila[s.head], Depth(s, s.head)) && !(s.head == 0 && u in s.at)
  {
    var w := s.fila[s.head];
    assert EntryOk(m, s, s.head) && VertexOk(m, s, u, w) && DistOk(m, s, u, w) && VertexOk(m, s, u, u);
  }

  lemma FoundDepth(m: Matrix, s: Search, u: nat, j: nat, i: nat)
    requires Inv(m, s, u, j) && s.head < |s.fila| && s.fila[s.head] < |m| && j < |m| && j !in s.at && i <= |s.fila|
    ensures Depth(Found(s, j), i) == if i < |s.fila| then Depth(s, i) else s.dist[s.fila[s.head]] + 1
  {
    assert EntryOk(m, s, i);
  }

  lemma FoundLevels(m: Matrix, s: Search, u: nat, j: nat)
    requires Safe(m, u) && Inv(m, s, u, j) && Good(m, s, u, j) && s.head < |s.fila| && j < |m| && j !in s.at
      && Edge(m, s.fila[s.head], j)
    ensures s.fila[s.head] < |m| && Levels(Found(s, j))
  {
    HeadDistance(m, s, u, j);
    var t := Found(s, j);
    forall a: nat, b: nat ensures OrderOk(t, a, b) {
      if a <= b < |t.fila| {
        FoundDepth(m, s, u, j, a);
        FoundDepth(m, s, u, j, b);
        assert OrderOk(s, a, b) && OrderOk(s, a, |s.fila| - 1);
      }
    }
    FoundDepth(m, s, u, j, s.head);
    FoundDepth(m, s, u, j, |s.fila|);
  }

  lemma FoundGood(m: Matrix, s: Search, u: nat, j: nat, j1: nat)
    requires Safe(m, u) && Inv(m, s, u, j) && Good(m, s, u, j) && s.head < |s.fila| && j < |m| && j1 == j + 1
    requires j !in s.at && Edge(m, s.fila[s.head], j)
    ensures s.fila[s.head] < |m| && Good(m, Found(s, j), u, j1)
  {
    HeadDistance(m, s, u, j);
    FoundLevels(m, s, u, j);
    var t := Found(s, j);
    assert Walk(m, u, j, Depth(s, s.head) + 1);
    forall v: nat ensures DistOk(m, t, u, v) { assert DistOk(m, s, u, v); }
    forall i: nat, v: nat | i < t.head || (i == t.head && v < j1) ensures TimeOk(m, t, i, v) {
      if i != s.head || v != j {
        assert TimeOk(m, s, i, v) && DoneOk(m, s, i, v);
      }
      FoundDepth(m, s, u, j, i);
    }
  }

  /** A successor that is already found was found in time. */
  lemma SkipGood(m: Matrix, s: Search, u: nat, j: nat, j1: nat)
    requires Inv(m, s, u, j) && Good(m, s, u, j) && s.head < |s.fila| && j < |m| && j1 == j + 1
    requires j in s.at || !Edge(m, s.fila[s.head], j)
    ensures Good(m, s, u, j1)
  {
    assert VertexOk(m, s, u, j);
    assert j in s.at ==> OrderOk(s, s.at[j], |s.fila| - 1);
    forall i: nat, v: nat | i < s.head || (i == s.head && v < j1) ensures TimeOk(m, s, i, v) {
      if i != s.head || v != j {
        assert TimeOk(m, s, i, v);
      }
    }
  }

  lemma NextGood(m: Matrix, s: Search, u: nat)
    requires Inv(m, s, u, |m|) && Good(m, s, u, |m|) && s.head < |s.fila|
    ensures Good(m, s.(head := s.head + 1), u, 0)
  {
    var t := s.(head := s.head + 1);
    forall v: nat ensures DistOk(m, t, u, v) { assert DistOk(m, s, u, v); }
    forall i: nat, v: nat | i < t.head ensures TimeOk(m, t, i, v) { assert TimeOk(m, s, i, v); }
    forall a: nat, b: nat ensures OrderOk(t, a, b) { assert OrderOk(s, a, b); }
    assert OrderOk(s, s.head, s.head + 1);
  }

  /** When the queue is empty, every vertex was found in time. */
  lemma {:induction false} InTime(m: Matrix, s: Search, u: nat, v: nat, k: nat)
    requires Inv(m, s, u, 0) && Good(m, s, u, 0) && s.head == |s.fila| && 1 <= k && Walk(m, u, v, k)
    ensures v in s.at && v < |m| && s.dist[v] <= k
    decreases k
  {
    var w: nat :| Walk(m, u, w, k - 1) && Edge(m, w, v);
    AllFound(m, s, u, v, k);
    if k == 1 {
      assert TimeOk(m, s, 0, v);
    } else {
      InTime(m, s, u, w, k - 1);
      assert VertexOk(m, s, u, w) && TimeOk(m, s, s.at[w], v);
    }
  }

  // ---------- Distances, if it is not ----------

  /** u comes to be at distance 1 from itself while its successors are visited, and the
      later ones of them at distance 2. */
  ghost predicate LateOk(m: Matrix, s: Search, u: nat, k: nat, j: nat) {
    u < j < |s.dist| && Edge(m, u, j) && (s.head > 0 || j < k) ==> j in s.at && s.dist[j] == 2
  }

  ghost predicate Bad(m: Matrix, s: Search, u: nat, k: nat) {
    && u < |s.dist|
    && (s.head == 0 ==> forall j | j in s.at :: j < k)
    && (s.head == 0 && u < k ==> s.dist[u] == 1)
    && (forall j {:trigger LateOk(m, s, u, k, j)} :: LateOk(m, s, u, k, j))
  }

  lemma FoundBad(m: Matrix, s: Search, u: nat, j: nat, j1: nat)
    requires Inv(m, s, u, j) && Bad(m, s, u, j) && Edge(m, u, u) && s.head < |s.fila| && j < |m| && j1 == j + 1
      && j !in s.at
    requires Edge(m, s.fila[s.head], j)
    ensures s.fila[s.head] < |m| && Bad(m, Found(s, j), u, j1)
  {
    HeadVertex(m, s, u, j);
    assert VertexOk(m, s, u, u);
    var t := Found(s, j);
    forall x: nat ensures LateOk(m, t, u, j1, x) { assert LateOk(m, s, u, j, x); }
  }

  lemma SkipBad(m: Matrix, s: Search, u: nat, j: nat, j1: nat)
    requires Inv(m, s, u, j) && Bad(m, s, u, j) && Edge(m, u, u) && s.head < |s.fila| && j < |m| && j1 == j + 1
    requires j in s.at || !Edge(m, s.fila[s.head], j)
    ensures Bad(m, s, u, j1)
  {
    forall x: nat ensures LateOk(m, s, u, j1, x) { assert LateOk(m, s, u, j, x); }
  }

  lemma NextBad(m: Matrix, s: Search, u: nat)
    requires Inv(m, s, u, |m|) && Bad(m, s, u, |m|)
    ensures Bad(m, s.(head := s.head + 1), u, 0)
  {
    var t := s.(head := s.head + 1);
    forall x: nat ensures LateOk(m, t, u, 0, x) { assert LateOk(m, s, u, |m|, x); }
  }

  // ---------- Both ----------

  /** What the search keeps. */
  ghost predicate Kept(m: Matrix, s: Search, u: nat, k: nat) {
    Inv(m, s, u, k) && if Safe(m, u) then Good(m, s, u, k) else Bad(m, s, u, k)
  }

  lemma {:induction false} Fewer(a: set<nat>, n: nat)
    requires forall x | x in a :: x < n
    ensures |a| <= n
  {
    if n != 0 {
      Fewer(a - {n - 1}, n - 1);
    }
  }

  lemma QueueBound(m: Matrix, s: Search, u: nat, k: nat)
    requires Inv(m, s, u, k)
    ensures |s.fila| <= |m| + 1
  {
    Fewer(s.at.Keys, |m|);
  }

  lemma StartKept(m: Matrix, s: Search, u: nat)
    requires Square(m) && u < |m| <= |s.dist| == |s.seen| && s.fila == [u] && s.head == 0 && s.at == map[]
    requires forall j | 0 <= j < |s.dist| :: !s.seen[j] && s.dist[j] == if j == u then 0 else INF
    ensures Kept(m, s, u, 0)
  {
    forall i: nat ensures EntryOk(m, s, i) {}
    forall v: nat ensures VertexOk(m, s, u, v) {}
    forall a: nat, b: nat ensures OrderOk(s, a, b) {}
  }

  lemma FoundKept(m: Matrix, s: Search, u: nat, j: nat, j1: nat)
    requires Kept(m, s, u, j) && s.head < |s.fila| && j < |m| && j1 == j + 1 && j !in s.at && Edge(m, s.fila[s.head], j)
    ensures s.fila[s.head] < |m| && Kept(m, Found(s, j), u, j1)
  {
    FoundInv(m, s, u, j, j1);
    if Safe(m, u) {
      FoundGood(m, s, u, j, j1);
    } else {
      FoundBad(m, s, u, j, j1);
    }
  }

  lemma SkipKept(m: Matrix, s: Search, u: nat, j: nat, j1: nat)
    requires Kept(m, s, u, j) && s.head < |s.fila| && j < |m| && j1 == j + 1
      && (j in s.at || !Edge(m, s.fila[s.head], j))
    ensures Kept(m, s, u, j1)
  {
    SkipInv(m, s, u, j, j1);
    if Safe(m, u) {
      SkipGood(m, s, u, j, j1);
    } else {
      SkipBad(m, s, u, j, j1);
    }
  }

  lemma NextKept(m: Matrix, s: Search, u: nat)
    requires Kept(m, s, u, |m|) && s.head < |s.fila|
    ensures Kept(m, s.(head := s.head + 1), u, 0)
  {
    NextInv(m, s, u);
    if Safe(m, u) {
      NextGood(m, s, u);
    } else {
      NextBad(m, s, u);
    }
  }

  /** Every vertex found has the length of a shortest nonempty walk. */
  ghost predicate Right(m: Matrix, u: nat, dist: seq<int>, seen: seq<bool>)
    requires |m| <= |dist| == |seen|
  {
    forall j: nat | j < |m| && seen[j] :: Shortest(m, u, j, dist[j])
  }

  lemma FoundIffReachable(m: Matrix, s: Search, u: nat, j: nat)
    requires Inv(m, s, u, 0) && s.head == |s.fila| && j < |m|
    ensures s.seen[j] <==> Reachable(m, u, j)
    ensures !s.seen[j] ==> s.dist[j] == if j == u then 0 else INF
  {
    assert VertexOk(m, s, u, j);
    forall k: nat | 1 <= k && Walk(m, u, j, k) ensures j in s.at {
      AllFound(m, s, u, j, k);
    }
  }

  lemma RightIffSafe(m: Matrix, s: Search, u: nat)
    requires Kept(m, s, u, 0) && s.head == |s.fila|
    ensures Right(m, u, s.dist, s.seen) <==> Safe(m, u)
  {
    if Safe(m, u) {
      forall j: nat | j < |m| && s.seen[j] ensures Shortest(m, u, j, s.dist[j]) {
        assert VertexOk(m, s, u, j) && DistOk(m, s, u, j);
        forall k: nat | 1 <= k && Walk(m, u, j, k) ensures s.dist[j] <= k { InTime(m, s, u, j, k); }
      }
    } else {
      var j: nat :| u < j && Edge(m, u, j);
      assert LateOk(m, s, u, 0, j) && VertexOk(m, s, u, j);
      assert Walk(m, u, u, 0) && Walk(m, u, j, 1);
    }
  }

  /** The smallest graph that is not safe: 0 has edges to itself and to 1, and the search
      from 0 ends with 1 at distance 2. */
  lemma LoopMisleads(s: Search)
    requires var m := [[1, 1], [0, 0]]; Kept(m, s, 0, 0) && s.head == |s.fila|
    ensures var m := [[1, 1], [0, 0]]; s.seen[1] && s.dist[1] == 2 && Shortest(m, 0, 1, 1)
  {
    var m := [[1, 1], [0, 0]];
    assert Edge(m, 0, 0) && Edge(m, 0, 1);
    assert LateOk(m, s, 0, 0, 1) && VertexOk(m, s, 0, 1);
    assert Walk(m, 0, 0, 0) && Walk(m, 0, 1, 1);
  }

  // ---------- The program ----------

  /** What the arrays hold. */
  ghost predicate Holds(s: Search, distancia: array<int>, visitado: array<bool>, fila: array<nat>, esq: nat, dir: nat)
    reads distancia, visitado, fila
  {
    && s.head == esq && |s.fila| == dir + 1 <= fila.Length && fila[..dir + 1] == s.fila
    && s.dist == distancia[..] && s.seen == visitado[..]
  }

  /** One turn of the inner loop. */
  method Look(m: Matrix, u: nat, distancia: array<int>, visitado: array<bool>, fila: array<nat>, esq: nat, dir: nat,
              j: nat, ghost s: Search)
    returns (dir1: nat, ghost t: Search)
    requires fila.Length == 2 * MAX_VERT && |m| <= MAX_VERT && distancia.Length == visitado.Length == MAX_VERT
    requires Kept(m, s, u, j) && s.head < |s.fila| && j < |m| && Holds(s, distancia, visitado, fila, esq, dir)
    modifies distancia, visitado, fila
    ensures Kept(m, t, u, j + 1) && t.head < |t.fila| && Holds(t, distancia, visitado, fila, esq, dir1)
    ensures t.fila[t.head] == s.fila[s.head]
  {
    hide Good, Bad, Safe;
    dir1, t := dir, s;
    var atual := fila[esq];
    HeadVertex(m, s, u, j);
    QueueBound(m, s, u, j);
    assert VertexOk(m, s, u, j);
    assert atual == s.fila[s.head] && visitado[j] == s.seen[j] && |m[atual]| == |m|;
    if m[atual][j] != 0 && !visitado[j] {
      FoundKept(m, s, u, j, j + 1);
      t := Found(s, j);
      visitado[j] := true;
      distancia[j] := distancia[atual] + 1;
      dir1 := dir + 1;
      fila[dir1] := j;
    } else {
      SkipKept(m, s, u, j, j + 1);
    }
  }

  /** The search loop: at the end exactly the vertices that a nonempty walk from `u`
      reaches are visited, the others are as they were set up, and at most |m| + 1
      entries were ever enqueued.  The distances are the lengths of shortest nonempty
      walks exactly if the graph is safe. */
  method ShortestPaths(m: Matrix, u: nat, distancia: array<int>, visitado: array<bool>, fila: array<nat>)
    returns (dir: nat)
    requires Square(m) && u < |m| <= MAX_VERT
    requires distancia.Length == visitado.Length == MAX_VERT && fila.Length == 2 * MAX_VERT
    modifies distancia, visitado, fila
    ensures forall j: nat | j < |m| :: visitado[j] <==> Reachable(m, u, j)
    ensures forall j: nat | j < |m| && !visitado[j] :: distancia[j] == if j == u then 0 else INF
    ensures Right(m, u, distancia[..], visitado[..]) <==> Safe(m, u)
    ensures dir <= |m|
  {
    hide Good, Bad, Safe, Inv, Right;
    var i := 0;
    while i < MAX_VERT
      invariant 0 <= i <= MAX_VERT && forall x | 0 <= x < i :: distancia[x] == INF && !visitado[x]
    {
      distancia[i] := INF;
      visitado[i] := false;
      i := i + 1;
    }
    fila[0] := u;
    distancia[u] := 0;
    var esq := 0;
    dir := 0;
    ghost var s := Search(fila[..1], distancia[..], visitado[..], 0, map[]);
    StartKept(m, s, u);
    while esq <= dir
      invariant esq <= dir + 1 && Holds(s, distancia, visitado, fila, esq, dir) && Kept(m, s, u, 0)
      decreases |m| + 1 - esq
    {
      var j := 0;
      while j < |m|
        invariant 0 <= j <= |m| && esq <= dir && Holds(s, distancia, visitado, fila, esq, dir) && Kept(m, s, u, j)
      {
        dir, s := Look(m, u, distancia, visitado, fila, esq, dir, j, s);
        j := j + 1;
      }
      QueueBound(m, s, u, j);
      NextKept(m, s, u);
      s := s.(head := s.head + 1);
      esq := esq + 1;
    }
    QueueBound(m, s, u, 0);
    forall j: nat | j < |m|
      ensures (visitado[j] <==> Reachable(m, u, j)) && (!visitado[j] ==> distancia[j] == if j == u then 0 else INF)
    {
      FoundIffReachable(m, s, u, j);
    }
    RightIffSafe(m, s, u);
  }
}
