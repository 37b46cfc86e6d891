/**
  The alias graph of a legacy model mapping and what expanding a source means: the expansion
  tree, its size, its leaves in depth-first order, and the walks it consists of.  Nothing here
  follows the resolver's code; the resolver is proved against these definitions.
 */
module ModelMappingGraph {

  /** A model name. */
  datatype Name = Name(text: string)

  /** Sources with their targets; a target equal to its source is a self-mapping. */
  type Graph = map<Name, seq<Name>>

  // ---------------------------------------------------------------- the expansion tree

  /**
    Below `cur`, with `room` hops left, no branch repeats a name of its own path and none is
    longer than the room.  A self-mapping is a leaf, not a hop.
   */
  ghost predicate Fine(g: Graph, path: set<Name>, cur: Name, room: int)
    decreases room
  {
    && 0 <= room
    && cur !in path
    && (cur in g ==> forall i | 0 <= i < |g[cur]| && g[cur][i] != cur :: Fine(g, path + {cur}, g[cur][i], room - 1))
  }

  /** Nodes of the expansion tree of `cur`. */
  function Size(g: Graph, cur: Name, room: int): nat
    decreases room, 1
  {
    if room < 0 || cur !in g then 1 else 1 + SizeOf(g, cur, g[cur], room)
  }

  function SizeOf(g: Graph, cur: Name, targets: seq<Name>, room: int): nat
    requires 0 <= room
    decreases room, 0, 1, |targets|
  {
    if targets == [] then 0
    else
      var last := targets[|targets| - 1];
      SizeOf(g, cur, targets[..|targets| - 1], room) + TargetSize(g, cur, last, room)
  }

  /** A self-mapping is a single node. */
  function TargetSize(g: Graph, cur: Name, target: Name, room: int): nat
    requires 0 <= room
    decreases room, 0, 0, 0
  {
    if target == cur then 1 else Size(g, target, room - 1)
  }

  /** Unmapped and self-mapped names of the tree, in depth-first order, with repetitions. */
  function Leaves(g: Graph, cur: Name, room: int): seq<Name>
    decreases room, 1
  {
    if room < 0 then [] else if cur !in g then [cur] else LeavesOf(g, cur, g[cur], room)
  }

  function LeavesOf(g: Graph, cur: Name, targets: seq<Name>, room: int): seq<Name>
    requires 0 <= room
    decreases room, 0, 1, |targets|
  {
    if targets == [] then []
    else
      var last := targets[|targets| - 1];
      LeavesOf(g, cur, targets[..|targets| - 1], room) + TargetLeaves(g, cur, last, room)
  }

  function TargetLeaves(g: Graph, cur: Name, target: Name, room: int): seq<Name>
    requires 0 <= room
    decreases room, 0, 0, 0
  {
    if target == cur then [cur] else Leaves(g, target, room - 1)
  }

  // ---------------------------------------------------------------- first occurrences

  function AddNew(known: seq<Name>, x: Name): seq<Name> {
    if x in known then known else known + [x]
  }

  /** `known` followed by the first occurrences of what is new in `xs`. */
  function Dedup(known: seq<Name>, xs: seq<Name>): seq<Name> {
    if xs == [] then known else AddNew(Dedup(known, xs[..|xs| - 1]), xs[|xs| - 1])
  }

  lemma {:induction false} DedupAppend(known: seq<Name>, a: seq<Name>, b: seq<Name>)
    ensures Dedup(known, a + b) == Dedup(Dedup(known, a), b)
    decreases |b|
  {
    if b == [] {
      assert a + b == a;
    } else {
      DedupAppend(known, a, b[..|b| - 1]);
      assert (a + b)[..|a + b| - 1] == a + b[..|b| - 1];
    }
  }

  lemma {:induction false} DedupGrows(known: seq<Name>, xs: seq<Name>)
    ensures known <= Dedup(known, xs)
    decreases |xs|
  {
    if xs != [] {
      DedupGrows(known, xs[..|xs| - 1]);
    }
  }

  ghost predicate Distinct(s: seq<Name>) {
    forall i, j | 0 <= i < j < |s| :: s[i] != s[j]
  }

  lemma {:induction false} DedupDistinct(known: seq<Name>, xs: seq<Name>)
    requires Distinct(known)
    ensures Distinct(Dedup(known, xs))
    ensures forall x :: x in Dedup(known, xs) <==> x in known || x in xs
    decreases |xs|
  {
    if xs != [] {
      DedupDistinct(known, xs[..|xs| - 1]);
      assert xs == xs[..|xs| - 1] + [xs[|xs| - 1]];
    }
  }

  /** Of two names, the one that first occurs earlier comes earlier. */
  lemma DedupKeepsOrder(xs: seq<Name>, p: nat, q: nat) returns (i: nat, j: nat)
    requires p < q < |xs| && forall m | 0 <= m < q :: xs[m] != xs[q]
    ensures i < j < |Dedup([], xs)| && Dedup([], xs)[i] == xs[p] && Dedup([], xs)[j] == xs[q]
  {
    var front, d := Dedup([], xs[..q]), Dedup([], xs);
    DedupDistinct([], xs[..q]);
    DedupDistinct([], xs);
    DedupAppend([], xs[..q], xs[q..]);
    DedupGrows(front, xs[q..]);
    assert xs[..q] + xs[q..] == xs && xs[..q][p] == xs[p];
    assert xs[p] in xs[..q] && xs[q] !in xs[..q] && xs[q] in xs;
    i :| i < |front| && front[i] == xs[p];
    j :| j < |d| && d[j] == xs[q];
    assert d[i] == xs[p];
    assert forall m | 0 <= m < |front| :: d[m] == front[m] && front[m] in front;
  }

  // ---------------------------------------------------------------- laws of the tree

  lemma {:induction false} ListsJoin(g: Graph, cur: Name, a: seq<Name>, b: seq<Name>, room: nat)
    ensures LeavesOf(g, cur, a + b, room) == LeavesOf(g, cur, a, room) + LeavesOf(g, cur, b, room)
    ensures SizeOf(g, cur, a + b, room) == SizeOf(g, cur, a, room) + SizeOf(g, cur, b, room)
    decreases |b|
  {
    hide TargetLeaves, TargetSize;
    if b == [] {
      assert a + b == a;
    } else {
      assert (a + b)[..|a + b| - 1] == a + b[..|b| - 1];
      ListsJoin(g, cur, a, b[..|b| - 1], room);
    }
  }

  /**
    The expansion in its own terms: an unmapped name is one node and one leaf; a mapped one is a
    node whose leaves and nodes are those of its targets, target by target in the listed order; a
    target equal to its source is one node and one leaf.
   */
  lemma ExpansionLaws(g: Graph, cur: Name, a: seq<Name>, t: Name, b: seq<Name>, room: nat)
    ensures cur !in g ==> Leaves(g, cur, room) == [cur] && Size(g, cur, room) == 1
    ensures cur in g && g[cur] == [] ==> Leaves(g, cur, room) == [] && Size(g, cur, room) == 1
    ensures cur in g && g[cur] == a + [t] + b ==>
              && Leaves(g, cur, room) == LeavesOf(g, cur, a, room) + (if t == cur then [t] else Leaves(g, t, room - 1)) + LeavesOf(g, cur, b, room)
              && Size(g, cur, room) == 1 + SizeOf(g, cur, a, room) + (if t == cur then 1 else Size(g, t, room - 1)) + SizeOf(g, cur, b, room)
  {
    ListsJoin(g, cur, a + [t], b, room);
    ListsJoin(g, cur, a, [t], room);
    assert [t][..0] == [] && LeavesOf(g, cur, [t], room) == TargetLeaves(g, cur, t, room);
    assert SizeOf(g, cur, [t], room) == TargetSize(g, cur, t, room);
  }

  // ---------------------------------------------------------------- walks

  predicate Hop(g: Graph, a: Name, b: Name) {
    a in g && b in g[a] && b != a
  }

  /** A walk along non-self mappings. */
  ghost predicate Walk(g: Graph, w: seq<Name>) {
    && w != []
    && forall i | 0 < i < |w| :: Hop(g, w[i - 1], w[i])
  }

  lemma Extended(g: Graph, w: seq<Name>, next: Name)
    requires Walk(g, w) && Hop(g, w[|w| - 1], next)
    ensures Walk(g, w + [next])
  {
  }

  lemma Preceded(g: Graph, first: Name, w: seq<Name>)
    requires Walk(g, w) && Hop(g, first, w[0])
    ensures Walk(g, [first] + w)
  {
    var v := [first] + w;
    forall i | 0 < i < |v| ensures Hop(g, v[i - 1], v[i]) {
      if i > 1 {
        assert Hop(g, w[i - 2], w[i - 1]);
      }
    }
  }

  lemma {:induction false} FineWalk(g: Graph, path: set<Name>, w: seq<Name>, room: int)
    requires Walk(g, w) && Fine(g, path, w[0], room)
    ensures |w| <= room + 1
    ensures forall i | 0 <= i < |w| :: w[i] !in path
    ensures Distinct(w)
    decreases |w|
  {
    if |w| > 1 {
      assert Hop(g, w[0], w[1]);
      var i :| 0 <= i < |g[w[0]]| && g[w[0]][i] == w[1];
      var v := w[1..];
      assert forall j | 0 <= j < |v| :: v[j] == w[j + 1];
      FineWalk(g, path + {w[0]}, v, room - 1);
      assert forall j | 0 < j < |w| :: w[j] == v[j - 1] && v[j - 1] !in path + {w[0]};
    }
  }

  /** When the expansion is not fine there is a walk that repeats a name or is longer than the room. */
  lemma {:induction false} NotFineWalk(g: Graph, path: set<Name>, p: seq<Name>, cur: Name, room: int) returns (w: seq<Name>)
    requires Walk(g, p + [cur]) && !Fine(g, path, cur, room)
    requires forall x | x in path :: x in p
    requires -1 <= room
    ensures Walk(g, w) && w[0] == (p + [cur])[0] && |p| < |w| <= |p| + 1 + room + 1
    ensures !Distinct(w) || |w| == |p| + room + 2
    decreases room
  {
    w := p + [cur];
    if room < 0 {
      return;
    }
    if cur in path {
      var i :| 0 <= i < |p| && p[i] == cur;
      assert w[i] == w[|p|];
      return;
    }
    var i :| 0 <= i < |g[cur]| && g[cur][i] != cur && !Fine(g, path + {cur}, g[cur][i], room - 1);
    var next := g[cur][i];
    assert Hop(g, cur, next);
    Extended(g, w, next);
    w := NotFineWalk(g, path + {cur}, w, next, room - 1);
  }

  /** A walk that repeats a name goes round for ever. */
  lemma {:induction false} GoRound(g: Graph, w: seq<Name>, i: nat, j: nat, n: nat) returns (v: seq<Name>)
    requires Walk(g, w) && i < j < |w| && w[i] == w[j]
    requires forall k | j <= k < |w| :: w[k] == w[k - (j - i)]
    ensures Walk(g, v) && v[0] == w[0] && |v| >= n
    decreases n - |w|
  {
    v := w;
    if |w| < n {
      var p := j - i;
      var next := w[|w| - p];
      assert w[|w| - 1] == w[|w| - 1 - p];
      assert Hop(g, w[|w| - 1 - p], next);
      Extended(g, w, next);
      v := GoRound(g, w + [next], i, j, n);
    }
  }

  lemma Prefix(g: Graph, w: seq<Name>, n: nat)
    requires Walk(g, w) && 0 < n <= |w|
    ensures Walk(g, w[..n])
  {
  }

  /** A walk with a repeated name yields one of any length. */
  lemma AnyLength(g: Graph, w: seq<Name>, n: nat) returns (v: seq<Name>)
    requires Walk(g, w) && !Distinct(w) && 0 < n
    ensures Walk(g, v) && v[0] == w[0] && |v| == n
  {
    var i, j :| 0 <= i < j < |w| && w[i] == w[j];
    Prefix(g, w, j + 1);
    var u := w[..j + 1];
    assert u[i] == u[j];
    v := GoRound(g, u, i, j, n);
    Prefix(g, v, n);
    v := v[..n];
  }

  /** A walk of `room` + 1 hops out of `source`. */
  ghost predicate LongWalk(g: Graph, source: Name, room: nat, w: seq<Name>) {
    Walk(g, w) && w[0] == source && |w| == room + 2
  }

  /**
    The cycle and the depth check together accept a source exactly when no walk from it has
    more than `room` hops; a reachable cycle is one way to have such a walk.
   */
  lemma FineIffNoLongWalk(g: Graph, source: Name, room: nat)
    ensures Fine(g, {}, source, room) <==> forall w :: !LongWalk(g, source, room, w)
  {
    if Fine(g, {}, source, room) {
      forall w ensures !LongWalk(g, source, room, w) {
        if LongWalk(g, source, room, w) {
          FineWalk(g, {}, w, room);
        }
      }
    } else {
      assert [] + [source] == [source];
      var w := NotFineWalk(g, {}, [], source, room);
      if !Distinct(w) {
        w := AnyLength(g, w, room + 2);
      }
      assert LongWalk(g, source, room, w);
    }
  }

  /** A non-self cycle within reach of the source rules out acceptance. */
  lemma CycleNotFine(g: Graph, w: seq<Name>, room: nat)
    requires Walk(g, w) && !Distinct(w)
    ensures !Fine(g, {}, w[0], room)
  {
    if Fine(g, {}, w[0], room) {
      FineWalk(g, {}, w, room);
    }
  }

  // ---------------------------------------------------------------- leaves are the ends of walks

  predicate Final(g: Graph, x: Name) {
    x !in g || x in g[x]
  }

  ghost predicate Reaches(g: Graph, cur: Name, w: seq<Name>, x: Name) {
    Walk(g, w) && w[0] == cur && w[|w| - 1] == x && Final(g, x)
  }

  lemma {:induction false} TargetIsIn(g: Graph, cur: Name, targets: seq<Name>, i: nat, room: nat, x: Name)
    requires i < |targets|
    requires x in TargetLeaves(g, cur, targets[i], room)
    ensures x in LeavesOf(g, cur, targets, room)
    decreases |targets|
  {
    if i < |targets| - 1 {
      TargetIsIn(g, cur, targets[..|targets| - 1], i, room, x);
    }
  }

  lemma {:induction false} LeafTarget(g: Graph, cur: Name, targets: seq<Name>, room: nat, x: Name) returns (i: nat)
    requires x in LeavesOf(g, cur, targets, room)
    ensures i < |targets|
    ensures x in TargetLeaves(g, cur, targets[i], room)
    decreases |targets|
  {
    var last := targets[|targets| - 1];
    if x in TargetLeaves(g, cur, last, room) {
      i := |targets| - 1;
    } else {
      i := LeafTarget(g, cur, targets[..|targets| - 1], room, x);
    }
  }

  lemma {:induction false} ReachedIsLeaf(g: Graph, path: set<Name>, cur: Name, room: nat, w: seq<Name>, x: Name)
    requires Fine(g, path, cur, room) && Reaches(g, cur, w, x)
    ensures x in Leaves(g, cur, room)
    decreases |w|
  {
    if |w| == 1 {
      if cur in g {
        var i :| 0 <= i < |g[cur]| && g[cur][i] == cur;
        TargetIsIn(g, cur, g[cur], i, room, x);
      }
    } else {
      assert Hop(g, w[0], w[1]);
      var i :| 0 <= i < |g[cur]| && g[cur][i] == w[1];
      var v := w[1..];
      assert forall j | 0 <= j < |v| :: v[j] == w[j + 1];
      assert Fine(g, path + {cur}, w[1], room - 1);
      ReachedIsLeaf(g, path + {cur}, w[1], room - 1, v, x);
      TargetIsIn(g, cur, g[cur], i, room, x);
    }
  }

  lemma {:induction false} LeafIsReached(g: Graph, cur: Name, room: int, x: Name) returns (w: seq<Name>)
    requires x in Leaves(g, cur, room)
    ensures Reaches(g, cur, w, x)
    decreases room
  {
    w := [cur];
    if cur in g {
      var i := LeafTarget(g, cur, g[cur], room, x);
      if g[cur][i] != cur {
        var v := LeafIsReached(g, g[cur][i], room - 1, x);
        w := [cur] + v;
        Preceded(g, cur, v);
      }
    }
  }

  /** On an accepted source the leaves are exactly the final names some walk ends at. */
  lemma LeavesAreReached(g: Graph, source: Name, room: nat, x: Name)
    requires Fine(g, {}, source, room)
    ensures x in Leaves(g, source, room) <==> exists w :: Reaches(g, source, w, x)
  {
    if x in Leaves(g, source, room) {
      var w := LeafIsReached(g, source, room, x);
    }
    forall w | Reaches(g, source, w, x) ensures x in Leaves(g, source, room) {
      ReachedIsLeaf(g, {}, source, room, w, x);
    }
  }
}
