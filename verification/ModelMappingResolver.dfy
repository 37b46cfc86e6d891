/** The budgeted depth-first resolver of a legacy mapping, proved against the alias graph. */
module ModelMappingResolver {
  import opened ModelMappingGraph

  const MAX_DEPTH: nat := 32
  const MAX_CANDIDATES: nat := 128
  const MAX_WORK: nat := 8192
  const MAX_VALIDATION_WORK: nat := 65536

  datatype Error = WorkLimit | TooDeep | Cycle | TooManyCandidates
  datatype Outcome = Pass | Fail(error: Error)
  datatype Result = Resolved(models: seq<Name>) | Rejected(error: Error)

  /** Expansion of `cur` succeeds from here with `budget` units of work. */
  ghost predicate Expands(g: Graph, path: set<Name>, cur: Name, room: int, known: seq<Name>, budget: int) {
    && Fine(g, path, cur, room)
    && Size(g, cur, room) <= budget
    && |Dedup(known, Leaves(g, cur, room))| <= MAX_CANDIDATES
  }

  /** What a failure says about the expansion. */
  ghost predicate Explains(e: Error, g: Graph, path: set<Name>, cur: Name, room: int, known: seq<Name>, budget: int) {
    match e
    case WorkLimit => Size(g, cur, room) > budget
    case TooManyCandidates => |Dedup(known, Leaves(g, cur, room))| > MAX_CANDIDATES
    case _ => !Fine(g, path, cur, room) && Broken(e, g, path, cur, room)
  }

  /** The walk from `cur` stays within the room and ends at a name it or the path has already passed. */
  ghost predicate Returns(g: Graph, path: set<Name>, cur: Name, room: int, w: seq<Name>) {
    && Walk(g, w) && w[0] == cur && |w| <= room + 1
    && (w[|w| - 1] in path || exists i :: 0 <= i < |w| - 1 && w[i] == w[|w| - 1])
  }

  ghost predicate Exceeds(g: Graph, cur: Name, room: int, w: seq<Name>) {
    Walk(g, w) && w[0] == cur && |w| > room + 1
  }

  /** A cycle error comes with a walk that returns, a depth error with one that is too long. */
  ghost predicate Broken(e: Error, g: Graph, path: set<Name>, cur: Name, room: int) {
    match e
    case Cycle => exists w :: Returns(g, path, cur, room, w)
    case TooDeep => exists w :: Exceeds(g, cur, room, w)
    case _ => false
  }

  lemma BrokenHere(g: Graph, path: set<Name>, cur: Name, room: int)
    ensures room < 0 ==> Broken(TooDeep, g, path, cur, room)
    ensures 0 <= room && cur in path ==> Broken(Cycle, g, path, cur, room)
  {
    if room < 0 {
      assert Exceeds(g, cur, room, [cur]);
    } else if cur in path {
      assert Returns(g, path, cur, room, [cur]);
    }
  }

  /** A walk that goes wrong below a target goes wrong below its source. */
  lemma BrokenAbove(e: Error, g: Graph, path: set<Name>, cur: Name, target: Name, room: int)
    requires Hop(g, cur, target) && Broken(e, g, path + {cur}, target, room - 1)
    ensures Broken(e, g, path, cur, room)
  {
    if e.Cycle? {
      var w :| Returns(g, path + {cur}, target, room - 1, w);
      Preceded(g, cur, w);
      var v := [cur] + w;
      assert v[|v| - 1] == w[|w| - 1];
      if i :| 0 <= i < |w| - 1 && w[i] == w[|w| - 1] {
        assert v[i + 1] == v[|v| - 1];
      } else if w[|w| - 1] == cur {
        assert v[0] == v[|v| - 1];
      }
      assert Returns(g, path, cur, room, v);
    } else {
      var w :| Exceeds(g, target, room - 1, w);
      Preceded(g, cur, w);
      assert Exceeds(g, cur, room, [cur] + w);
    }
  }

  // ---------------------------------------------------------------- a target list, prefix by prefix

  ghost predicate TargetFine(g: Graph, path: set<Name>, cur: Name, target: Name, room: int) {
    target == cur || Fine(g, path, target, room - 1)
  }

  /** One target of `cur` expands from here. */
  ghost predicate TargetExpands(g: Graph, path: set<Name>, cur: Name, target: Name, room: nat, known: seq<Name>, budget: int) {
    && TargetFine(g, path, cur, target, room)
    && TargetSize(g, cur, target, room) <= budget
    && |Dedup(known, TargetLeaves(g, cur, target, room))| <= MAX_CANDIDATES
  }

  /** The first `i` targets expand within the limits. */
  ghost predicate Done(g: Graph, path: set<Name>, cur: Name, ts: seq<Name>, i: nat, room: nat, known: seq<Name>, budget: int)
    requires i <= |ts|
  {
    && (forall k | 0 <= k < i :: TargetFine(g, path, cur, ts[k], room))
    && SizeOf(g, cur, ts[..i], room) <= budget
    && |Dedup(known, LeavesOf(g, cur, ts[..i], room))| <= MAX_CANDIDATES
  }

  lemma StepSize(g: Graph, cur: Name, ts: seq<Name>, i: nat, room: nat)
    requires i < |ts|
    ensures SizeOf(g, cur, ts[..i + 1], room) == SizeOf(g, cur, ts[..i], room) + TargetSize(g, cur, ts[i], room)
  {
    assert ts[..i + 1][..i] == ts[..i];
  }

  lemma StepLeaves(g: Graph, cur: Name, ts: seq<Name>, i: nat, room: nat, known: seq<Name>)
    requires i < |ts|
    ensures Dedup(known, LeavesOf(g, cur, ts[..i + 1], room))
         == Dedup(Dedup(known, LeavesOf(g, cur, ts[..i], room)), TargetLeaves(g, cur, ts[i], room))
  {
    assert ts[..i + 1][..i] == ts[..i];
    DedupAppend(known, LeavesOf(g, cur, ts[..i], room), TargetLeaves(g, cur, ts[i], room));
  }

  /** One more target is done exactly when it expands from where the others left off. */
  lemma StepDone(g: Graph, path: set<Name>, cur: Name, ts: seq<Name>, i: nat, room: nat, known: seq<Name>, budget: int)
    requires i < |ts| && Done(g, path, cur, ts, i, room, known, budget)
    ensures Done(g, path, cur, ts, i + 1, room, known, budget)
       <==> TargetExpands(g, path, cur, ts[i], room, Dedup(known, LeavesOf(g, cur, ts[..i], room)),
                          budget - SizeOf(g, cur, ts[..i], room))
  {
    hide TargetFine, SizeOf, LeavesOf, TargetSize, TargetLeaves, Dedup;
    StepSize(g, cur, ts, i, room);
    StepLeaves(g, cur, ts, i, room, known);
  }

  /** What overruns at a prefix overruns for the whole list. */
  lemma {:induction false} PrefixSmaller(g: Graph, cur: Name, ts: seq<Name>, i: nat, room: nat, known: seq<Name>)
    requires i <= |ts|
    ensures SizeOf(g, cur, ts[..i], room) <= SizeOf(g, cur, ts, room)
    ensures |Dedup(known, LeavesOf(g, cur, ts[..i], room))| <= |Dedup(known, LeavesOf(g, cur, ts, room))|
    decreases |ts| - i
  {
    if i == |ts| {
      assert ts[..i] == ts;
    } else {
      StepSize(g, cur, ts, i, room);
      StepLeaves(g, cur, ts, i, room, known);
      DedupGrows(Dedup(known, LeavesOf(g, cur, ts[..i], room)), TargetLeaves(g, cur, ts[i], room));
      PrefixSmaller(g, cur, ts, i + 1, room, known);
    }
  }

  ghost predicate TargetExplains(e: Error, g: Graph, path: set<Name>, cur: Name, target: Name, room: nat, known: seq<Name>, budget: int) {
    match e
    case WorkLimit => TargetSize(g, cur, target, room) > budget
    case TooManyCandidates => |Dedup(known, TargetLeaves(g, cur, target, room))| > MAX_CANDIDATES
    case _ => TargetBroken(e, g, path, cur, target, room)
  }

  ghost predicate TargetBroken(e: Error, g: Graph, path: set<Name>, cur: Name, target: Name, room: nat) {
    !TargetFine(g, path, cur, target, room) && Broken(e, g, path, target, room - 1)
  }

  ghost predicate ListExplains(e: Error, g: Graph, path: set<Name>, cur: Name, ts: seq<Name>, room: nat, known: seq<Name>, budget: int) {
    match e
    case WorkLimit => SizeOf(g, cur, ts, room) > budget
    case TooManyCandidates => |Dedup(known, LeavesOf(g, cur, ts, room))| > MAX_CANDIDATES
    case _ => exists k :: 0 <= k < |ts| && TargetBroken(e, g, path, cur, ts[k], room)
  }

  /** A target that fails makes the whole list fail, for the same reason. */
  lemma TargetFails(e: Error, g: Graph, path: set<Name>, cur: Name, ts: seq<Name>, i: nat, room: nat, known: seq<Name>, budget: int)
    requires i < |ts|
    requires TargetExplains(e, g, path, cur, ts[i], room, Dedup(known, LeavesOf(g, cur, ts[..i], room)),
                            budget - SizeOf(g, cur, ts[..i], room))
    ensures ListExplains(e, g, path, cur, ts, room, known, budget)
    ensures !Done(g, path, cur, ts, |ts|, room, known, budget)
  {
    hide TargetFine, Broken;
    assert ts[..|ts|] == ts;
    StepSize(g, cur, ts, i, room);
    StepLeaves(g, cur, ts, i, room, known);
    PrefixSmaller(g, cur, ts, i + 1, room, known);
  }

  /** What explains the failure of a name's targets explains that of the name. */
  lemma ListBroken(e: Error, g: Graph, path: set<Name>, cur: Name, room: nat, known: seq<Name>, budget: int)
    requires cur in g && cur !in path && ListExplains(e, g, path + {cur}, cur, g[cur], room, known, budget)
    ensures Explains(e, g, path, cur, room, known, budget + 1)
  {
    if e.Cycle? || e.TooDeep? {
      var k :| 0 <= k < |g[cur]| && TargetBroken(e, g, path + {cur}, cur, g[cur][k], room);
      assert Hop(g, cur, g[cur][k]);
      hide Broken;
      BrokenAbove(e, g, path, cur, g[cur][k], room);
    }
  }

  // ---------------------------------------------------------------- the resolver

  class Resolver {
    const mapping: Graph
    var resolved: seq<Name>
    var seen: set<Name>
    var path: set<Name>
    var remaining: int

    ghost predicate Valid()
      reads this
    {
      && (forall x :: x in seen <==> x in resolved)
      && |resolved| <= MAX_CANDIDATES
      && 0 <= remaining
    }

    constructor (mapping: Graph, budget: nat)
      ensures Valid() && this.mapping == mapping
      ensures resolved == [] && path == {} && remaining == budget
    {
      this.mapping := mapping;
      resolved, seen, path, remaining := [], {}, {}, budget;
    }

    /** Records a target unless it is known; refuses one candidate too many. */
    method Add(target: Name) returns (r: Outcome)
      requires Valid()
      modifies this`resolved, this`seen
      ensures Valid()
      ensures r.Pass? <==> |Dedup(old(resolved), [target])| <= MAX_CANDIDATES
      ensures r.Pass? ==> resolved == Dedup(old(resolved), [target])
      ensures r.Fail? ==> r.error == TooManyCandidates
    {
      assert Dedup(resolved, [target]) == AddNew(resolved, target);
      if target in seen {
        return Pass;
      }
      if |resolved| >= MAX_CANDIDATES {
        return Fail(TooManyCandidates);
      }
      seen := seen + {target};
      resolved := resolved + [target];
      return Pass;
    }

    /**
      Expands one name.  It succeeds exactly when the expansion is within every limit, and then
      it has spent the size of the expansion tree and collected its leaves.
     */
    method Expand(current: Name, depth: nat) returns (r: Outcome)
      requires Valid()
      modifies this
      ensures Valid() && path == old(path) && remaining <= old(remaining)
      ensures r.Pass? <==> Expands(mapping, old(path), current, MAX_DEPTH - depth, old(resolved), old(remaining))
      ensures r.Pass? ==> remaining == old(remaining) - Size(mapping, current, MAX_DEPTH - depth)
      ensures r.Pass? ==> resolved == Dedup(old(resolved), Leaves(mapping, current, MAX_DEPTH - depth))
      ensures r.Fail? ==> Explains(r.error, mapping, old(path), current, MAX_DEPTH - depth, old(resolved), old(remaining))
      decreases MAX_DEPTH + 1 - depth, 2
    {
      if remaining <= 0 {
        return Fail(WorkLimit);
      }
      remaining := remaining - 1;
      BrokenHere(mapping, path, current, MAX_DEPTH - depth);
      hide Broken;
      if depth > MAX_DEPTH {
        return Fail(TooDeep);
      }
      if current in path {
        return Fail(Cycle);
      }
      if current !in mapping {
        r := Add(current);
        return;
      }
      path := path + {current};
      r := ExpandTargets(current, depth);
      if r.Fail? {
        ListBroken(r.error, mapping, path - {current}, current, MAX_DEPTH - depth, old(resolved), old(remaining) - 1);
      }
      path := path - {current};
    }

    /** One target: a self-mapping costs one unit and is a leaf, anything else is expanded one hop deeper. */
    method ExpandTarget(current: Name, depth: nat, target: Name) returns (r: Outcome)
      requires Valid() && depth <= MAX_DEPTH
      modifies this
      ensures Valid() && path == old(path) && remaining <= old(remaining)
      ensures var room := MAX_DEPTH - depth;
              && (r.Pass? <==> TargetExpands(mapping, old(path), current, target, room, old(resolved), old(remaining)))
              && (r.Pass? ==> remaining == old(remaining) - TargetSize(mapping, current, target, room))
              && (r.Pass? ==> resolved == Dedup(old(resolved), TargetLeaves(mapping, current, target, room)))
              && (r.Fail? ==> TargetExplains(r.error, mapping, old(path), current, target, room, old(resolved), old(remaining)))
      decreases MAX_DEPTH + 1 - depth, 0
    {
      if target == current {
        if remaining <= 0 {
          return Fail(WorkLimit);
        }
        remaining := remaining - 1;
        r := Add(target);
      } else {
        r := Expand(target, depth + 1);
      }
    }

    /** The loop over the targets of a mapped name. */
    method ExpandTargets(current: Name, depth: nat) returns (r: Outcome)
      requires Valid() && depth <= MAX_DEPTH && current in mapping
      modifies this
      ensures Valid() && path == old(path) && remaining <= old(remaining)
      ensures var ts, room := mapping[current], MAX_DEPTH - depth;
              && (r.Pass? <==> Done(mapping, old(path), current, ts, |ts|, room, old(resolved), old(remaining)))
              && (r.Pass? ==> remaining == old(remaining) - SizeOf(mapping, current, ts, room))
              && (r.Pass? ==> resolved == Dedup(old(resolved), LeavesOf(mapping, current, ts, room)))
              && (r.Fail? ==> ListExplains(r.error, mapping, old(path), current, ts, room, old(resolved), old(remaining)))
      decreases MAX_DEPTH + 1 - depth, 1
    {
      var ts := mapping[current];
      ghost var room, known, budget := MAX_DEPTH - depth, resolved, remaining;
      assert ts[..0] == [] && ts[..|ts|] == ts;
      assert Done(mapping, path, current, ts, 0, room, known, budget);
      assert SizeOf(mapping, current, [], room) == 0 && Dedup(known, LeavesOf(mapping, current, [], room)) == known;
      hide Done, TargetExpands, TargetExplains, ListExplains, SizeOf, LeavesOf, Dedup, Valid;
      for i := 0 to |ts|
        invariant Valid() && path == old(path) && remaining <= budget
        invariant Done(mapping, path, current, ts, i, room, known, budget)
        invariant remaining == budget - SizeOf(mapping, current, ts[..i], room)
        invariant resolved == Dedup(known, LeavesOf(mapping, current, ts[..i], room))
      {
        StepDone(mapping, path, current, ts, i, room, known, budget);
        StepSize(mapping, current, ts, i, room);
        StepLeaves(mapping, current, ts, i, room, known);
        r := ExpandTarget(current, depth, ts[i]);
        if r.Fail? {
          TargetFails(r.error, mapping, path, current, ts, i, room, known, budget);
          return;
        }
      }
      return Pass;
    }
  }
}
