/**
 * The dependency-graph validator: a depth-first search over the dependency map that reports
 * every cycle it meets. An edge a -> b means "a depends on b"; ids that are not keys of the map
 * have no outgoing edges.
 */
module CycleDetection {
  import opened TaskModel

  /** `dependency_map.get(node, [])` */
  function Successors(g: DependencyMap, node: int): seq<int> {
    if node in g then g[node] else []
  }

  predicate Edge(g: DependencyMap, a: int, b: int) {
    a in g && b in g[a]
  }

  /** Every consecutive pair of `p` is an edge. */
  ghost predicate IsPath(g: DependencyMap, p: seq<int>) {
    forall i :: 0 < i < |p| ==> Edge(g, p[i - 1], p[i])
  }

  /** A non-empty path whose last element has an edge back to its first. */
  ghost predicate IsCycle(g: DependencyMap, c: seq<int>) {
    |c| > 0 && IsPath(g, c) && Edge(g, c[|c| - 1], c[0])
  }

  ghost predicate Acyclic(g: DependencyMap) {
    forall c :: !IsCycle(g, c)
  }

  ghost predicate Distinct(s: seq<int>) {
    forall i, j :: 0 <= i < j < |s| ==> s[i] != s[j]
  }

  /** Every id the search can reach: the keys and every id some list mentions. */
  ghost function Nodes(g: DependencyMap): set<int> {
    g.Keys + set k, d | k in g && d in g[k] :: d
  }

  /** `path.index(node)`: the first position of `x` in `s`. */
  function IndexOf(s: seq<int>, x: int): (i: nat)
    requires x in s
    ensures i < |s| && s[i] == x
    ensures forall j :: 0 <= j < i ==> s[j] != x
  {
    if s[0] == x then 0 else 1 + IndexOf(s[1..], x)
  }

  /** Every dependency of a ranked node is ranked, and lower. */
  ghost predicate RankDecreases(g: DependencyMap, rank: map<int, nat>) {
    forall n, s :: n in rank && s in Successors(g, n) ==> s in rank && rank[s] < rank[n]
  }

  /**
   * The proof witness of "no cycle found so far": exactly the visited nodes that are no longer on
   * `path` (the finished ones) are ranked, all ranks are below `clock`, and ranks fall along edges.
   */
  ghost predicate FinishRanked(g: DependencyMap, visited: set<int>, path: seq<int>, rank: map<int, nat>, clock: nat) {
    && (forall n :: n in rank <==> n in visited && n !in path)
    && (forall n :: n in rank ==> rank[n] < clock)
    && RankDecreases(g, rank)
  }

  /** Along a path that starts at a ranked node, every node is ranked and ranks fall. */
  lemma {:induction false} RankFallsAlongPath(g: DependencyMap, rank: map<int, nat>, p: seq<int>)
    requires RankDecreases(g, rank)
    requires IsPath(g, p) && |p| > 0 && p[0] in rank
    ensures p[|p| - 1] in rank && rank[p[|p| - 1]] <= rank[p[0]]
    ensures |p| > 1 ==> rank[p[|p| - 1]] < rank[p[0]]
  {
    if |p| > 1 {
      var q := p[..|p| - 1];
      assert IsPath(g, q) by {
        forall i | 0 < i < |q| ensures Edge(g, q[i - 1], q[i]) {
          assert q[i - 1] == p[i - 1] && q[i] == p[i];
        }
      }
      RankFallsAlongPath(g, rank, q);
      assert Edge(g, p[|p| - 2], p[|p| - 1]);
      assert p[|p| - 1] in Successors(g, p[|p| - 2]);
    }
  }

  /** A ranking that covers every key rules out every cycle. */
  lemma RankedIsAcyclic(g: DependencyMap, rank: map<int, nat>)
    requires RankDecreases(g, rank)
    requires g.Keys <= rank.Keys
    ensures Acyclic(g)
  {
    forall c | IsCycle(g, c) ensures false {
      var last := c[|c| - 1];
      if |c| > 1 {
        assert Edge(g, c[0], c[1]);
      }
      assert c[0] in g;
      assert c[0] in Successors(g, last);
      RankFallsAlongPath(g, rank, c);
    }
  }

  lemma FewerUnvisited(u: set<int>, before: set<int>, after: set<int>, x: int)
    requires x in u && x !in before && before + {x} <= after
    ensures |u - after| < |u - before|
  {
    var rest := (u - before) - {x};
    assert u - after <= rest;
    assert u - before == rest + {x};
    SubsetCardinality(u - after, rest);
  }

  lemma SubsetCardinality(a: set<int>, b: set<int>)
    requires a <= b
    ensures |a| <= |b|
  {
    assert b == a + (b - a);
    assert a * (b - a) == {};
  }

  /** A successor of a node is one of the nodes the graph mentions. */
  lemma SuccessorIsNode(g: DependencyMap, node: int, next: int)
    requires next in Successors(g, node)
    ensures next in Nodes(g) && Edge(g, node, next)
  {
    assert node in g && next in g[node];
  }

  /** Extending a path with an edge out of its last node gives a path. */
  lemma ExtendPath(g: DependencyMap, p: seq<int>, next: int)
    requires IsPath(g, p) && |p| > 0 && Edge(g, p[|p| - 1], next)
    ensures IsPath(g, p + [next])
  {
    var q := p + [next];
    forall k | 0 < k < |q| ensures Edge(g, q[k - 1], q[k]) {
      if k < |p| {
        assert q[k - 1] == p[k - 1] && q[k] == p[k];
      }
    }
  }

  /** Meeting `node` again on the current path closes the cycle `path[path.index(node):]`. */
  lemma PathSuffixIsCycle(g: DependencyMap, path: seq<int>, node: int, start: nat)
    requires IsPath(g, path + [node]) && Distinct(path)
    requires start < |path| && path[start] == node
    ensures IsCycle(g, path[start..]) && Distinct(path[start..])
  {
    var p := path + [node];
    var cycle := path[start..];
    forall i | 0 < i < |cycle| ensures Edge(g, cycle[i - 1], cycle[i]) {
      assert cycle[i - 1] == p[start + i - 1] && cycle[i] == p[start + i];
    }
    assert cycle[|cycle| - 1] == p[|p| - 2] && cycle[0] == p[|p| - 1];
  }

  /** A node whose dependencies have all finished may finish itself, with the next rank. */
  lemma FinishNode(g: DependencyMap, visited: set<int>, path: seq<int>, rank: map<int, nat>, clock: nat, node: int)
    requires FinishRanked(g, visited, path + [node], rank, clock)
    requires node in visited && node !in path
    requires forall s :: s in Successors(g, node) ==> s in rank
    ensures FinishRanked(g, visited, path, rank[node := clock], clock + 1)
  {
    assert node !in rank;
  }

  /** Nodes that had finished stay finished as the search goes on. */
  lemma StillFinished(g: DependencyMap, visited: set<int>, visited': set<int>, path: seq<int>,
                      rank: map<int, nat>, rank': map<int, nat>, clock: nat, clock': nat,
                      done: seq<int>, last: int)
    requires FinishRanked(g, visited, path, rank, clock) && FinishRanked(g, visited', path, rank', clock')
    requires visited <= visited' && forall n :: n in done ==> n in rank
    requires last in rank'
    ensures forall n :: n in done + [last] ==> n in rank'
  {
  }

  /** Pushing a first-time node on the path keeps the finished set as it was. */
  lemma PushNode(g: DependencyMap, visited: set<int>, path: seq<int>, rank: map<int, nat>, clock: nat, node: int)
    requires FinishRanked(g, visited, path, rank, clock) && node !in visited && node !in path
    requires Distinct(path)
    ensures FinishRanked(g, visited + {node}, path + [node], rank, clock)
    ensures Distinct(path + [node])
  {
  }

  /** Meeting the last node of a path without repeats again closes the one-element cycle `[node]`. */
  lemma SelfLoopReport(path: seq<int>, node: int)
    requires Distinct(path) && |path| > 0 && path[|path| - 1] == node
    ensures IndexOf(path, node) == |path| - 1
    ensures path[|path| - 1..] == [node]
  {
  }

  /** The self-loops reported so far stay reported when one more search's reports are appended. */
  lemma SelfLoopsKept(g: DependencyMap, v0: set<int>, v1: set<int>, v2: set<int>,
                      cycles: seq<seq<int>>, found: seq<seq<int>>)
    requires forall x :: x in v1 - v0 && Edge(g, x, x) ==> [x] in cycles
    requires forall x :: x in v2 - v1 && Edge(g, x, x) ==> [x] in found
    requires v1 <= v2
    ensures forall x :: x in v2 - v0 && Edge(g, x, x) ==> [x] in cycles + found
  {
  }

  /**
   * The inner `dfs(node, visited, path)`. `visited` is shared by every call in the Python code;
   * here it is passed in and handed back. `path` holds the ancestors of `node`, so it is a path of
   * the graph ending with an edge into `node`. The ghost parameters carry the finish ranking, which
   * only needs to hold while no cycle has been found (`ranked`).
   * The search terminates because each new exploration has one more visited node out of the
   * finitely many the graph mentions.
   */
  method Dfs(g: DependencyMap, node: int, visited: set<int>, path: seq<int>,
             ghost ranked: bool, ghost rank: map<int, nat>, ghost clock: nat)
    returns (cycles: seq<seq<int>>, visitedOut: set<int>, ghost rankOut: map<int, nat>, ghost clockOut: nat)
    requires node in Nodes(g)
    requires IsPath(g, path + [node]) && Distinct(path)
    requires forall x :: x in path ==> x in visited
    requires ranked ==> FinishRanked(g, visited, path, rank, clock)
    ensures visited <= visitedOut && node in visitedOut
    ensures forall c :: c in cycles ==> IsCycle(g, c) && Distinct(c)
    ensures ranked && cycles == [] ==> FinishRanked(g, visitedOut, path, rankOut, clockOut) && node in rankOut
    ensures |path| > 0 && path[|path| - 1] == node ==> cycles == [[node]]
    ensures node !in path && node in visited ==> cycles == [] && visitedOut == visited
    ensures forall x :: x in visitedOut - visited && Edge(g, x, x) ==> [x] in cycles
    decreases |Nodes(g) - visited|, 1
  {
    if node in path {
      if path[|path| - 1] == node {
        SelfLoopReport(path, node);
      }
      var start := IndexOf(path, node);
      PathSuffixIsCycle(g, path, node, start);
      cycles := [path[start..]];
      visitedOut, rankOut, clockOut := visited, rank, clock;
    } else if node in visited {
      cycles := [];
      visitedOut, rankOut, clockOut := visited, rank, clock;
    } else {
      cycles, visitedOut, rankOut, clockOut := Explore(g, node, visited, path, ranked, rank, clock);
    }
  }

  /**
   * The second half of `dfs`, for a node met for the first time: mark it visited, push it on the
   * path and search from each of its dependencies in turn, collecting what they report.
   */
  method Explore(g: DependencyMap, node: int, visited: set<int>, path: seq<int>,
                 ghost ranked: bool, ghost rank: map<int, nat>, ghost clock: nat)
    returns (cycles: seq<seq<int>>, visitedOut: set<int>, ghost rankOut: map<int, nat>, ghost clockOut: nat)
    requires node in Nodes(g) && node !in visited && node !in path
    requires IsPath(g, path + [node]) && Distinct(path)
    requires forall x :: x in path ==> x in visited
    requires ranked ==> FinishRanked(g, visited, path, rank, clock)
    ensures visited + {node} <= visitedOut
    ensures forall c :: c in cycles ==> IsCycle(g, c) && Distinct(c)
    ensures ranked && cycles == [] ==> FinishRanked(g, visitedOut, path, rankOut, clockOut) && node in rankOut
    ensures forall x :: x in visitedOut - visited && Edge(g, x, x) ==> [x] in cycles
    decreases |Nodes(g) - visited|, 0
  {
    visitedOut := visited + {node};
    var extended := path + [node];
    if ranked {
      PushNode(g, visited, path, rank, clock, node);
    }
    assert Distinct(extended);
    var successors := Successors(g, node);
    cycles := [];
    rankOut, clockOut := rank, clock;
    var i := 0;
    while i < |successors|
      invariant 0 <= i <= |successors|
      invariant visited + {node} <= visitedOut
      invariant forall c :: c in cycles ==> IsCycle(g, c) && Distinct(c)
      invariant ranked && cycles == [] ==> FinishRanked(g, visitedOut, extended, rankOut, clockOut)
      invariant ranked && cycles == [] ==> forall n :: n in successors[..i] ==> n in rankOut
      invariant forall x :: x in visitedOut - (visited + {node}) && Edge(g, x, x) ==> [x] in cycles
      invariant node in successors[..i] ==> [node] in cycles
    {
      var next := successors[i];
      SuccessorIsNode(g, node, next);
      ExtendPath(g, extended, next);
      FewerUnvisited(Nodes(g), visited, visitedOut, node);
      ghost var rankBefore, visitedBefore, clockBefore := rankOut, visitedOut, clockOut;
      var found;
      found, visitedOut, rankOut, clockOut := Dfs(g, next, visitedOut, extended, ranked && cycles == [], rankOut, clockOut);
      SelfLoopsKept(g, visited + {node}, visitedBefore, visitedOut, cycles, found);
      assert successors[..i + 1] == successors[..i] + [next];
      if ranked && cycles == [] && found == [] {
        // what had finished before this dependency's search is still finished after it
        StillFinished(g, visitedBefore, visitedOut, extended, rankBefore, rankOut, clockBefore, clockOut, successors[..i], next);
      }
      cycles := cycles + found;
      i := i + 1;
    }
    assert successors[..i] == successors;
    if ranked && cycles == [] {
      // every dependency has finished without a cycle, so `node` takes the next rank
      FinishNode(g, visitedOut, path, rankOut, clockOut, node);
      rankOut := rankOut[node := clockOut];
      clockOut := clockOut + 1;
    }
  }

  /**
   * `detect_circular_dependencies`. `keys` is the dictionary's iteration order of the map's keys.
   * Every reported list is a cycle without repeated ids, and nothing is reported exactly when the
   * map has no cycle at all.
   */
  method DetectCircularDependencies(g: DependencyMap, keys: seq<int>) returns (cycles: seq<seq<int>>)
    requires forall k :: k in g <==> k in keys
    ensures forall c :: c in cycles ==> IsCycle(g, c) && Distinct(c)
    ensures cycles == [] <==> Acyclic(g)
    ensures forall x :: Edge(g, x, x) ==> [x] in cycles
  {
    var visited: set<int> := {};
    ghost var rank: map<int, nat> := map[];
    ghost var clock: nat := 0;
    cycles := [];
    for i := 0 to |keys|
      invariant forall c :: c in cycles ==> IsCycle(g, c) && Distinct(c)
      invariant cycles == [] ==> FinishRanked(g, visited, [], rank, clock)
      invariant forall j :: 0 <= j < i ==> keys[j] in visited
      invariant forall x :: x in visited && Edge(g, x, x) ==> [x] in cycles
    {
      if keys[i] !in visited {
        assert [] + [keys[i]] == [keys[i]];
        var found;
        found, visited, rank, clock := Dfs(g, keys[i], visited, [], cycles == [], rank, clock);
        cycles := cycles + found;
      }
    }
    if cycles == [] {
      forall k | k in g ensures k in rank {
        var j :| 0 <= j < |keys| && keys[j] == k;
      }
      RankedIsAcyclic(g, rank);
    } else {
      assert IsCycle(g, cycles[0]);
    }
  }
}
