/** `find_connecting_paths` of `GraphTraverser` (src/rag/graph_traverser.py): ask the gateway
    for a path between each of the first three names and the (at most two) names right after
    it, keeping at most three paths. */
module ConnectingPaths {
  import opened Wrappers
  import opened PyStr
  import opened Records
  import opened GraphTraversal

  const PathFirsts := 3
  const PathSpan := 2
  const MaxPaths := 3

  /** How many names follow the `i`-th one within the span: `len(entities[i+1:i+3])`. */
  function RowLen(i: nat, n: nat): nat {
    if i + 1 + PathSpan <= n then PathSpan else if i + 1 <= n then n - (i + 1) else 0
  }

  /** The first `t` pairs `(i, i + 1)`, `(i, i + 2)`, ... of row `i`. */
  function RowPrefix(i: nat, t: nat): (r: seq<(nat, nat)>)
    ensures |r| == t
    ensures forall k :: 0 <= k < t ==> r[k] == (i, i + 1 + k)
  {
    if t == 0 then [] else RowPrefix(i, t - 1) + [(i, i + t)]
  }

  /** The pairs visited for the first `i` names, in visiting order. */
  function PairsUpTo(i: nat, n: nat): seq<(nat, nat)> {
    if i == 0 then [] else PairsUpTo(i - 1, n) + RowPrefix(i - 1, RowLen(i - 1, n))
  }

  /** All pairs `find_connecting_paths` queries for `n` names, in order. */
  function PathPairs(n: nat): seq<(nat, nat)> {
    PairsUpTo(if n < PathFirsts then n else PathFirsts, n)
  }

  /** The queried pairs are exactly those `(i, j)` with `i` among the first three positions
      and `j` one of the two positions after it, within the list. */
  lemma {:induction false} PairsUpToShape(i: nat, n: nat)
    requires i <= n
    ensures forall p :: p in PairsUpTo(i, n) <==> p.0 < i && p.0 < p.1 <= p.0 + PathSpan && p.1 < n
  {
    if i > 0 {
      PairsUpToShape(i - 1, n);
      var row := RowPrefix(i - 1, RowLen(i - 1, n));
      forall p: (nat, nat) | p.0 == i - 1 && p.0 < p.1 <= p.0 + PathSpan && p.1 < n
        ensures p in row
      {
        assert row[p.1 - i] == p;
      }
    }
  }

  lemma PathPairsShape(n: nat)
    ensures forall p :: p in PathPairs(n) <==> p.0 < PathFirsts && p.0 < p.1 <= p.0 + PathSpan && p.1 < n
  {
    PairsUpToShape(if n < PathFirsts then n else PathFirsts, n);
  }

  /** The gateway's `find_path(entity1, entity2)`. */
  function FindPath(g: GraphOracle, entity1: string, entity2: string): Option<GraphPath> {
    g.findPath(entity1, entity2)
  }

  /** What the gateway finds between the two names of one pair: nothing or one path. (Pairs
      outside the list are never queried; they find nothing.) */
  function FoundAt(g: GraphOracle, names: seq<string>, p: (nat, nat)): (r: seq<GraphPath>)
    ensures |r| <= 1
  {
    if p.0 < |names| && p.1 < |names| then
      var f := FindPath(g, names[p.0], names[p.1]);
      if f.Some? then [f.value] else []
    else []
  }

  /** Every path the gateway finds for the given pairs, in order. */
  function FoundPaths(g: GraphOracle, names: seq<string>, pairs: seq<(nat, nat)>): (r: seq<GraphPath>)
    ensures |r| <= |pairs|
  {
    if pairs == [] then []
    else FoundPaths(g, names, pairs[..|pairs| - 1]) + FoundAt(g, names, pairs[|pairs| - 1])
  }

  /** Each path found is the gateway's answer for one of the pairs. */
  lemma {:induction false} FoundPathsSound(g: GraphOracle, names: seq<string>, pairs: seq<(nat, nat)>)
    ensures forall path :: path in FoundPaths(g, names, pairs) ==>
      exists p :: p in pairs && p.0 < |names| && p.1 < |names| && FindPath(g, names[p.0], names[p.1]) == Some(path)
  {
    if pairs != [] {
      var init := pairs[..|pairs| - 1];
      var last := pairs[|pairs| - 1];
      FoundPathsSound(g, names, init);
      forall path | path in FoundPaths(g, names, pairs)
        ensures exists p :: p in pairs && p.0 < |names| && p.1 < |names| && FindPath(g, names[p.0], names[p.1]) == Some(path)
      {
        if path in FoundPaths(g, names, init) {
          var p :| p in init && p.0 < |names| && p.1 < |names| && FindPath(g, names[p.0], names[p.1]) == Some(path);
          assert p in pairs;
        } else {
          assert path in FoundAt(g, names, last);
        }
      }
    }
  }

  /** Every pair the gateway answers with a path contributes it. */
  lemma {:induction false} FoundPathsComplete(g: GraphOracle, names: seq<string>, pairs: seq<(nat, nat)>, k: nat)
    requires k < |pairs| && pairs[k].0 < |names| && pairs[k].1 < |names|
    requires FindPath(g, names[pairs[k].0], names[pairs[k].1]).Some?
    ensures FindPath(g, names[pairs[k].0], names[pairs[k].1]).value in FoundPaths(g, names, pairs)
  {
    if k < |pairs| - 1 {
      FoundPathsComplete(g, names, pairs[..|pairs| - 1], k);
    }
  }

  /** Querying one more pair of row `i` appends what the gateway finds for it. */
  lemma FoundPathsRowStep(g: GraphOracle, names: seq<string>, visited: seq<(nat, nat)>, i: nat, t: nat)
    ensures FoundPaths(g, names, visited + RowPrefix(i, t + 1)) ==
      FoundPaths(g, names, visited + RowPrefix(i, t)) + FoundAt(g, names, (i, i + 1 + t))
  {
    var p := (i, i + 1 + t);
    assert RowPrefix(i, t + 1) == RowPrefix(i, t) + [p];
    AppendAssoc(visited, RowPrefix(i, t), [p]);
    FoundPathsSnoc(g, names, visited + RowPrefix(i, t), p);
  }

  /** The pair `(i, j)` of names in the list finds the gateway's answer for them. */
  lemma FoundAtPair(g: GraphOracle, names: seq<string>, i: nat, j: nat)
    requires i < |names| && j < |names|
    ensures FindPath(g, names[i], names[j]).Some? ==> FoundAt(g, names, (i, j)) == [FindPath(g, names[i], names[j]).value]
    ensures FindPath(g, names[i], names[j]).None? ==> FoundAt(g, names, (i, j)) == []
  {
  }

  /** One more pair appends what the gateway finds for it. */
  lemma FoundPathsSnoc(g: GraphOracle, names: seq<string>, xs: seq<(nat, nat)>, p: (nat, nat))
    ensures FoundPaths(g, names, xs + [p]) == FoundPaths(g, names, xs) + FoundAt(g, names, p)
  {
    assert (xs + [p])[..|xs|] == xs;
  }

  lemma {:induction false} FoundPathsConcat(g: GraphOracle, names: seq<string>, xs: seq<(nat, nat)>, ys: seq<(nat, nat)>)
    ensures FoundPaths(g, names, xs + ys) == FoundPaths(g, names, xs) + FoundPaths(g, names, ys)
    decreases |ys|
  {
    if ys == [] {
      assert xs + ys == xs;
    } else {
      var m := |ys| - 1;
      assert (xs + ys)[..|xs + ys| - 1] == xs + ys[..m];
      FoundPathsConcat(g, names, xs, ys[..m]);
    }
  }

  /** The pairs visited for fewer names come first. */
  lemma {:induction false} PairsUpToPrefix(i: nat, j: nat, n: nat)
    requires i <= j
    ensures PairsUpTo(i, n) <= PairsUpTo(j, n)
    decreases j
  {
    if i < j {
      PairsUpToPrefix(i, j - 1, n);
    }
  }

  /** Stopping after the `t`-th pair of row `i` leaves a prefix of all the pairs. */
  lemma VisitedPrefix(i: nat, t: nat, n: nat)
    requires i < n && i < PathFirsts && t <= RowLen(i, n)
    ensures PairsUpTo(i, n) + RowPrefix(i, t) <= PathPairs(n)
  {
    var row := RowPrefix(i, RowLen(i, n));
    PairsUpToPrefix(i + 1, if n < PathFirsts then n else PathFirsts, n);
    assert row[..t] == RowPrefix(i, t);
    assert PairsUpTo(i, n) + RowPrefix(i, t) <= PairsUpTo(i, n) + row;
  }

  /** Once the paths found for a prefix of the pairs number three, they are the first three
      of all the paths found. */
  lemma EarlyStop(g: GraphOracle, names: seq<string>, visited: seq<(nat, nat)>)
    requires visited <= PathPairs(|names|)
    requires |FoundPaths(g, names, visited)| == MaxPaths
    ensures FoundPaths(g, names, visited) == Take(FoundPaths(g, names, PathPairs(|names|)), MaxPaths)
  {
    var all := PathPairs(|names|);
    var rest := all[|visited|..];
    assert visited + rest == all;
    FoundPathsConcat(g, names, visited, rest);
  }

  /** The inner loop of `find_connecting_paths` for the `i`-th name: query it against the next
      two names, stopping once three paths are held. */
  method ScanRow(g: GraphOracle, entities: seq<string>, i: nat, paths0: seq<GraphPath>,
                 ghost visited0: seq<(nat, nat)>)
    returns (paths: seq<GraphPath>, ghost visited: seq<(nat, nat)>)
    requires i < |entities| && i < PathFirsts
    requires visited0 == PairsUpTo(i, |entities|) && paths0 == FoundPaths(g, entities, visited0)
    requires |paths0| < MaxPaths
    ensures paths == FoundPaths(g, entities, visited)
    ensures |paths| <= MaxPaths && visited <= PathPairs(|entities|)
    ensures |paths| < MaxPaths ==> visited == PairsUpTo(i + 1, |entities|)
  {
    var n := |entities|;
    paths := paths0;
    var seconds := entities[i + 1..if i + 1 + PathSpan <= n then i + 1 + PathSpan else n];
    assert |seconds| == RowLen(i, n);
    assert visited0 + RowPrefix(i, 0) == visited0;
    for t := 0 to |seconds|
      invariant paths == FoundPaths(g, entities, visited0 + RowPrefix(i, t))
      invariant |paths| < MaxPaths
    {
      paths := QueryPair(g, entities, visited0, i, t, seconds[t], paths);
      if |paths| >= MaxPaths {
        visited := visited0 + RowPrefix(i, t + 1);
        VisitedPrefix(i, t + 1, n);
        return;
      }
    }
    visited := visited0 + RowPrefix(i, RowLen(i, n));
    assert visited == PairsUpTo(i + 1, n);
    VisitedPrefix(i, RowLen(i, n), n);
  }

  /** One turn of the inner loop: ask for a path between the `i`-th name and `entity2`, the
      `t`-th name after it, and keep it when there is one. */
  method QueryPair(g: GraphOracle, entities: seq<string>, ghost visited0: seq<(nat, nat)>, i: nat, t: nat,
                   entity2: string, paths0: seq<GraphPath>) returns (paths: seq<GraphPath>)
    requires i + 1 + t < |entities| && entity2 == entities[i + 1 + t]
    requires paths0 == FoundPaths(g, entities, visited0 + RowPrefix(i, t))
    ensures paths == FoundPaths(g, entities, visited0 + RowPrefix(i, t + 1))
    ensures paths0 <= paths && |paths| <= |paths0| + 1
  {
    var path := FindPath(g, entities[i], entity2);
    FoundPathsRowStep(g, entities, visited0, i, t);
    FoundAtPair(g, entities, i, i + 1 + t);
    if path.Some? {
      paths := paths0 + [path.value];
    } else {
      paths := paths0;
      assert paths0 + [] == paths0;
    }
  }

  /** `find_connecting_paths(entities)`: the paths found between nearby pairs among the first
      three names, stopping as soon as three have been found. */
  method FindConnectingPaths(g: GraphOracle, entities: seq<string>) returns (paths: seq<GraphPath>)
    ensures paths == Take(FoundPaths(g, entities, PathPairs(|entities|)), MaxPaths)
    ensures |paths| <= MaxPaths
  {
    paths := [];
    ghost var visited: seq<(nat, nat)> := [];
    var firsts := Take(entities, PathFirsts);
    for i := 0 to |firsts|
      invariant visited == PairsUpTo(i, |entities|)
      invariant paths == FoundPaths(g, entities, visited)
      invariant |paths| < MaxPaths
    {
      paths, visited := ScanRow(g, entities, i, paths, visited);
      if |paths| >= MaxPaths {
        EarlyStop(g, entities, visited);
        return;
      }
    }
    AllScanned(g, entities, visited, paths);
  }

  /** Every row scanned with fewer than three paths found: they are all the paths. */
  lemma AllScanned(g: GraphOracle, entities: seq<string>, visited: seq<(nat, nat)>, paths: seq<GraphPath>)
    requires visited == PairsUpTo(|Take(entities, PathFirsts)|, |entities|)
    requires paths == FoundPaths(g, entities, visited) && |paths| < MaxPaths
    ensures paths == Take(FoundPaths(g, entities, PathPairs(|entities|)), MaxPaths)
  {
    assert visited == PathPairs(|entities|);
  }
}
